/**
 * The client's availability calculator: for one player, how many copies
 * of each monster type they own and how many the plan already commits.
 */
module Availability {
  import opened Wrappers
  import opened SiegeModel

  /** One entry of the table: `{ owned, used }`. */
  datatype Counts = Counts(owned: nat, used: nat)

  /** The type ids of a list of owned units, in order. */
  function Ids(units: seq<Unit>): seq<MonsterId> {
    seq(|units|, k requires 0 <= k < |units| => units[k].unitMasterId)
  }

  /** Copies of type `id` that slot `s` commits for `name`: none unless the slot is `name`'s and `id` is a real id. */
  function SlotUse(s: Slot, name: string, id: MonsterId): nat {
    if s.player == Some(name) && id != Empty then multiset(s.monsters)[id] else 0
  }

  function BaseUse(slots: seq<Slot>, name: string, id: MonsterId): nat {
    if slots == [] then 0
    else BaseUse(slots[..|slots| - 1], name, id) + SlotUse(slots[|slots| - 1], name, id)
  }

  /** Copies of type `id` committed for `name` over the whole plan. */
  function PlanUse(plan: Plan, name: string, id: MonsterId): nat {
    if plan == [] then 0
    else PlanUse(plan[..|plan| - 1], name, id) + BaseUse(plan[|plan| - 1], name, id)
  }

  /** First pass of `getAvailableMonsters`: one entry per owned type, `owned` its number of copies, `used` zero. */
  method CountOwned(playerMonsters: seq<Unit>) returns (table: map<MonsterId, Counts>)
    ensures table.Keys == set u | u in playerMonsters :: u.unitMasterId
    ensures forall id :: id in table ==> table[id] == Counts(multiset(Ids(playerMonsters))[id], 0)
  {
    table := map[];
    for i := 0 to |playerMonsters|
      invariant table.Keys == set u | u in playerMonsters[..i] :: u.unitMasterId
      invariant forall id :: id in table ==> table[id] == Counts(multiset(Ids(playerMonsters[..i]))[id], 0)
    {
      var id := playerMonsters[i].unitMasterId;
      var c := if id in table then table[id] else Counts(0, 0);
      table := table[id := c.(owned := c.owned + 1)];
      assert playerMonsters[..i + 1] == playerMonsters[..i] + [playerMonsters[i]];
      assert Ids(playerMonsters[..i + 1]) == Ids(playerMonsters[..i]) + [id];
    }
    assert playerMonsters[..|playerMonsters|] == playerMonsters;
  }

  /** Counts one slot: every real id at a position of `name`'s slot that is already a key adds one to its `used`. */
  method AddSlotUse(table: map<MonsterId, Counts>, slot: Slot, name: string) returns (r: map<MonsterId, Counts>)
    ensures r.Keys == table.Keys
    ensures forall id :: id in r ==> r[id] == Counts(table[id].owned, table[id].used + SlotUse(slot, name, id))
  {
    r := table;
    if slot.player == Some(name) {
      for j := 0 to |slot.monsters|
        invariant r.Keys == table.Keys
        invariant forall id :: id in r ==>
          r[id] == Counts(table[id].owned, table[id].used + if id != Empty then multiset(slot.monsters[..j])[id] else 0)
      {
        var mId := slot.monsters[j];
        if mId != Empty && mId in r {
          r := r[mId := r[mId].(used := r[mId].used + 1)];
        }
        assert slot.monsters[..j + 1] == slot.monsters[..j] + [mId];
      }
      assert slot.monsters[..|slot.monsters|] == slot.monsters;
    }
  }

  /** Counts the slots of one base. */
  method AddBaseUse(table: map<MonsterId, Counts>, slots: seq<Slot>, name: string) returns (r: map<MonsterId, Counts>)
    ensures r.Keys == table.Keys
    ensures forall id :: id in r ==> r[id] == Counts(table[id].owned, table[id].used + BaseUse(slots, name, id))
  {
    r := table;
    for k := 0 to |slots|
      invariant r.Keys == table.Keys
      invariant forall id :: id in r ==> r[id] == Counts(table[id].owned, table[id].used + BaseUse(slots[..k], name, id))
    {
      r := AddSlotUse(r, slots[k], name);
      assert slots[..k + 1][..k] == slots[..k];
    }
    assert slots[..|slots|] == slots;
  }

  /**
   * `getAvailableMonsters`: one entry per owned type, its `owned` the
   * number of owned copies of that type and its `used` the number of
   * positions holding it in the slots assigned to the player, over the
   * whole plan. Types that are used but not owned get no entry.
   */
  method GetAvailableMonsters(playerName: string, playerMonsters: seq<Unit>, plan: Plan)
    returns (table: map<MonsterId, Counts>)
    ensures table.Keys == set u | u in playerMonsters :: u.unitMasterId
    ensures forall id :: id in table ==> table[id] == Counts(multiset(Ids(playerMonsters))[id], PlanUse(plan, playerName, id))
  {
    table := CountOwned(playerMonsters);
    ghost var start := table;
    for b := 0 to |plan|
      invariant table.Keys == start.Keys
      invariant forall id :: id in table ==> table[id] == Counts(start[id].owned, PlanUse(plan[..b], playerName, id))
    {
      table := AddBaseUse(table, plan[b], playerName);
      assert plan[..b + 1][..b] == plan[..b];
    }
    assert plan[..|plan|] == plan;
  }

  /** The "N dispo" figure shown beside an owned type: owned copies not yet committed. */
  function Available(c: Counts): (dispo: int)
    ensures dispo < 0 <==> c.used > c.owned
    ensures dispo + c.used == c.owned
  {
    c.owned - c.used
  }

  /**
   * Taking a slot that was not the player's, with `k` copies of a type
   * among its monsters, lowers the "dispo" figure of that type by `k`.
   */
  lemma AvailableAfterAssign(plan: Plan, baseId: int, slotIndex: nat, name: string, monsters: seq<MonsterId>, owned: nat, id: MonsterId)
    requires IsLocation(plan, baseId, slotIndex) && SlotAt(plan, baseId, slotIndex).player != Some(name) && id != Empty
    ensures var after := SetSlot(plan, baseId, slotIndex, Slot(Some(name), monsters));
      Available(Counts(owned, PlanUse(after, name, id))) == Available(Counts(owned, PlanUse(plan, name, id))) - multiset(monsters)[id]
  {
    PlanUseAfterSetSlot(plan, baseId, slotIndex, Slot(Some(name), monsters), name, id);
  }

  /** Every monster position of the slots assigned to `name`, base by base, slot by slot. */
  function Committed(plan: Plan, name: string): seq<MonsterId> {
    if plan == [] then [] else Committed(plan[..|plan| - 1], name) + BaseCommitted(plan[|plan| - 1], name)
  }

  function BaseCommitted(slots: seq<Slot>, name: string): seq<MonsterId> {
    if slots == [] then []
    else
      var last := slots[|slots| - 1];
      BaseCommitted(slots[..|slots| - 1], name) + (if last.player == Some(name) then last.monsters else [])
  }

  lemma {:induction false} BaseUseIsMultiplicity(slots: seq<Slot>, name: string, id: MonsterId)
    requires id != Empty
    ensures BaseUse(slots, name, id) == multiset(BaseCommitted(slots, name))[id]
  {
    if slots != [] {
      BaseUseIsMultiplicity(slots[..|slots| - 1], name, id);
    }
  }

  /**
   * `used` counts occurrences with multiplicity: it is the number of
   * times a real id appears among all monster positions of the player's slots.
   */
  lemma {:induction false} PlanUseIsMultiplicity(plan: Plan, name: string, id: MonsterId)
    requires id != Empty
    ensures PlanUse(plan, name, id) == multiset(Committed(plan, name))[id]
  {
    if plan != [] {
      PlanUseIsMultiplicity(plan[..|plan| - 1], name, id);
      BaseUseIsMultiplicity(plan[|plan| - 1], name, id);
    }
  }

  /** The empty id is never counted as used. */
  lemma {:induction false} EmptyNeverUsed(plan: Plan, name: string)
    ensures PlanUse(plan, name, Empty) == 0
  {
    if plan != [] {
      EmptyNeverUsed(plan[..|plan| - 1], name);
      EmptyBaseNeverUsed(plan[|plan| - 1], name);
    }
  }

  lemma {:induction false} EmptyBaseNeverUsed(slots: seq<Slot>, name: string)
    ensures BaseUse(slots, name, Empty) == 0
  {
    if slots != [] {
      EmptyBaseNeverUsed(slots[..|slots| - 1], name);
    }
  }

  /** A base whose slots are all unassigned commits nothing. */
  lemma {:induction false} UnassignedBaseUsesNothing(slots: seq<Slot>, name: string, id: MonsterId)
    requires forall i :: 0 <= i < |slots| ==> slots[i].player == None
    ensures BaseUse(slots, name, id) == 0
  {
    if slots != [] {
      UnassignedBaseUsesNothing(slots[..|slots| - 1], name, id);
    }
  }

  /** In a fresh plan nothing is used: every owned copy is available. */
  lemma {:induction false} InitialPlanUsesNothing(plan: Plan, name: string, id: MonsterId)
    requires IsInitialPlan(plan)
    ensures PlanUse(plan, name, id) == 0
  {
    var p := plan;
    while p != []
      invariant p == plan[..|p|]
      invariant PlanUse(plan, name, id) == PlanUse(p, name, id)
      decreases |p|
    {
      UnassignedBaseUsesNothing(p[|p| - 1], name, id);
      assert p[..|p| - 1] == plan[..|p| - 1];
      p := p[..|p| - 1];
    }
  }

  /** Replacing slot `i` of a base changes its use by exactly the difference between the two slots. */
  lemma {:induction false} BaseUseAfterReplace(slots: seq<Slot>, i: nat, s: Slot, name: string, id: MonsterId)
    requires i < |slots|
    ensures BaseUse(slots[i := s], name, id) + SlotUse(slots[i], name, id) == BaseUse(slots, name, id) + SlotUse(s, name, id)
  {
    var n := |slots| - 1;
    assert slots[i := s][..n] == if i == n then slots[..n] else slots[..n][i := s];
    if i < n {
      BaseUseAfterReplace(slots[..n], i, s, name, id);
    }
  }

  /** Replacing base `b` of a plan changes the plan's use by the difference between the two bases. */
  lemma {:induction false} PlanUseAfterReplace(plan: Plan, b: nat, slots: seq<Slot>, name: string, id: MonsterId)
    requires b < |plan|
    ensures PlanUse(plan[b := slots], name, id) + BaseUse(plan[b], name, id) == PlanUse(plan, name, id) + BaseUse(slots, name, id)
  {
    var n := |plan| - 1;
    assert plan[b := slots][..n] == if b == n then plan[..n] else plan[..n][b := slots];
    if b < n {
      PlanUseAfterReplace(plan[..n], b, slots, name, id);
    }
  }

  /**
   * Writing slot (baseId, slotIndex) moves `used` by exactly what the new
   * slot commits minus what the old one committed; for any player other
   * than the old and new occupants, nothing moves.
   */
  lemma PlanUseAfterSetSlot(plan: Plan, baseId: int, slotIndex: nat, s: Slot, name: string, id: MonsterId)
    requires IsLocation(plan, baseId, slotIndex)
    ensures PlanUse(SetSlot(plan, baseId, slotIndex, s), name, id) + SlotUse(SlotAt(plan, baseId, slotIndex), name, id)
         == PlanUse(plan, name, id) + SlotUse(s, name, id)
  {
    var slots := plan[baseId - 1];
    assert SetSlot(plan, baseId, slotIndex, s) == plan[baseId - 1 := slots[slotIndex := s]];
    BaseUseAfterReplace(slots, slotIndex, s, name, id);
    PlanUseAfterReplace(plan, baseId - 1, slots[slotIndex := s], name, id);
  }

  lemma {:induction false} BaseUseAfterClear(slots: seq<Slot>, guest: string, name: string, id: MonsterId)
    ensures var cleared := seq(|slots|, i requires 0 <= i < |slots| => ClearedSlot(slots[i], guest));
      BaseUse(cleared, name, id) == if name == guest then 0 else BaseUse(slots, name, id)
  {
    var cleared := seq(|slots|, i requires 0 <= i < |slots| => ClearedSlot(slots[i], guest));
    if slots != [] {
      var n := |slots| - 1;
      assert cleared[..n] == seq(n, i requires 0 <= i < n => ClearedSlot(slots[..n][i], guest));
      BaseUseAfterClear(slots[..n], guest, name, id);
    }
  }

  /**
   * Removing a guest frees every copy the plan committed for that guest
   * and leaves every other player's counts as they were.
   */
  lemma {:induction false} PlanUseAfterClear(plan: Plan, guest: string, name: string, id: MonsterId)
    ensures PlanUse(ClearedPlan(plan, guest), name, id) == if name == guest then 0 else PlanUse(plan, name, id)
  {
    if plan != [] {
      var n := |plan| - 1;
      var cleared := ClearedPlan(plan, guest);
      assert cleared[..n] == ClearedPlan(plan[..n], guest);
      assert cleared[n] == seq(|plan[n]|, i requires 0 <= i < |plan[n]| => ClearedSlot(plan[n][i], guest));
      PlanUseAfterClear(plan[..n], guest, name, id);
      BaseUseAfterClear(plan[n], guest, name, id);
    }
  }
}
