/**
 * The client's two conflict detectors for a slot being shown: the
 * quantity check (a type committed more often than it is owned) and
 * `checkConflicts` (the same player using the same type in another slot).
 * Both only read the plan.
 */
module Conflicts {
  import opened Wrappers
  import opened SiegeModel
  import opened Availability

  /** One quantity warning: `<monster>: <used> utilisé(s) > <owned> possédé(s)`. */
  datatype QuantityConflict = QuantityConflict(monster: MonsterId, used: nat, owned: nat)

  /** The table has an entry for the real id `id`, and that entry is over-committed. */
  predicate OverCommitted(table: map<MonsterId, Counts>, id: MonsterId) {
    id != Empty && id in table && table[id].used > table[id].owned
  }

  /**
   * The quantity warnings of a slot, one per position (in order) whose
   * id is over-committed in the table.
   */
  function QuantityConflictsOf(monsters: seq<MonsterId>, table: map<MonsterId, Counts>): (r: seq<QuantityConflict>)
    ensures |r| <= |monsters|
    ensures forall c :: c in r ==>
      c.monster in monsters && OverCommitted(table, c.monster) && table[c.monster] == Counts(c.owned, c.used)
    ensures r == [] <==> forall k :: 0 <= k < |monsters| ==> !OverCommitted(table, monsters[k])
  {
    if monsters == [] then []
    else
      var m := monsters[|monsters| - 1];
      QuantityConflictsOf(monsters[..|monsters| - 1], table)
        + (if OverCommitted(table, m) then [QuantityConflict(m, table[m].used, table[m].owned)] else [])
  }

  /** The loop that collects the quantity warnings of a slot. */
  method QuantityConflicts(monsters: seq<MonsterId>, table: map<MonsterId, Counts>) returns (r: seq<QuantityConflict>)
    ensures r == QuantityConflictsOf(monsters, table)
  {
    r := [];
    for idx := 0 to |monsters|
      invariant r == QuantityConflictsOf(monsters[..idx], table)
    {
      var mId := monsters[idx];
      assert monsters[..idx + 1] == monsters[..idx] + [mId];
      if mId != Empty {
        if mId in table && table[mId].used > table[mId].owned {
          r := r + [QuantityConflict(mId, table[mId].used, table[mId].owned)];
        }
      }
    }
    assert monsters[..|monsters|] == monsters;
  }

  /**
   * Every over-committed position gets its own warning: a warning occurs
   * exactly as often as its id occurs in the slot, and only when it
   * carries the table's over-committed counts for that id.
   */
  lemma {:induction false} QuantityConflictsCount(monsters: seq<MonsterId>, table: map<MonsterId, Counts>, c: QuantityConflict)
    ensures multiset(QuantityConflictsOf(monsters, table))[c] ==
      if OverCommitted(table, c.monster) && table[c.monster] == Counts(c.owned, c.used) then multiset(monsters)[c.monster] else 0
  {
    if monsters != [] {
      var n := |monsters| - 1;
      QuantityConflictsCount(monsters[..n], table, c);
      assert monsters == monsters[..n] + [monsters[n]];
    }
  }

  /**
   * For an owned type in the slot, the slot shows a warning for it exactly
   * when its "dispo" figure has gone below zero.
   */
  lemma WarnedIffNegativeDispo(monsters: seq<MonsterId>, table: map<MonsterId, Counts>, id: MonsterId)
    requires id != Empty && id in monsters && id in table
    ensures QuantityConflict(id, table[id].used, table[id].owned) in QuantityConflictsOf(monsters, table)
      <==> Available(table[id]) < 0
  {
    QuantityConflictsCount(monsters, table, QuantityConflict(id, table[id].used, table[id].owned));
  }

  /** One duplicate warning: `<monster> déjà utilisé en Base <baseId> (Slot <slotIndex + 1>)`. */
  datatype DuplicateConflict = DuplicateConflict(monster: MonsterId, baseId: int, slotIndex: nat)

  /**
   * Whether monster `m` of `player`, edited at (currentBase, currentSlot),
   * clashes with the slot at (baseId, slotIndex): another slot, the same
   * player, and `m` among its monsters.
   */
  predicate Clashes(plan: Plan, player: Option<string>, m: MonsterId, currentBase: int, currentSlot: int, baseId: int, slotIndex: int)
    requires IsLocation(plan, baseId, slotIndex)
  {
    && !(baseId == currentBase && slotIndex == currentSlot)
    && SlotAt(plan, baseId, slotIndex).player == player
    && m in SlotAt(plan, baseId, slotIndex).monsters
  }

  /** Warnings for monster `m` against the slots of base `baseId`, in slot order. */
  function BaseClashes(m: MonsterId, player: Option<string>, slots: seq<Slot>, baseId: int, currentBase: int, currentSlot: int)
    : seq<DuplicateConflict>
  {
    if slots == [] then []
    else
      var i := |slots| - 1;
      var hit := !(baseId == currentBase && i == currentSlot) && slots[i].player == player && m in slots[i].monsters;
      BaseClashes(m, player, slots[..i], baseId, currentBase, currentSlot) + (if hit then [DuplicateConflict(m, baseId, i)] else [])
  }

  /** Warnings for monster `m` against the whole plan, base by base. */
  function PlanClashes(m: MonsterId, player: Option<string>, plan: Plan, currentBase: int, currentSlot: int): seq<DuplicateConflict> {
    if plan == [] then []
    else
      PlanClashes(m, player, plan[..|plan| - 1], currentBase, currentSlot)
        + BaseClashes(m, player, plan[|plan| - 1], |plan|, currentBase, currentSlot)
  }

  /** All warnings of `checkConflicts`, monster position by monster position; empty positions are skipped. */
  function DuplicateConflictsOf(player: Option<string>, monsters: seq<MonsterId>, plan: Plan, currentBase: int, currentSlot: int)
    : seq<DuplicateConflict>
  {
    if monsters == [] then []
    else
      var m := monsters[|monsters| - 1];
      DuplicateConflictsOf(player, monsters[..|monsters| - 1], plan, currentBase, currentSlot)
        + (if m == Empty then [] else PlanClashes(m, player, plan, currentBase, currentSlot))
  }

  /** The inner scan of `checkConflicts`: monster `m` against the slots of one base. */
  method ScanBase(m: MonsterId, player: Option<string>, slots: seq<Slot>, baseId: int, currentBaseId: int, currentSlotIndex: int)
    returns (found: seq<DuplicateConflict>)
    ensures found == BaseClashes(m, player, slots, baseId, currentBaseId, currentSlotIndex)
  {
    found := [];
    for sIdx := 0 to |slots|
      invariant found == BaseClashes(m, player, slots[..sIdx], baseId, currentBaseId, currentSlotIndex)
    {
      var s := slots[sIdx];
      if !(baseId == currentBaseId && sIdx == currentSlotIndex) && s.player == player && m in s.monsters {
        found := found + [DuplicateConflict(m, baseId, sIdx)];
      }
      assert slots[..sIdx + 1][..sIdx] == slots[..sIdx];
    }
    assert slots[..|slots|] == slots;
  }

  /** The middle scan of `checkConflicts`: monster `m` against every base, in order. */
  method ScanPlan(m: MonsterId, player: Option<string>, plan: Plan, currentBaseId: int, currentSlotIndex: int)
    returns (found: seq<DuplicateConflict>)
    ensures found == PlanClashes(m, player, plan, currentBaseId, currentSlotIndex)
  {
    found := [];
    for b := 0 to |plan|
      invariant found == PlanClashes(m, player, plan[..b], currentBaseId, currentSlotIndex)
    {
      var inBase := ScanBase(m, player, plan[b], b + 1, currentBaseId, currentSlotIndex);
      found := found + inBase;
      assert plan[..b + 1][..b] == plan[..b];
    }
    assert plan[..|plan|] == plan;
  }

  /** `checkConflicts(player, monsters, currentBaseId, currentSlotIndex)` over the plan the client holds. */
  method CheckConflicts(player: Option<string>, monsters: seq<MonsterId>, plan: Plan, currentBaseId: int, currentSlotIndex: int)
    returns (conflicts: seq<DuplicateConflict>)
    ensures conflicts == DuplicateConflictsOf(player, monsters, plan, currentBaseId, currentSlotIndex)
  {
    conflicts := [];
    for k := 0 to |monsters|
      invariant conflicts == DuplicateConflictsOf(player, monsters[..k], plan, currentBaseId, currentSlotIndex)
    {
      var mId := monsters[k];
      if mId != Empty {
        var found := ScanPlan(mId, player, plan, currentBaseId, currentSlotIndex);
        conflicts := conflicts + found;
      }
      assert monsters[..k + 1][..k] == monsters[..k];
    }
    assert monsters[..|monsters|] == monsters;
  }

  lemma {:induction false} BaseClashesMembers(
    m: MonsterId, player: Option<string>, slots: seq<Slot>, baseId: int, currentBase: int, currentSlot: int, c: DuplicateConflict)
    ensures c in BaseClashes(m, player, slots, baseId, currentBase, currentSlot) <==>
      && c.monster == m && c.baseId == baseId && c.slotIndex < |slots|
      && !(baseId == currentBase && c.slotIndex == currentSlot)
      && slots[c.slotIndex].player == player && m in slots[c.slotIndex].monsters
  {
    if slots != [] {
      BaseClashesMembers(m, player, slots[..|slots| - 1], baseId, currentBase, currentSlot, c);
    }
  }

  lemma {:induction false} PlanClashesMembers(
    m: MonsterId, player: Option<string>, plan: Plan, currentBase: int, currentSlot: int, c: DuplicateConflict)
    ensures c in PlanClashes(m, player, plan, currentBase, currentSlot) <==>
      c.monster == m && IsLocation(plan, c.baseId, c.slotIndex)
      && Clashes(plan, player, m, currentBase, currentSlot, c.baseId, c.slotIndex)
  {
    if plan != [] {
      var n := |plan| - 1;
      var prefix := plan[..n];
      PlanClashesMembers(m, player, prefix, currentBase, currentSlot, c);
      BaseClashesMembers(m, player, plan[n], n + 1, currentBase, currentSlot, c);
      if 1 <= c.baseId <= n {
        assert prefix[c.baseId - 1] == plan[c.baseId - 1];
      }
    }
  }

  /**
   * `checkConflicts` reports exactly the pairs (monster, other slot) where
   * the monster is a real id of the edited slot, the other slot is not the
   * one being edited, belongs to the same player and holds that monster.
   */
  lemma {:induction false} DuplicateConflictsMembers(
    player: Option<string>, monsters: seq<MonsterId>, plan: Plan, currentBase: int, currentSlot: int, c: DuplicateConflict)
    ensures c in DuplicateConflictsOf(player, monsters, plan, currentBase, currentSlot) <==>
      c.monster != Empty && c.monster in monsters && IsLocation(plan, c.baseId, c.slotIndex)
      && Clashes(plan, player, c.monster, currentBase, currentSlot, c.baseId, c.slotIndex)
  {
    if monsters != [] {
      var n := |monsters| - 1;
      DuplicateConflictsMembers(player, monsters[..n], plan, currentBase, currentSlot, c);
      PlanClashesMembers(monsters[n], player, plan, currentBase, currentSlot, c);
      assert monsters == monsters[..n] + [monsters[n]];
    }
  }

  /** Within one base, each warning is produced at most once. */
  lemma {:induction false} BaseClashesOnce(
    m: MonsterId, player: Option<string>, slots: seq<Slot>, baseId: int, currentBase: int, currentSlot: int, c: DuplicateConflict)
    ensures var r := BaseClashes(m, player, slots, baseId, currentBase, currentSlot);
      multiset(r)[c] == if c in r then 1 else 0
  {
    if slots != [] {
      var n := |slots| - 1;
      BaseClashesOnce(m, player, slots[..n], baseId, currentBase, currentSlot, c);
      BaseClashesMembers(m, player, slots[..n], baseId, currentBase, currentSlot, c);
    }
  }

  /** Over the whole plan, each warning for monster `m` is produced once if its slot clashes, and never otherwise. */
  lemma {:induction false} PlanClashesOnce(
    m: MonsterId, player: Option<string>, plan: Plan, currentBase: int, currentSlot: int, c: DuplicateConflict)
    ensures multiset(PlanClashes(m, player, plan, currentBase, currentSlot))[c] ==
      if c.monster == m && IsLocation(plan, c.baseId, c.slotIndex)
        && Clashes(plan, player, m, currentBase, currentSlot, c.baseId, c.slotIndex) then 1 else 0
  {
    PlanClashesMembers(m, player, plan, currentBase, currentSlot, c);
    if plan != [] {
      var n := |plan| - 1;
      PlanClashesOnce(m, player, plan[..n], currentBase, currentSlot, c);
      PlanClashesMembers(m, player, plan[..n], currentBase, currentSlot, c);
      BaseClashesOnce(m, player, plan[n], n + 1, currentBase, currentSlot, c);
      BaseClashesMembers(m, player, plan[n], n + 1, currentBase, currentSlot, c);
    }
  }

  /**
   * How often `checkConflicts` reports a clashing slot: once per position
   * of the edited slot holding that id, so a type placed twice in the
   * edited slot reports each clashing slot twice.
   */
  lemma {:induction false} DuplicateConflictsCount(
    player: Option<string>, monsters: seq<MonsterId>, plan: Plan, currentBase: int, currentSlot: int, c: DuplicateConflict)
    ensures multiset(DuplicateConflictsOf(player, monsters, plan, currentBase, currentSlot))[c] ==
      if c.monster != Empty && IsLocation(plan, c.baseId, c.slotIndex)
        && Clashes(plan, player, c.monster, currentBase, currentSlot, c.baseId, c.slotIndex)
      then multiset(monsters)[c.monster] else 0
  {
    if monsters != [] {
      var n := |monsters| - 1;
      DuplicateConflictsCount(player, monsters[..n], plan, currentBase, currentSlot, c);
      PlanClashesOnce(monsters[n], player, plan, currentBase, currentSlot, c);
      assert monsters == monsters[..n] + [monsters[n]];
    }
  }

  /** A player who holds no slot besides the edited one gets no duplicate warning. */
  lemma NoOtherSlotNoDuplicates(player: Option<string>, monsters: seq<MonsterId>, plan: Plan, currentBase: int, currentSlot: int)
    requires forall b, i :: IsLocation(plan, b, i) && !(b == currentBase && i == currentSlot) ==> SlotAt(plan, b, i).player != player
    ensures DuplicateConflictsOf(player, monsters, plan, currentBase, currentSlot) == []
  {
    var r := DuplicateConflictsOf(player, monsters, plan, currentBase, currentSlot);
    if r != [] {
      DuplicateConflictsMembers(player, monsters, plan, currentBase, currentSlot, r[0]);
    }
  }

  /**
   * Moving a player's monsters out of slot A (clearing it) means a later
   * `checkConflicts` of that player never points at A.
   */
  lemma ClearedSlotNeverReported(
    plan: Plan, baseId: int, slotIndex: int, player: string, monsters: seq<MonsterId>, currentBase: int, currentSlot: int)
    requires IsLocation(plan, baseId, slotIndex)
    ensures var cleared := SetSlot(plan, baseId, slotIndex, EmptySlot);
      forall c :: c in DuplicateConflictsOf(Some(player), monsters, cleared, currentBase, currentSlot) ==>
        !(c.baseId == baseId && c.slotIndex == slotIndex)
  {
    var p := SetSlot(plan, baseId, slotIndex, EmptySlot);
    forall c | c in DuplicateConflictsOf(Some(player), monsters, p, currentBase, currentSlot)
      ensures !(c.baseId == baseId && c.slotIndex == slotIndex)
    {
      DuplicateConflictsMembers(Some(player), monsters, p, currentBase, currentSlot, c);
    }
  }
}
