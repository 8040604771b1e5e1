/**
 * The siege plan shared by the server and the browser client: bases
 * numbered 1..12, each an ordered row of slots; a slot holds an optional
 * player name and the monster-type ids picked for it.
 *
 * A plan is stored as a sequence of bases, base `b` at index `b - 1`
 * (the document's keys are the numbers 1..12 and JavaScript enumerates
 * such keys in ascending order).
 */
module SiegeModel {
  import opened Wrappers

  /** Bases in a fresh plan. */
  const NumBases: nat := 12
  /** Slots per base in a fresh plan. */
  const SlotsPerBase: nat := 5

  /** A monster-type id (`unit_master_id`). */
  type MonsterId = int

  /** A monster position holding `null` (or 0, which JavaScript treats alike): no monster picked. */
  const Empty: MonsterId := 0

  /** One owned copy of a monster, as stored for a guild member: only its type id is kept. */
  datatype Unit = Unit(unitMasterId: MonsterId)

  datatype Slot = Slot(player: Option<string>, monsters: seq<MonsterId>)

  /** `{ player: null, monsters: [] }` */
  const EmptySlot: Slot := Slot(None, [])

  type Plan = seq<seq<Slot>>

  /** `plan[baseId]` is defined. */
  predicate IsBase(plan: Plan, baseId: int) {
    1 <= baseId <= |plan|
  }

  predicate IsLocation(plan: Plan, baseId: int, slotIndex: int) {
    IsBase(plan, baseId) && 0 <= slotIndex < |plan[baseId - 1]|
  }

  function SlotAt(plan: Plan, baseId: int, slotIndex: int): Slot
    requires IsLocation(plan, baseId, slotIndex)
  {
    plan[baseId - 1][slotIndex]
  }

  /** A slot whose `player` is truthy: present and not the empty string. */
  predicate IsFilled(s: Slot) {
    s.player.Some? && s.player.value != ""
  }

  predicate IsEmptyBase(slots: seq<Slot>) {
    |slots| == SlotsPerBase && forall i :: 0 <= i < |slots| ==> slots[i] == EmptySlot
  }

  /** Bases 1..12, each with five empty slots. */
  predicate IsInitialPlan(plan: Plan) {
    |plan| == NumBases && forall b :: 0 <= b < |plan| ==> IsEmptyBase(plan[b])
  }

  /** The grid `initializeSiegePlan` builds, one base per loop turn. */
  method BuildInitialPlan() returns (plan: Plan)
    ensures IsInitialPlan(plan)
  {
    plan := [];
    for i := 1 to NumBases + 1
      invariant |plan| == i - 1
      invariant forall b :: 0 <= b < |plan| ==> IsEmptyBase(plan[b])
    {
      plan := plan + [seq(SlotsPerBase, _ => EmptySlot)];
    }
  }

  /**
   * `xs[i] = x` on a JavaScript array: an index past the end grows the
   * array, and the holes left in between read back as `hole`.
   */
  function Write<T>(xs: seq<T>, i: nat, x: T, hole: T): (r: seq<T>)
    ensures |r| == if i < |xs| then |xs| else i + 1
    ensures r[i] == x
    ensures forall k :: 0 <= k < |r| && k != i ==> r[k] == if k < |xs| then xs[k] else hole
  {
    if i < |xs| then xs[i := x] else xs + seq(i - |xs|, _ => hole) + [x]
  }

  /**
   * The `$set` of path `plan.<baseId>.<slotIndex>`: the slot is replaced
   * as a whole and nothing else changes. The index is not range-checked;
   * past the end the base grows, the gap holding empty slots.
   */
  function SetSlot(plan: Plan, baseId: int, slotIndex: nat, s: Slot): (r: Plan)
    requires IsBase(plan, baseId)
    ensures |r| == |plan|
    ensures forall b :: 0 <= b < |plan| && b != baseId - 1 ==> r[b] == plan[b]
    ensures IsLocation(r, baseId, slotIndex) && SlotAt(r, baseId, slotIndex) == s
    ensures |r[baseId - 1]| == if slotIndex < |plan[baseId - 1]| then |plan[baseId - 1]| else slotIndex + 1
    ensures forall i :: IsLocation(plan, baseId, i) && i != slotIndex ==> SlotAt(r, baseId, i) == SlotAt(plan, baseId, i)
    ensures forall i :: IsLocation(r, baseId, i) && !IsLocation(plan, baseId, i) && i != slotIndex ==> SlotAt(r, baseId, i) == EmptySlot
  {
    plan[baseId - 1 := Write(plan[baseId - 1], slotIndex, s, EmptySlot)]
  }

  /** A slot after `name`'s assignments are cleaned up. */
  function ClearedSlot(s: Slot, name: string): Slot {
    if s.player == Some(name) then EmptySlot else s
  }

  /** The plan once every slot assigned to `name` is reset to `{player: null, monsters: []}`. */
  function ClearedPlan(plan: Plan, name: string): (r: Plan)
    ensures |r| == |plan|
    ensures forall b :: 0 <= b < |plan| ==> |r[b]| == |plan[b]|
    ensures forall b, i :: 0 <= b < |plan| && 0 <= i < |plan[b]| && plan[b][i].player == Some(name) ==> r[b][i] == EmptySlot
    ensures forall b, i :: 0 <= b < |plan| && 0 <= i < |plan[b]| && plan[b][i].player != Some(name) ==> r[b][i] == plan[b][i]
    ensures forall b, i :: 0 <= b < |r| && 0 <= i < |r[b]| ==> r[b][i].player != Some(name)
  {
    seq(|plan|, b requires 0 <= b < |plan| =>
      seq(|plan[b]|, i requires 0 <= i < |plan[b]| => ClearedSlot(plan[b][i], name)))
  }

  /** The remove-guest scan: overwrite, in place, every slot of `name`. */
  method ClearGuestSlots(plan: Plan, name: string) returns (r: Plan)
    ensures r == ClearedPlan(plan, name)
  {
    r := plan;
    for b := 0 to |r|
      invariant |r| == |plan|
      invariant forall k :: 0 <= k < b ==> r[k] == ClearedPlan(plan, name)[k]
      invariant forall k :: b <= k < |plan| ==> r[k] == plan[k]
    {
      for i := 0 to |r[b]|
        invariant |r| == |plan| && |r[b]| == |plan[b]|
        invariant forall k :: 0 <= k < b ==> r[k] == ClearedPlan(plan, name)[k]
        invariant forall k :: b < k < |plan| ==> r[k] == plan[k]
        invariant forall j :: 0 <= j < i ==> r[b][j] == ClearedSlot(plan[b][j], name)
        invariant forall j :: i <= j < |plan[b]| ==> r[b][j] == plan[b][j]
      {
        if r[b][i].player == Some(name) {
          r := r[b := r[b][i := EmptySlot]];
        }
      }
    }
  }

  /** `slots.filter(s => s.player).length`: the "n/5" shown on a base's button. */
  function FilledCount(slots: seq<Slot>): (n: nat)
    ensures n <= |slots|
    ensures n == 0 <==> forall i :: 0 <= i < |slots| ==> !IsFilled(slots[i])
    ensures n == |slots| <==> forall i :: 0 <= i < |slots| ==> IsFilled(slots[i])
  {
    if slots == [] then 0
    else FilledCount(slots[..|slots| - 1]) + (if IsFilled(slots[|slots| - 1]) then 1 else 0)
  }

  /** The count shown is the number of slot positions whose player is truthy. */
  lemma {:induction false} FilledCountIsFilledPositions(slots: seq<Slot>)
    ensures FilledCount(slots) == |set i | 0 <= i < |slots| && IsFilled(slots[i])|
  {
    if slots != [] {
      var n := |slots| - 1;
      var prefix := slots[..n];
      FilledCountIsFilledPositions(prefix);
      var before := set i | 0 <= i < |prefix| && IsFilled(prefix[i]);
      var all := set i | 0 <= i < |slots| && IsFilled(slots[i]);
      if IsFilled(slots[n]) {
        assert all == before + {n};
      } else {
        assert all == before;
      }
    }
  }
}
