/**
 * Two walk-throughs of the planner, written as client code of the model:
 * copies of one type committed beyond what a member owns, and a guest
 * whose slot is cleaned up when the guest is removed.
 */
module Scenarios {
  import opened Wrappers
  import opened JsText
  import opened SiegeModel
  import opened Availability
  import opened Conflicts
  import opened Roster
  import opened Server

  /** Alice owns two copies of 101 and one of 202; a third use of 101 is flagged. */
  method OverCommittedCopies() {
    var alice := [Unit(101), Unit(101), Unit(202)];
    assert Ids(alice) == [101, 101, 202];
    var plan := BuildInitialPlan();
    InitialPlanUsesNothing(plan, "Alice", 101);

    var first := Slot(Some("Alice"), [101, 101]);
    var p1 := SetSlot(plan, 1, 0, first);
    PlanUseAfterSetSlot(plan, 1, 0, first, "Alice", 101);
    var t1 := GetAvailableMonsters("Alice", alice, p1);
    assert 101 in t1 by { assert alice[0] in alice; }
    assert t1[101] == Counts(2, 2);
    var q1 := QuantityConflicts(first.monsters, t1);
    assert q1 == [];

    var second := Slot(Some("Alice"), [101]);
    var p2 := SetSlot(p1, 1, 1, second);
    PlanUseAfterSetSlot(p1, 1, 1, second, "Alice", 101);
    var t2 := GetAvailableMonsters("Alice", alice, p2);
    assert 101 in t2 by { assert alice[0] in alice; }
    assert t2[101] == Counts(2, 3);
    var q2 := QuantityConflicts(second.monsters, t2);
    assert q2 == [QuantityConflict(101, 3, 2)];
    var d2 := CheckConflicts(Some("Alice"), second.monsters, p2, 1, 1);
    DuplicateConflictsMembers(Some("Alice"), second.monsters, p2, 1, 1, DuplicateConflict(101, 1, 0));
    assert DuplicateConflict(101, 1, 0) in d2;
  }

  /** Bob is added as a guest, placed in base 2, then removed: his slot is empty again. */
  method GuestRemoval() {
    var server := new SiegeServer();
    server.InitializeSiegePlan();
    ghost var initial := server.planDoc.value;
    assert IsBase(initial, 2) && IsLocation(initial, 2, 0);

    assert !IsBlank("Bob") by { assert "Bob"[0] == 'B' && !IsJsWhitespace('B'); }
    assert Names(server.members) == [] && server.guests == [];
    var added := server.AddGuest("Bob");
    assert server.guests == ["Bob"] && added == Success(["Bob"]);

    var updated := server.UpdateDefense(2, 0, Some("Bob"), [303]);
    ghost var placed := server.planDoc.value;
    assert placed == SetSlot(initial, 2, 0, Slot(Some("Bob"), [303]));
    assert IsLocation(placed, 2, 0) && SlotAt(placed, 2, 0) == Slot(Some("Bob"), [303]);

    var removed := server.RemoveGuest("Bob");
    assert server.planDoc.value == ClearedPlan(placed, "Bob");
    assert removed == Success([]);
    assert SlotAt(server.planDoc.value, 2, 0) == EmptySlot;
  }
}
