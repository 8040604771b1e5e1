/**
 * The planner's server: the three stored collections as fields and one
 * method per request handler. Storage is in memory; each handler reads
 * and writes the fields the way it reads and writes its documents.
 */
module Server {
  import opened Wrappers
  import opened JsText
  import opened SiegeModel
  import opened Roster

  /** The body of a `/api/state` reply. */
  datatype StateReply = StateReply(plan: Plan, players: seq<RosterEntry>, guests: seq<string>)

  class SiegeServer {
    /** The guild-player collection, in insertion order. */
    var members: seq<Member>
    /** The guest collection (guest names), in insertion order. */
    var guests: seq<string>
    /** The plan document `current`, absent until initialised. */
    var planDoc: Option<Plan>

    /** Lookups by name find at most one document: names are unique within each collection. */
    ghost predicate Valid()
      reads this
    {
      DistinctNames(members) && Distinct(guests)
    }

    constructor ()
      ensures Valid()
      ensures members == [] && guests == [] && planDoc == None
    {
      members := [];
      guests := [];
      planDoc := None;
    }

    /** `initializeSiegePlan`: creates the 12 x 5 empty grid, only when no plan document exists. */
    method InitializeSiegePlan()
      requires Valid()
      modifies this
      ensures Valid()
      ensures members == old(members) && guests == old(guests)
      ensures old(planDoc).Some? ==> planDoc == old(planDoc)
      ensures old(planDoc).None? ==> planDoc.Some? && IsInitialPlan(planDoc.value)
    {
      if planDoc.None? {
        var initialPlan := BuildInitialPlan();
        planDoc := Some(initialPlan);
      }
    }

    /** `GET /api/state`: the plan (`{}` when there is none) and the roster. */
    method GetState() returns (reply: StateReply)
      ensures reply.plan == if planDoc.Some? then planDoc.value else []
      ensures reply.players == RosterOf(Names(members), guests)
      ensures reply.guests == guests
    {
      var plan := if planDoc.Some? then planDoc.value else [];
      reply := StateReply(plan, RosterOf(Names(members), guests), guests);
    }

    /** `POST /api/import`: stores the cleaned list under `playerName`, replacing or creating that member. */
    method Import(playerName: string, monsterList: seq<ExportedUnit>)
      requires Valid()
      modifies this
      ensures Valid()
      ensures members == Upsert(old(members), playerName, CleanList(monsterList))
      ensures guests == old(guests) && planDoc == old(planDoc)
    {
      var cleanList := CleanList(monsterList);
      members := Upsert(members, playerName, cleanList);
    }

    /**
     * `POST /api/update-defense`: rejects a missing plan or base with
     * "Base invalide"; otherwise replaces the whole slot and replies with
     * the new plan. A negative index is refused by the store.
     */
    method UpdateDefense(baseId: int, slotIndex: int, player: Option<string>, monsters: seq<MonsterId>)
      returns (r: Result<Plan, ApiError>)
      requires Valid()
      modifies this
      ensures Valid()
      ensures members == old(members) && guests == old(guests)
      ensures old(planDoc).None? || !IsBase(old(planDoc).value, baseId) ==> r == Failure(InvalidBase) && planDoc == old(planDoc)
      ensures old(planDoc).Some? && IsBase(old(planDoc).value, baseId) && slotIndex < 0 ==>
        r == Failure(StoreRejected) && planDoc == old(planDoc)
      ensures old(planDoc).Some? && IsBase(old(planDoc).value, baseId) && slotIndex >= 0 ==>
        var updated := SetSlot(old(planDoc).value, baseId, slotIndex, Slot(player, monsters));
        planDoc == Some(updated) && r == Success(updated)
    {
      if planDoc.None? || !IsBase(planDoc.value, baseId) {
        return Failure(InvalidBase);
      }
      if slotIndex < 0 {
        return Failure(StoreRejected);
      }
      var updated := SetSlot(planDoc.value, baseId, slotIndex, Slot(player, monsters));
      planDoc := Some(updated);
      r := Success(updated);
    }

    /** `GET /api/player-monsters/:playerName`. */
    method PlayerMonsters(playerName: string) returns (reply: MonstersReply)
      ensures reply == LookupMonsters(members, guests, playerName)
    {
      reply := LookupMonsters(members, guests, playerName);
    }

    /**
     * `POST /api/add-guest`: refuses a blank name, a name already used by
     * a guest and a name already used by a member, in that order; on
     * success the guest list grows by exactly that name and is returned.
     */
    method AddGuest(guestName: string) returns (r: Result<seq<string>, ApiError>)
      requires Valid()
      modifies this
      ensures Valid()
      ensures members == old(members) && planDoc == old(planDoc)
      ensures IsBlank(guestName) ==> r == Failure(EmptyGuestName) && guests == old(guests)
      ensures !IsBlank(guestName) && guestName in old(guests) ==> r == Failure(GuestExists) && guests == old(guests)
      ensures !IsBlank(guestName) && guestName !in old(guests) && guestName in Names(old(members)) ==>
        r == Failure(MemberExists) && guests == old(guests)
      ensures !IsBlank(guestName) && guestName !in old(guests) && guestName !in Names(old(members)) ==>
        guests == old(guests) + [guestName] && r == Success(guests)
    {
      if IsBlank(guestName) {
        return Failure(EmptyGuestName);
      }
      if guestName in guests {
        return Failure(GuestExists);
      }
      if MemberIndex(members, guestName).Some? {
        assert Names(members)[MemberIndex(members, guestName).value] == guestName;
        return Failure(MemberExists);
      }
      assert guestName !in Names(members);
      guests := guests + [guestName];
      r := Success(guests);
    }

    /**
     * `DELETE /api/remove-guest/:guestName`: an unknown guest is answered
     * 404 and nothing changes; otherwise every slot of the guest is reset,
     * then the guest is deleted and the remaining guests are returned.
     */
    method RemoveGuest(guestName: string) returns (r: Result<seq<string>, ApiError>)
      requires Valid()
      modifies this
      ensures Valid()
      ensures members == old(members)
      ensures guestName !in old(guests) ==> r == Failure(GuestNotFound) && guests == old(guests) && planDoc == old(planDoc)
      ensures guestName in old(guests) ==>
        && planDoc == (if old(planDoc).Some? then Some(ClearedPlan(old(planDoc).value, guestName)) else None)
        && guests == RemoveFirst(old(guests), guestName)
        && guestName !in guests
        && r == Success(guests)
    {
      if guestName !in guests {
        return Failure(GuestNotFound);
      }
      if planDoc.Some? {
        var plan := ClearGuestSlots(planDoc.value, guestName);
        planDoc := Some(plan);
      }
      guests := RemoveFirst(guests, guestName);
      r := Success(guests);
    }
  }
}
