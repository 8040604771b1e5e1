/**
 * The server's roster: guild members (imported with their monster list)
 * and guests (names only), and the pure parts of the request handlers
 * that read or rebuild them.
 */
module Roster {
  import opened Wrappers
  import opened SiegeModel

  /** One entry of an uploaded export: its `unit_master_id` and every other field, which import drops. */
  datatype ExportedUnit = ExportedUnit(unitMasterId: MonsterId, otherFields: map<string, string>)

  /** A document of the guild-player collection. */
  datatype Member = Member(playerName: string, monsters: seq<Unit>)

  /** An entry of the `players` list of `/api/state`. */
  datatype RosterEntry = RosterEntry(name: string, isGuest: bool)

  /** The reply of `/api/player-monsters`: the guest marker `{ isGuest: true, monsters: [] }`, or a stored list. */
  datatype MonstersReply = GuestMarker | OwnedList(units: seq<Unit>)

  /** The error replies of the handlers. */
  datatype ApiError = InvalidBase | EmptyGuestName | GuestExists | MemberExists | GuestNotFound | StoreRejected

  /** The status of an error reply: 404 for an unknown guest, 500 when the store fails, 400 for a refused request. */
  function HttpStatus(e: ApiError): (status: nat)
    ensures status == 404 <==> e == GuestNotFound
    ensures status == 500 <==> e == StoreRejected
    ensures status == 400 <==> e in {InvalidBase, EmptyGuestName, GuestExists, MemberExists}
  {
    match e
    case GuestNotFound => 404
    case StoreRejected => 500
    case _ => 400
  }

  /** The `error` text of an error reply; each error has its own text. */
  function Message(e: ApiError): (text: string)
    ensures text != []
    ensures HttpStatus(e) == 500 <==> text == "Erreur serveur"
  {
    match e
    case InvalidBase => "Base invalide"
    case EmptyGuestName => "Le nom du guest ne peut pas être vide"
    case GuestExists => "Ce guest existe déjà"
    case MemberExists => "Un joueur avec ce nom existe déjà"
    case GuestNotFound => "Guest non trouvé"
    case StoreRejected => "Erreur serveur"
  }

  /** A client reading the `error` text of a reply can tell which refusal it got. */
  lemma MessageIdentifiesError(e1: ApiError, e2: ApiError)
    ensures Message(e1) == Message(e2) ==> e1 == e2
  {
  }

  /** `cleanList`: the same entries in the same order, each cut down to its `unit_master_id`. */
  function CleanList(monsterList: seq<ExportedUnit>): (r: seq<Unit>)
    ensures |r| == |monsterList|
    ensures forall k :: 0 <= k < |r| ==> r[k] == Unit(monsterList[k].unitMasterId)
  {
    if monsterList == [] then []
    else CleanList(monsterList[..|monsterList| - 1]) + [Unit(monsterList[|monsterList| - 1].unitMasterId)]
  }

  function Names(members: seq<Member>): seq<string> {
    seq(|members|, k requires 0 <= k < |members| => members[k].playerName)
  }

  predicate DistinctNames(members: seq<Member>) {
    forall i, j :: 0 <= i < j < |members| ==> members[i].playerName != members[j].playerName
  }

  predicate Distinct(names: seq<string>) {
    forall i, j :: 0 <= i < j < |names| ==> names[i] != names[j]
  }

  /** The position `findOne({ playerName: name })` finds: the first member of that name. */
  function MemberIndex(members: seq<Member>, name: string): (r: Option<nat>)
    ensures r.Some? ==> r.value < |members| && members[r.value].playerName == name
    ensures r.Some? ==> forall j :: 0 <= j < r.value ==> members[j].playerName != name
    ensures r.None? <==> forall j :: 0 <= j < |members| ==> members[j].playerName != name
  {
    if members == [] then None
    else if members[0].playerName == name then Some(0)
    else match MemberIndex(members[1..], name)
      case None => None
      case Some(k) => Some(k + 1)
  }

  /** Putting a record with the same name at a position leaves every lookup where it was. */
  lemma {:induction false} MemberIndexAfterReplace(members: seq<Member>, k: nat, m: Member, x: string)
    requires k < |members| && m.playerName == members[k].playerName
    ensures MemberIndex(members[k := m], x) == MemberIndex(members, x)
  {
    if members != [] && members[0].playerName != x && k > 0 {
      assert members[k := m][1..] == members[1..][k - 1 := m];
      MemberIndexAfterReplace(members[1..], k - 1, m, x);
    }
  }

  /** Appending a record leaves the lookups of every other name where they were. */
  lemma {:induction false} MemberIndexAfterAppend(members: seq<Member>, m: Member, x: string)
    requires x != m.playerName
    ensures MemberIndex(members + [m], x) == MemberIndex(members, x)
  {
    if members != [] && members[0].playerName != x {
      assert (members + [m])[1..] == members[1..] + [m];
      MemberIndexAfterAppend(members[1..], m, x);
    }
  }

  /**
   * `updateOne({ playerName }, { $set: { playerName, monsters } }, { upsert: true })`:
   * the member of that name gets the new list wholesale, or a new member
   * is appended; every other member and every other lookup is unchanged.
   */
  function Upsert(members: seq<Member>, name: string, units: seq<Unit>): (r: seq<Member>)
    ensures MemberIndex(r, name).Some? && r[MemberIndex(r, name).value] == Member(name, units)
    ensures |r| == |members| + (if MemberIndex(members, name).None? then 1 else 0)
    ensures forall k :: 0 <= k < |members| && members[k].playerName != name ==> r[k] == members[k]
    ensures forall x :: x != name ==> MemberIndex(r, x) == MemberIndex(members, x)
    ensures DistinctNames(members) ==> DistinctNames(r)
  {
    var m := Member(name, units);
    match MemberIndex(members, name)
    case Some(k) =>
      assert forall x :: MemberIndex(members[k := m], x) == MemberIndex(members, x) by {
        forall x { MemberIndexAfterReplace(members, k, m, x); }
      }
      members[k := m]
    case None =>
      assert forall x :: x != name ==> MemberIndex(members + [m], x) == MemberIndex(members, x) by {
        forall x | x != name { MemberIndexAfterAppend(members, m, x); }
      }
      assert (members + [m])[|members|] == m;
      assert MemberIndex(members + [m], name) == Some(|members|) by {
        var i := MemberIndex(members + [m], name);
        assert i.Some?;
      }
      members + [m]
  }

  /** The `players` list of `/api/state`: members tagged `isGuest: false`, then guests tagged `isGuest: true`, in order. */
  function RosterOf(memberNames: seq<string>, guests: seq<string>): (r: seq<RosterEntry>)
    ensures |r| == |memberNames| + |guests|
    ensures forall k :: 0 <= k < |memberNames| ==> r[k] == RosterEntry(memberNames[k], false)
    ensures forall k :: 0 <= k < |guests| ==> r[|memberNames| + k] == RosterEntry(guests[k], true)
  {
    if guests == [] then
      if memberNames == [] then []
      else RosterOf(memberNames[..|memberNames| - 1], []) + [RosterEntry(memberNames[|memberNames| - 1], false)]
    else RosterOf(memberNames, guests[..|guests| - 1]) + [RosterEntry(guests[|guests| - 1], true)]
  }

  /** Every roster entry names a member or a guest, tagged as such. */
  lemma RosterEntriesAreKnown(members: seq<Member>, guests: seq<string>, e: RosterEntry)
    requires e in RosterOf(Names(members), guests)
    ensures e.isGuest ==> e.name in guests
    ensures !e.isGuest ==> e.name in Names(members)
  {
    var r := RosterOf(Names(members), guests);
    var k :| 0 <= k < |r| && r[k] == e;
    if k >= |members| {
      assert r[|members| + (k - |members|)] == e;
    }
  }

  /**
   * `/api/player-monsters/:playerName`: guests are looked up first and
   * answered with the marker; otherwise the member's stored list, or
   * the empty list for an unknown name.
   */
  function LookupMonsters(members: seq<Member>, guests: seq<string>, name: string): (r: MonstersReply)
    ensures r == GuestMarker <==> name in guests
    ensures name !in guests && MemberIndex(members, name).Some? ==> r == OwnedList(members[MemberIndex(members, name).value].monsters)
    ensures name !in guests && (forall m :: m in members ==> m.playerName != name) ==> r == OwnedList([])
  {
    if name in guests then GuestMarker
    else match MemberIndex(members, name)
      case Some(k) => OwnedList(members[k].monsters)
      case None => OwnedList([])
  }

  /** `deleteOne({ guestName: name })`: the first guest of that name goes, the others stay in order. */
  function RemoveFirst(guests: seq<string>, name: string): (r: seq<string>)
    ensures name in guests ==> |r| == |guests| - 1
    ensures name !in guests ==> r == guests
    ensures forall x :: x != name ==> (x in r <==> x in guests)
    ensures Distinct(guests) ==> name !in r && Distinct(r)
  {
    if guests == [] then []
    else if guests[0] == name then guests[1..]
    else
      var rest := RemoveFirst(guests[1..], name);
      assert Distinct(guests) ==> Distinct(guests[1..]) && guests[0] !in guests[1..];
      [guests[0]] + rest
  }

  /** The position of the first guest entry of `name`. */
  function FirstIndex(guests: seq<string>, name: string): (i: nat)
    requires name in guests
    ensures i < |guests| && guests[i] == name && name !in guests[..i]
  {
    if guests[0] == name then 0
    else
      var j := FirstIndex(guests[1..], name);
      assert guests[..j + 1] == [guests[0]] + guests[1..][..j];
      j + 1
  }

  /** The guest list left behind is the old one with its first entry of the name cut out, order kept. */
  lemma {:induction false} RemoveFirstKeepsOrder(guests: seq<string>, name: string)
    requires name in guests
    ensures var i := FirstIndex(guests, name);
      RemoveFirst(guests, name) == guests[..i] + guests[i + 1..]
  {
    if guests[0] != name {
      var tail := guests[1..];
      var j := FirstIndex(tail, name);
      RemoveFirstKeepsOrder(tail, name);
      assert guests[..j + 1] == [guests[0]] + tail[..j];
      assert guests[j + 2..] == tail[j + 1..];
    }
  }

}
