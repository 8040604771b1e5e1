/**
 * The client's slot-edit helpers: each builds the body of an
 * `/api/update-defense` request, which always carries the whole slot.
 */
module SlotEdits {
  import opened Wrappers
  import opened JsText
  import opened SiegeModel

  /** `{ baseId, slotIndex, player, monsters }` as posted to the server. */
  datatype UpdateRequest = UpdateRequest(baseId: int, slotIndex: int, player: Option<string>, monsters: seq<MonsterId>)

  /**
   * `updateSlotPlayer`: the value of the player picker (the empty string
   * for "-- Choisir un joueur --") with the monsters reset.
   */
  function UpdateSlotPlayer(baseId: int, slotIndex: int, player: string): (req: UpdateRequest)
    ensures req.baseId == baseId && req.slotIndex == slotIndex
    ensures req.player == Some(player)
    ensures req.monsters == []
  {
    UpdateRequest(baseId, slotIndex, Some(player), [])
  }

  /**
   * The id a monster input stands for: `value ? parseInt(value) : null`,
   * where `null` and NaN (sent as `null`) both mean an empty position.
   */
  function MonsterInput(value: string): (id: MonsterId)
    ensures value == "" ==> id == Empty
    ensures ParseInt(value) == None ==> id == Empty
    ensures ParseInt(value).Some? ==> id == ParseInt(value).value
  {
    if value == "" then Empty
    else match ParseInt(value)
      case None => Empty
      case Some(n) => n
  }

  /** Picking an id from the monster list (whose option values are `${id}`) yields that id. */
  lemma PickedIdRoundTrip(id: MonsterId)
    ensures MonsterInput(IntText(id)) == id
  {
    ParseIntOfIntText(id);
    assert IntText(id) != "" by {
      if id < 0 { assert |IntText(id)| == 1 + |DecimalText(-id)|; }
    }
  }

  /**
   * `updateSlotMonster`: the slot's current player is kept and only
   * position `monsterIdx` of a copy of its monsters changes; writing past
   * the end grows the list, the gap holding empty positions.
   */
  function UpdateSlotMonster(plan: Plan, baseId: int, slotIndex: int, monsterIdx: nat, value: string): (req: UpdateRequest)
    requires IsLocation(plan, baseId, slotIndex)
    ensures req.baseId == baseId && req.slotIndex == slotIndex
    ensures req.player == SlotAt(plan, baseId, slotIndex).player
    ensures var before := SlotAt(plan, baseId, slotIndex).monsters;
      && |req.monsters| == (if monsterIdx < |before| then |before| else monsterIdx + 1)
      && req.monsters[monsterIdx] == MonsterInput(value)
      && forall k :: 0 <= k < |req.monsters| && k != monsterIdx ==> req.monsters[k] == if k < |before| then before[k] else Empty
  {
    var slot := SlotAt(plan, baseId, slotIndex);
    UpdateRequest(baseId, slotIndex, slot.player, Write(slot.monsters, monsterIdx, MonsterInput(value), Empty))
  }
}
