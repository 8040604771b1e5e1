# Siege planner: a Dafny model of the plan, availability and conflict engine

The Siege planner assigns guild members and guests to defensive slots.
A plan has bases 1..12 with five slots each. A slot holds an optional
player name and a list of monster-type ids (`unit_master_id`). This
project models the planner's state engine in Dafny and proves what its
code promises:

- the browser client's availability calculator (`getAvailableMonsters`);
- its two read-only conflict detectors (the quantity check and `checkConflicts`);
- its slot-edit helpers, including how a typed monster id is parsed;
- the server's handlers: plan creation, slot update, import, roster,
  monster lookup, and adding and removing guests.

## Layout

| file | module | models |
|---|---|---|
| `wrappers.dfy` | `Wrappers` | `Option` (JSON `null`) and `Result` (error replies) |
| `js_text.dfy` | `JsText` | `trim()`, `parseInt` and the decimal text of a number |
| `siege_model.dfy` | `SiegeModel` | slots, the plan grid, the initial grid, slot writes, guest clean-up, the filled-slot count |
| `availability.dfy` | `Availability` | `getAvailableMonsters` and the `used` count it relies on |
| `conflicts.dfy` | `Conflicts` | the quantity check and `checkConflicts` |
| `slot_edits.dfy` | `SlotEdits` | `updateSlotPlayer` and `updateSlotMonster` |
| `roster.dfy` | `Roster` | members, guests, import clean-up, upsert, the roster list, the monster lookup |
| `server.dfy` | `Server` | class `SiegeServer`: the stored collections and one method per handler |
| `scenarios.dfy` | `Scenarios` | two walk-throughs that use the model as a client would |

Representation choices:

- A plan is `seq<seq<Slot>>`, with base `b` at index `b - 1`. The stored
  plan's keys are the numbers 1..12, and JavaScript enumerates such keys
  in ascending order. So "base `b` exists" is `1 <= b <= |plan|`.
- A monster position is an `int`. `null`, `0` and `NaN` all read as the
  empty position `Empty` (0), because the code tests positions for
  truthiness.
- `Slot.player` is `Option<string>`. The player picker can send the
  empty string, so `Some("")` is possible. A slot is *filled* when its
  player is truthy (`SiegeModel.IsFilled`).
- The client's global `currentPlan` becomes a parameter of the client
  operations. The server's three collections become fields of
  `SiegeServer`. The plan document is `Option<Plan>`, absent until
  `InitializeSiegePlan` runs.
- The loops that rebuild the plan (the initial grid, the guest clean-up)
  work on a copy of the plan, as the handler does on the document it
  fetched. The handler method then stores the result.
- The calculator and `checkConflicts` are nested loops in the source.
  Each loop level is its own method (`CountOwned`, `AddSlotUse`,
  `AddBaseUse`, `ScanBase`, `ScanPlan`), and each method is proved
  against a recursive specification function.

Behaviour of the code that a reader might not expect, and that the model
keeps:

- Import (Siege/server.js:95-118) upserts the member without checking
  the guest collection, so a member and a guest can share a name.
- Update-defense (Siege/server.js:121-147) checks that the base exists
  but does not range-check the slot index.
- Guests are not special in the availability calculator. The only
  special case is the lookup reply `{isGuest: true, monsters: []}`
  (Siege/server.js:155-158).
- `getAvailableMonsters` (Siege/app.js:37-61) creates table entries only
  for owned types. A type that is used but not owned gets no entry, so
  the quantity check (Siege/app.js:153-160) never reports it.
- Neither file has an operation that searches for the players who can
  field a given set of monsters.

## Model

| member | source | states |
|---|---|---|
| `SiegeModel.BuildInitialPlan` | Siege/server.js:47-50 | the grid built has exactly 12 bases, each exactly 5 slots equal to `{player: null, monsters: []}` |
| `Server.SiegeServer.InitializeSiegePlan` | Siege/server.js:43-58 | an existing plan is left as it is; with no plan, the stored plan becomes the 12 x 5 empty grid; the roster is unchanged |
| `SiegeModel.Write` | Siege/app.js:203-204 | writing index `i` of a JavaScript array: `r[i]` is the new value; every other index is unchanged; past the end the array grows to `i + 1` and the gap reads as the hole value |
| `SiegeModel.SetSlot` | Siege/server.js:132-136 | the `$set` on `plan.<base>.<slot>` makes that slot exactly the new `{player, monsters}`; every other base and every other slot is unchanged; the index is not range-checked, and an index past the end grows the base |
| `Server.SiegeServer.UpdateDefense` | Siege/server.js:121-147 | a missing plan or unknown base is rejected with "Base invalide" and nothing changes; a negative index is refused by the store; otherwise the plan becomes `SetSlot(...)`, which is also the reply; the roster is untouched |
| `SiegeModel.ClearedPlan` | Siege/server.js:228-234 | after clean-up, every slot of the guest is `{player: null, monsters: []}`, every other slot is unchanged, the shape is the same, and no slot names the guest |
| `SiegeModel.ClearGuestSlots` | Siege/server.js:228-234 | the in-place scan over all bases and slots produces exactly `ClearedPlan` |
| `Server.SiegeServer.RemoveGuest` | Siege/server.js:211-260 | an unknown guest is answered `GuestNotFound` (404) and nothing changes; otherwise the plan (if any) is cleaned of the guest, the guest is no longer in the guest list, the remaining guests are the reply, and members are untouched |
| `Roster.RemoveFirst` | Siege/server.js:244 | `deleteOne` drops one entry of the name and keeps every other name; with distinct names, the name is gone and names stay distinct |
| `Roster.FirstIndex` | Siege/server.js:244 | the entry `deleteOne` matches is the first guest entry of that name |
| `Roster.RemoveFirstKeepsOrder` | Siege/server.js:244-249 | the remaining guests, as listed in the reply, are the old list with exactly that first entry cut out, in the same order |
| `SiegeModel.FilledCount` | Siege/app.js:68 | the filled count is at most the number of slots; it is 0 exactly when no slot has a truthy player, and it is the full count exactly when every slot has one |
| `SiegeModel.FilledCountIsFilledPositions` | Siege/app.js:68 | the "n/5" figure is the number of slot positions whose player is truthy |
| `Availability.CountOwned` | Siege/app.js:40-45 | one key per owned type id; `owned` is the number of owned entries with that id; `used` starts at 0 |
| `Availability.AddSlotUse` | Siege/app.js:49-56 | a slot adds to `used` only when it is the player's; it adds the number of positions holding that real id; keys and `owned` are unchanged |
| `Availability.AddBaseUse` | Siege/app.js:49-57 | a base adds the use of each of its slots; keys and `owned` are unchanged |
| `Availability.GetAvailableMonsters` | Siege/app.js:37-61 | keys are exactly the owned type ids; `owned` is the multiplicity of the id in the owned list; `used` is `PlanUse`, its use over the whole plan; a used but unowned type has no key |
| `Availability.PlanUseIsMultiplicity` | Siege/app.js:48-58 | for a real id, `used` equals its number of occurrences among all monster positions of the player's slots, with repeats inside one slot counted |
| `Availability.EmptyNeverUsed` | Siege/app.js:52 | the empty id is never counted as used |
| `Availability.InitialPlanUsesNothing` | Siege/app.js:48-58 | in the initial grid no type is used by anyone |
| `Availability.PlanUseAfterSetSlot` | Siege/server.js:132-136 | after a write to an existing slot, a player's `used` changes by what the new slot commits to them minus what the old slot committed to them, so a player who is in neither slot keeps the same count |
| `Availability.Available` | Siege/app.js:123 | the "dispo" figure plus the used copies is the owned count; it is negative exactly when more copies are used than owned |
| `Availability.AvailableAfterAssign` | Siege/app.js:121-125 | assigning the player to a slot that was not theirs lowers the "dispo" figure (`owned - used`) of a type by its number of copies in that slot |
| `Availability.PlanUseAfterClear` | Siege/server.js:228-234 | after a guest is removed, the guest uses nothing and every other player's `used` is unchanged |
| `Conflicts.QuantityConflictsOf` | Siege/app.js:153-160 | each warning names a real id of the slot that has a table entry with `used > owned`, and carries those counts; there are at most as many warnings as positions; there are none exactly when no position is over-committed |
| `Conflicts.QuantityConflictsCount` | Siege/app.js:154-159 | one warning per over-committed position: a warning occurs exactly as often as its id occurs in the slot when it carries that id's over-committed table counts, and never otherwise |
| `Conflicts.WarnedIffNegativeDispo` | Siege/app.js:153-160 | for an owned type in the slot, the slot warns about it exactly when its "dispo" figure is negative |
| `Conflicts.QuantityConflicts` | Siege/app.js:153-160 | the loop collects exactly `QuantityConflictsOf`, one warning per over-committed position, in order |
| `Conflicts.ScanBase` | Siege/app.js:225-234 | the scan of one base yields exactly `BaseClashes` |
| `Conflicts.ScanPlan` | Siege/app.js:224-235 | the scan of all bases yields exactly `PlanClashes` |
| `Conflicts.CheckConflicts` | Siege/app.js:218-238 | the loop yields exactly `DuplicateConflictsOf`: for each real id, in order, each other slot that clashes |
| `Conflicts.BaseClashesMembers` | Siege/app.js:225-234 | a warning comes from one base exactly when its slot is not the edited one, belongs to the same player and holds the id |
| `Conflicts.PlanClashesMembers` | Siege/app.js:224-235 | a warning comes from the plan exactly when its location exists and `Clashes` holds there |
| `Conflicts.DuplicateConflictsMembers` | Siege/app.js:218-238 | `checkConflicts` reports (id, base, slot) exactly when the id is a real id of the edited slot and that other slot is the same player's and holds the id; it never reports the edited slot |
| `Conflicts.BaseClashesOnce` | Siege/app.js:225-234 | the scan of one base reports each slot at most once per monster |
| `Conflicts.PlanClashesOnce` | Siege/app.js:224-235 | the scan of the plan for one monster reports a slot once when it clashes and never otherwise |
| `Conflicts.DuplicateConflictsCount` | Siege/app.js:220-237 | a clashing slot is reported once per position of the edited slot that holds the id, so an id placed twice reports each clash twice; a slot that does not clash is never reported |
| `Conflicts.NoOtherSlotNoDuplicates` | Siege/app.js:218-238 | a player with no slot besides the edited one gets no duplicate warning |
| `Conflicts.ClearedSlotNeverReported` | Siege/app.js:227-231 | once a slot has been cleared, no later `checkConflicts` of a named player points at it |
| `SlotEdits.UpdateSlotPlayer` | Siege/app.js:191-199 | the request carries the chosen player and always an empty monster list |
| `SlotEdits.UpdateSlotMonster` | Siege/app.js:201-206 | the request keeps the slot's player; it changes only position `monsterIdx`, to the parsed id or the empty position; other positions keep their values, and a gap created past the end is empty |
| `SlotEdits.MonsterInput` | Siege/app.js:204 | an empty input and an input `parseInt` reads as NaN both give the empty position; otherwise the position gets the parsed integer |
| `SlotEdits.PickedIdRoundTrip` | Siege/app.js:204 | typing the text of any id (as offered by the monster list) stores that id |
| `JsText.ParseInt` | Siege/app.js:204 | NaN exactly when, after trimming, no number starts the text: blank text, or no digit after the sign, or no hexadecimal digit after `0x`; a number read after `-` is not positive, and any other is not negative |
| `JsText.ParseMagnitude` | Siege/app.js:204 | after the sign, a number is read exactly when a decimal digit comes first, or a hexadecimal digit follows a `0x`/`0X` prefix |
| `JsText.ParseIntOfIntText` | Siege/app.js:204 | `parseInt` reads back the decimal text of every integer, negative ones included |
| `JsText.DecimalTextValue` | Siege/app.js:125 | the decimal text of a number denotes that number |
| `JsText.TrimStart` | Siege/server.js:176 | only leading whitespace is removed; what remains is a suffix that is empty or starts with a non-whitespace character |
| `JsText.IsBlank` | Siege/server.js:176 | a name is blank exactly when every character is ECMAScript whitespace (the empty name included) |
| `JsText.DigitRun` | Siege/app.js:204 | `parseInt` reads the longest prefix of digits: every character in it is a digit, and the next one (if any) is not |
| `Roster.HttpStatus` | Siege/server.js:127-219 | an unknown guest gets 404, a store failure 500, and every refused request (invalid base, blank name, existing guest, existing member) 400 |
| `Roster.Message` | Siege/server.js:127-219 | every error reply carries a non-empty `error` text, and "Erreur serveur" exactly for a store failure |
| `Roster.MessageIdentifiesError` | Siege/server.js:127-219 | no two errors share an `error` text, so the text tells which refusal occurred |
| `Server.SiegeServer.AddGuest` | Siege/server.js:172-209 | a blank name is refused; then an existing guest name is refused; then an existing member name is refused; nothing changes on refusal; on success the guest list grows by exactly that name and is the reply |
| `Roster.CleanList` | Siege/server.js:100-103 | the cleaned list has the same length and order, and each entry keeps only its `unit_master_id` |
| `Roster.MemberIndex` | Siege/server.js:162 | the lookup finds the first member of that name, or nothing exactly when no member has it |
| `Roster.MemberIndexAfterReplace` | Siege/server.js:106-110 | rewriting a member in place under the same name leaves every lookup unchanged |
| `Roster.MemberIndexAfterAppend` | Siege/server.js:106-110 | appending a member leaves the lookups of all other names unchanged |
| `Roster.Upsert` | Siege/server.js:106-110 | afterwards the name finds a member holding exactly the new list; a new member is appended only when none had the name; other members and lookups are unchanged; distinct names stay distinct |
| `Server.SiegeServer.Import` | Siege/server.js:95-118 | the members become the upsert of the cleaned list; guests and plan are untouched |
| `Roster.RosterOf` | Siege/server.js:74-77 | the roster lists the members tagged `isGuest: false`, then the guests tagged `isGuest: true`, in order; its length is members + guests |
| `Roster.RosterEntriesAreKnown` | Siege/server.js:74-77 | every roster entry tagged as a guest is a guest, and every other entry is a member |
| `Server.SiegeServer.GetState` | Siege/server.js:63-92 | the reply holds the plan (empty when there is none), the roster and the guest names |
| `Roster.LookupMonsters` | Siege/server.js:155-164 | guests are checked first and get the guest marker exactly when the name is a guest's; otherwise the reply is the member's stored list, or the empty list for an unknown name |
| `Server.SiegeServer.PlayerMonsters` | Siege/server.js:150-169 | the handler replies `LookupMonsters` of the current collections |

## Left out

- Network and storage plumbing are left out: the `fetch` calls, `loadState`, `sendUpdate`, and `loadPlayerMonsters` with its per-name cache that is never invalidated. So are the Express routes, the MongoDB connection and server start-up. Storage is modelled as plain fields.
- Rendering is left out: the base menu, `selectBase`, the HTML of `renderBaseDetails`, and `importJson`'s file reading and JSON parsing. The per-slot checks inside `renderBaseDetails` are modelled as the operations they call.
- Siege/config/database.js is not part of this model: it only holds connection and signal handling.
- Siege/models/Player.js and Siege/models/SiegePlan.js are not part of this model: they are declarative schemas. Their `getCurrentPlan` builds the same 12 x 5 grid as `BuildInitialPlan`.
- `getMonsterName` reads a catalogue outside these files. Warnings therefore carry monster ids and counts, not display names or the French message text.
- Concurrency and the atomicity of database updates are left out. Every handler runs as one sequential step.
- Storage failures are left out, except that a negative slot index is refused by the store (`StoreRejected`). Other failures would surface as the generic 500 reply.
- The guest marker is not passed through the calculator. `/api/player-monsters` answers a guest with an object, while `getAvailableMonsters` calls `forEach` on its argument, which needs a list. The model's calculator takes the owned list only, so it does not model the client rendering a guest's slot.
- SiegeModel.SetSlot: when the index is past the end of the base, the store fills the gap with `null` entries, not with empty slots. The model uses empty slots there, and so does not capture what the code does next with such a plan. In the code, reading `slot.player` on a `null` entry throws. As a result, remove-guest (Siege/server.js:229-230) answers 500 and neither saves the plan nor deletes the guest. `getAvailableMonsters` (Siege/app.js:49-50), `checkConflicts` (Siege/app.js:225-231) and the filled count (Siege/app.js:68) throw on such a base as well. In the model, `RemoveGuest` cleans the plan and deletes the guest, and the client operations treat the gap as empty slots.
- JsText.ParseInt: JavaScript numbers are doubles, so a very long digit string loses precision. The model returns the exact integer.
- Request fields of the wrong JSON type are not modelled: a base or slot index that is not an integer, a `monsterList` that is not an array, or a missing `guestName`. A missing `guestName` is treated as the empty string, which gets the same reply.
- Unlimited guest capacity and candidate ranking are not modelled, because no code in these files implements either.

## Walk-throughs

`Scenarios.OverCommittedCopies` follows Alice, who owns `[101, 101, 202]`.
Putting `[101, 101]` in slot (1, 0) gives `used = owned = 2` and no
warning. Adding `[101]` in slot (1, 1) gives the quantity warning
`(101, used 3, owned 2)`, and `checkConflicts` points at slot (1, 0).

`Scenarios.GuestRemoval` adds guest Bob, places him in slot (2, 0) and
removes him. The slot is then `{player: null, monsters: []}`.
