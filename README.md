# Smart parking widget: reservation store, snapshot parser and state reconciler

This project models the core of the browser widget in `script.js` and proves properties about it. The widget shows four parking slots. Each slot's state comes from two sources: a comma-separated snapshot exported from a spreadsheet, and a reservation map that the browser persists. The model covers five parts:

- **Reservation store with expiry** (`Reservations`, `App.ParkingApp.CleanExpiredBookings`). This is a map from slot id to a booking record `{name, time, reservedAt}`. A purge removes each record whose age is strictly greater than 30 minutes (1,800,000 ms). The purge is a loop over the keys that reports whether it removed anything. It writes to storage only in that case.
- **Snapshot row parser** (`Text`, `SlotData`). The fetched text is trimmed as JavaScript's `trim` trims it, then split on `"\n"`. Text with fewer than two lines is ignored. Otherwise, line 1 is split on `","`. Field 0 is the place label. Fields 1, 3, 5 and 7 are the statuses of "Slot 1" to "Slot 4". A field past the end of the row is JavaScript's `undefined`, written `None` here.
- **State reconciler** (`Reconciler`). It applies a strict priority: if the slot id is a key of the store, the slot shows `reserved`; otherwise `"FILLED"` shows `occupied`; otherwise the slot shows `available`. A refresh purges before it reconciles, so an expired record never hides the sensor reading.
- **Booking commands** (`App.ParkingApp`):
  - `ReserveSlot` selects a slot.
  - `SubmitBooking` validates the name, the time and the selection. It then inserts or overwrites the selected slot's record and marks that slot's card `reserved`.
  - `UnreserveSlot` removes a record when the user confirms and marks the card `available`.
- **Card label and button** (`Display`). This maps the state to `Occupied`, `Reserved` or `Available`, and to no button, an Unreserve button or a Reserve button.

The widget's module-level variables `allSlots`, `selectedSlotId`, `currentPlace` and `bookedSlots` become the fields of the class `App.ParkingApp`. The field `stored` is the copy of the store last written to the browser's key-value storage. The methods that update state are proved against specification functions: `Purge`, `ParseSnapshot`, `Reconcile` and `MarkSlot`. Lemmas about those functions state the properties that matter.

Two class predicates describe how the state fits together:

- `Persisted()`: storage holds the in-memory store. Every command preserves it.
- `Shown()`: every card shows what the priority rule gives against the current store.
  - A successful load establishes `Shown()`, and a booking preserves it.
  - A release preserves it only when the released slot's sensor does not read `"FILLED"`. `UnreserveSlot` always shows `available`, but reconciling would show `occupied`, until the next load replaces the cards (`MarkAvailableHidesFilled`).

Two behaviours of the code to note:

- A record aged exactly 30 minutes is kept, because the code compares the age with a strict `>`.
- A data row with too few fields is not skipped. Only text with fewer than two lines is skipped. The missing columns give statuses that are never `"FILLED"`.

## Model

| member | source | states |
|---|---|---|
| `Text.TrimStart` | script.js:42 | the leading part that `trim` removes is all whitespace, and the result is the suffix that does not start with whitespace |
| `Text.TrimEnd` | script.js:42 | the trailing part that `trim` removes is all whitespace, and the result is the prefix that does not end with whitespace |
| `Text.Trim` | script.js:42 | `csv.trim()` is a contiguous piece of the text that neither starts nor ends with whitespace, and everything before and after it is whitespace |
| `Text.TrimOfTrimmed` | script.js:42 | text that neither starts nor ends with whitespace is unchanged by `trim` |
| `Text.TrimIdempotent` | script.js:42 | trimming twice gives the same result as trimming once |
| `Text.Split` | script.js:42-45 | `split(d)` returns one more piece than there are separators, and no piece contains the separator |
| `Text.JoinSplit` | script.js:42-45 | joining the pieces of a split with the separator gives back the original text |
| `Text.SplitJoin` | script.js:42-45 | splitting the join of pieces that contain no separator gives back exactly those pieces |
| `SlotData.Field` | script.js:46-52 | `c[i]` is the field when `i` is inside the row and `undefined` (None) past its end |
| `SlotData.Incoming` | script.js:48-53 | there are exactly four readings; reading k has id "Slot k+1" and takes its status from column 2k+1 |
| `SlotData.ParseSnapshot` | script.js:42-53 | the refresh is skipped exactly when the trimmed text has no line break; otherwise the place is field 0 of line 1, and the four readings are "Slot 1" to "Slot 4" with statuses from fields 1, 3, 5 and 7 |
| `SlotData.ParseOfExport` | script.js:42-53 | an export that neither starts nor ends with whitespace, built from lines without line breaks and comma-free fields, parses to field 0 as the place and fields 1, 3, 5 and 7 as the statuses; later lines are ignored |
| `SlotData.ShortRowMissingStatus` | script.js:48-53 | a row with at most 2k+1 fields leaves slot k without a status |
| `SlotData.CarriageReturnKept` | script.js:42-52 | in a CRLF export with a further line, the last column keeps its `\r`, so a `FILLED` there does not read as `"FILLED"` |
| `Reservations.Purge` | script.js:19-28 | a key survives exactly when its record's age is at most 30 minutes, and each surviving record is unchanged |
| `Reservations.PurgeLeavesLive` | script.js:23-27 | every record that remains after a purge satisfies `now - reservedAt <= 30 min` |
| `Reservations.PurgeOnlyRemoves` | script.js:23-28 | a purge adds no key and alters no surviving record |
| `Reservations.PurgeChangesIff` | script.js:21-27 | a purge changes the store exactly when some record has expired |
| `Reservations.PurgeIdempotent` | script.js:19-28 | a second purge at the same `now` changes nothing |
| `Reservations.PurgeMonotone` | script.js:24 | a purge at a later time removes at least the keys that an earlier purge removes |
| `Reservations.PurgeBoundary` | script.js:8-24 | a record aged exactly 30 minutes is kept, and one aged 30 minutes and 1 ms is removed |
| `Reconciler.StateFor` | script.js:56-62 | `reserved` exactly when the id is a key of the store; `occupied` exactly when it is not a key and the status is "FILLED"; `available` otherwise |
| `Reconciler.Reconcile` | script.js:55-63 | the result has the same length as `incoming`, with the same ids and statuses in the same order, and every card follows the priority rule |
| `Reconciler.MarkSlot` | script.js:129-133 | cards with the given id take the new state; every other card, the order and the length are unchanged |
| `Reconciler.ConsistentIffReconciled` | script.js:55-63 | a card list follows the priority rule exactly when it equals the reconciliation of its own readings |
| `Reconciler.ReservationWins` | script.js:56-58 | a slot whose id is in the store shows `reserved`, whatever its sensor status |
| `Reconciler.LoadShowsOnlyLive` | script.js:37-63 | after purging and reconciling at the same `now`, a card is `reserved` exactly when its record exists and is at most 30 minutes old |
| `Reconciler.ExpiredDoesNotShadow` | script.js:37-62 | after the purge, a slot with an expired record shows `occupied` when its status is "FILLED" and `available` otherwise |
| `Reconciler.MissingStatusNotOccupied` | script.js:48-62 | a slot whose field is missing never shows `occupied` |
| `Reconciler.MarkReservedKeepsConsistent` | script.js:121-133 | marking the booked id `reserved` after inserting its record keeps every card consistent with the priority rule |
| `Reconciler.MarkAvailableKeepsConsistent` | script.js:145-152 | marking the released id `available` after deleting its record keeps the cards consistent when the slot's status is not "FILLED" |
| `Reconciler.MarkAvailableHidesFilled` | script.js:148-152 | for a "FILLED" slot, a release shows `available` while reconciling would show `occupied` |
| `Reconciler.Examples` | script.js:19-63 | "FILLED" with no record shows `occupied`; an empty slot with a record 29 minutes old shows `reserved`; the same slot shows `available` at 31 minutes |
| `Display.Label` | script.js:78-83 | "Occupied" exactly for `occupied`, "Reserved" exactly for `reserved`, "Available" exactly for `available` |
| `Display.Button` | script.js:85-91 | a Reserve button exactly for `available`, an Unreserve button exactly for `reserved`, no button exactly for `occupied` |
| `Display.ButtonMatchesLabel` | script.js:78-91 | the button always agrees with the label |
| `Display.OfferedActions` | script.js:78-91 | on a consistent list, Unreserve is offered exactly for ids in the store, and Reserve exactly for ids that are not in the store and whose status is not "FILLED" |
| `App.ParkingApp.constructor` | script.js:11-16 | the store is read back from storage, no cards are shown, no slot is selected and the place is empty |
| `App.ParkingApp.CleanExpiredBookings` | script.js:19-33 | the new store is the purge of the old one; `changed` is true exactly when the store changed; storage is written exactly then; nothing else changes |
| `App.ParkingApp.LoadSlotData` | script.js:36-66 | purges at `now`; with fewer than two lines, the cards and the place are kept; otherwise the place is replaced and the cards are the four reconciled readings, consistent with the store |
| `App.ParkingApp.ReserveSlot` | script.js:105-108 | selects the slot and changes nothing else |
| `App.ParkingApp.SubmitBooking` | script.js:111-139 | refuses with nothing changed exactly when the name or the time is empty or no slot is selected; otherwise sets the slot's record to `{name, time, now}`, replacing any earlier record, writes storage, and turns only that slot's cards `reserved`; it preserves `Shown()` |
| `App.ParkingApp.UnreserveSlot` | script.js:142-155 | when declined, nothing changes; when confirmed, it removes only that key, writes storage, and turns only that slot's cards `available` |

## Left out

- Fetching the snapshot (script.js:39-41) is network I/O. The fetched text is the `csv` parameter, and the cache-busting URL and the spreadsheet address are not modelled.
- The fetch resolves asynchronously, after `cleanExpiredBookings` has run. The model runs the purge and the reconcile one after the other at the same `now`, with no command in between.
- `localStorage` and the JSON encoding of the store (script.js:16, 31, 126, 146) are browser persistence. The field `stored` is the map that was last written. A stored record is assumed to be well formed:
  - A missing or non-numeric `reservedAt` (JavaScript's `NaN` age) is not modelled.
  - A value that is not an object is not modelled.
- DOM construction, `innerHTML`, the place line on each card and showing or hiding the form (script.js:71-76, 93-100, 107, 136) are display plumbing. Only the label and button choice is modelled.
- `alert` and `confirm` (script.js:116, 135, 143) are user dialogs. `confirm` is the `confirmed` parameter, and the alert shown is the `confirmed` result of `SubmitBooking`.
- `Date.now()` is the `now` parameter.
- The key walk in `cleanExpiredBookings` visits keys in an arbitrary order. `Object.keys` fixes an order, but the result does not depend on it.
- `finalState` is an enumeration of the three states the code produces. The JavaScript fallback for any other string, the "Available" label with no button, cannot arise.
- `bookedSlots[slot.id]` is treated as "the key is present", because every stored value is an object. Inherited property names on plain JavaScript objects are not modelled, since the ids are always "Slot N".
- Strings are sequences of Unicode scalar values, not UTF-16 code units. The separators and whitespace involved are all in the Basic Multilingual Plane.
