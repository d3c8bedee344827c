# Visitor queue: ticket numbering and the call ledger

This project models the core of a web-based visitor queue system. The system has
four parts:

- A kiosk prints numbered tickets per queue type ("A" for registration, "B" for
  information).
- Staff at three service desks ("lokets") call the next number from an admin
  console.
- A public display shows the latest call and one panel per loket.
- The database holds a `queue_state` counter row per queue type and an
  append-only `queue_calls` ledger. A reset zeroes a type's counter and marks its
  calls inactive.

The Dafny modules follow the source files:

- `queue_manager.dfy` (module `QueueManager`) covers `src/lib/queueManager.ts`.
  - The ticket label format, with its parser, round trip and injectivity.
  - The ledger queries, written as pure functions over a `seq<QueueCall>`. A
    `Filter` stands for a chain of `.eq` conditions, and `Select` returns the
    matching rows newest first.
  - The class `QueueDatabase`, whose fields are the two tables and the database
    clock that stamps `called_at`. Its methods are `getNextQueueNumber`,
    `callQueue`, `resetQueue` and the three read-only queries.
- `admin.dfy` (module `Admin`) covers `src/pages/Admin.tsx`.
  - The start-up fold of active calls into loket panels. It is written as a
    method with a loop, proved against the function `FoldCalls`.
  - The realtime handlers, the keyboard dispatch and the "call next" outcome.
- `display.dfy` (module `Display`) covers `src/pages/Display.tsx`. It is pure: the
  list of the three newest active calls, the headline call, and the per-loket
  `find` projection.
- `kiosk.dfy` (module `Kiosk`) covers `src/pages/Kiosk.tsx`. The class
  `KioskScreen` holds the busy flag and the selected type. The ticket handler does
  a read-increment-write on the counter row. Its lookup is a parameter
  (`LookupReading`):
  - `AsWritten` is the code's `.maybeSingle()`. A missing row gives empty data,
    and the selection fails.
  - `MissingRowReported` is the reading the bootstrap branch expects. A missing
    row is reported as an error, and the handler creates the row with ticket 1.

  `MissingTypeScenario` shows both on a type without a row (see "## Findings").

The storage layer is modelled as in-memory tables. Where the code branches on a
storage error, the error is a parameter of the operation:

- `insertFails` for `callQueue`.
- `ResetFault` for the two writes of `resetQueue`.
- `lookupFails` and `insertFails` for the kiosk.

Realtime events become calls of the handler with the event's row. Timestamps
are integers: `called_at` is stamped from the database clock, which advances
with every insert, so ordering by `called_at` descending means newest insert
first.

Behaviour the model makes explicit:

- `callQueue` advances the counter even when it refuses the call. A reset whose
  second write fails therefore leaves the old active call in place, and the next
  call refuses that number and uses it up (`PartialResetScenario`).
- The kiosk and `callQueue` advance the same counter. A ticket printed at the
  kiosk is skipped by the next call (`SharedCounterScenario`).
- The admin console's initial fold treats a stored 0 like "no call yet"
  (`!lastCalled`).
- A call at a loket outside 1..3 makes the fold throw, so the panels are left
  unchanged.
- The display's loket panel can be empty although the loket has an active call,
  when three newer calls at other lokets fill the list.

## Model

| member | source | states |
|---|---|---|
| QueueManager.FormatQueueNumber | src/lib/queueManager.ts:139-141 | the label starts with the queue type and has at least three characters after it |
| QueueManager.FormatRoundTrip | src/lib/queueManager.ts:139-141 | for n >= 0 everything after the type prefix is a digit, and the digits read back as n, so nothing is cut off |
| QueueManager.FormatQueueNumberInjective | src/lib/queueManager.ts:139-141 | two different non-negative numbers of one type never get the same label |
| QueueManager.FormatSmallNumbersPadded | src/lib/queueManager.ts:139-141 | numbers 0..999 are padded to exactly three digits |
| QueueManager.FormatWideNumbersUnpadded | src/lib/queueManager.ts:139-141 | numbers from 100 up are printed whole: the prefix followed by all their digits |
| QueueManager.FormatZeroIsPlaceholder | src/pages/Admin.tsx:16-21 | the initial panel text "A000" is the label of number 0 |
| QueueManager.Select | src/lib/queueManager.ts:80-85 | a query returns exactly the matching rows, no more rows than the table, newest first when the stamps increase |
| QueueManager.ActiveMatchesAtMostOne | src/lib/queueManager.ts:45-51 | while the uniqueness invariant holds, the duplicate check finds at most one active row per (type, number), so `maybeSingle` never meets several |
| QueueManager.ActiveQueueCalls | src/lib/queueManager.ts:79-90 | at most three rows, all active and of the type, newest first; a matching row left out means three rows were returned, each newer than it |
| QueueManager.CurrentQueueNumber | src/lib/queueManager.ts:92-101 | the stored counter when the type has a row, 0 when it has none; never negative on valid counters |
| QueueManager.RecallLast | src/lib/queueManager.ts:174-195 | nothing exactly when the loket never called that type; otherwise the number of an existing call there, the newest by `called_at`, active or not |
| QueueManager.Deactivated | src/lib/queueManager.ts:158-163 | same rows in the same order with only `is_active` changed; a row ends up active iff it was active and of another type |
| QueueManager.DeactivatedLeavesOtherTypes | src/lib/queueManager.ts:158-163 | rows of other queue types are untouched by the bulk update |
| QueueManager.DeactivatedKeepsLedgerValid | src/lib/queueManager.ts:158-163 | the bulk update keeps the ledger invariant (stamps, uniqueness of active numbers, ids, positive numbers) |
| QueueManager.NoActiveAfterDeactivation | src/lib/queueManager.ts:158-165 | after the update no active row of the type remains, and the active list is empty |
| QueueManager.RecallIgnoresReset | src/lib/queueManager.ts:176-183 | recall does not filter on `is_active`, so a reset does not change what it returns |
| QueueManager.AppendKeepsLedgerValid | src/lib/queueManager.ts:53-68 | inserting a call only after the duplicate check found nothing keeps the ledger invariant |
| QueueManager.QueueDatabase.GetNextQueueNumber | src/lib/queueManager.ts:19-37 | a missing row gives the "not found" error and changes nothing; otherwise the counter plus one is returned and written back, other types unchanged |
| QueueManager.QueueDatabase.CallQueue | src/lib/queueManager.ts:39-77 | the counter advances whenever the type exists; no call exactly when the type is missing, the number already has an active call, or the insert fails; otherwise one active call with the new number is appended |
| QueueManager.QueueDatabase.ResetQueue | src/lib/queueManager.ts:148-172 | success iff neither write fails; the counter is zeroed unless the first write fails; calls are deactivated only if both writes succeed; on success the counter is 0 and the active list is empty |
| QueueManager.QueueDatabase.DeactivateCalls | src/lib/queueManager.ts:158-163 | the bulk update turns off exactly the active calls of the type, keeps the ledger invariant and the counters, and leaves the active list empty |
| QueueManager.QueueDatabase.GetActiveQueueCalls | src/lib/queueManager.ts:79-90 | returns the active list of the type |
| QueueManager.QueueDatabase.GetCurrentQueueNumber | src/lib/queueManager.ts:92-101 | returns the counter, 0 for a missing row, never negative |
| QueueManager.QueueDatabase.RecallLastQueue | src/lib/queueManager.ts:174-195 | returns the recalled number without changing the ledger |
| QueueManager.FreshQueueScenario | src/lib/queueManager.ts:39-77 | on a fresh queue, loket 1 then loket 2 get numbers 1 and 2, and recall at loket 1 gives 1 |
| QueueManager.ResetScenario | src/lib/queueManager.ts:148-172 | after a successful reset the active list is empty and the next allocation is 1 |
| QueueManager.PartialResetScenario | src/lib/queueManager.ts:148-172 | when the deactivation write fails, the next call is refused and number 1 is used up |
| Admin.HighestNumberAt | src/pages/Admin.tsx:97-105 | the largest number called at a loket, or 0: an upper bound of every such call and attained by one |
| Admin.FoldCalls | src/pages/Admin.tsx:97-105 | a fold that gets through yields exactly lokets 1, 2 and 3. When it fails, and the panel values, are stated by `FoldCallsFails`, `FoldCallsShowOwnNumbers` and `FoldCallsKeepHighest` |
| Admin.FoldStep | src/pages/Admin.tsx:98-104 | one step of the fold fails exactly when the loket has no entry, and otherwise keeps the same lokets |
| Admin.FoldCallsFails | src/pages/Admin.tsx:97-105 | the fold fails iff some call names a loket outside 1..3; otherwise it yields exactly lokets 1, 2 and 3 |
| Admin.FoldCallsShowOwnNumbers | src/pages/Admin.tsx:97-105 | every panel the fold yields shows the label of its own stored number |
| Admin.FoldCallsKeepHighest | src/pages/Admin.tsx:97-105 | with positive numbers, every panel's number is the highest called at that loket, whatever the order of the calls |
| Admin.ReduceActiveCalls | src/pages/Admin.tsx:91-105 | the loop computes the fold, including its failure on a loket outside 1..3; the panels it yields are exactly lokets 1..3 and each shows its own number |
| Admin.LoadFailsOnForeignLoket | src/pages/Admin.tsx:84-107 | start-up leaves the panels as they were iff an active call names a loket outside 1..3 |
| Admin.LoadShowsHighestNumbers | src/pages/Admin.tsx:84-107 | on a valid ledger each loaded panel shows the highest active number called at its loket |
| Admin.LoketForKey | src/pages/Admin.tsx:122-126 | keys "1", "2" and "3" select the loket they spell, and every other key selects none |
| Admin.AdminPanel.constructor | src/pages/Admin.tsx:16-21 | three panels at "A000"/0 and next ticket "A000" |
| Admin.AdminPanel.LoadInitialState | src/pages/Admin.tsx:74-109 | the next ticket is set only when `queue_state` has exactly one row; the panels become the fold of the active calls, or stay as they were when it fails; the panel invariant holds |
| Admin.AdminPanel.OnCallInserted | src/pages/Admin.tsx:46-54 | the call's loket shows its number and label, whatever its type; every other panel is kept |
| Admin.AdminPanel.OnStateUpdated | src/pages/Admin.tsx:65-68 | the next ticket becomes the label of the new counter plus one; panels unchanged |
| Admin.AdminPanel.HandleCallNext | src/pages/Admin.tsx:132-147 | the error toast shows exactly when `callQueue` returns nothing. The "A" counter advances whenever the type exists, even when the call is refused. On Announce the announced number is the counter plus one, and the ledger is the old ledger plus exactly one active "A" call at that loket |
| Admin.AdminPanel.HandleKeyPress | src/pages/Admin.tsx:122-126 | a non-loket key does nothing to the database. A loket key runs the "call next" step at the loket it spells: the same error condition, counter advance and appended call as `HandleCallNext` |
| Display.TypeOrDefault | src/pages/Display.tsx:40 | an absent or empty type reads as "A"; any other type is kept |
| Display.LoadInitialData | src/pages/Display.tsx:50-56 | the list is the three newest active "A" calls of the ledger (`ActiveQueueCalls`). The headline is the list's head, or stays as it was when the list is empty. `LoadShowsNewestCall` proves that head is the newest such call |
| Display.OnCallInserted | src/pages/Display.tsx:33-46 | the inserted call, of any type, becomes the headline, and the list is refetched as the three newest active "A" calls of the ledger. `InsertedCallOnItsPanel` proves an inserted "A" call heads it |
| Display.LoketEntry | src/pages/Display.tsx:84-88 | none iff no listed call is at the loket; otherwise the first listed call at that loket |
| Display.PanelLabel | src/pages/Display.tsx:180-190 | "---" exactly when the loket has no entry; otherwise the entry's number formatted as type "A" |
| Display.HeadlineLabel | src/pages/Display.tsx:128 | the headline is the call's number formatted with its own type, or with "A" when the type is absent or empty |
| Display.HeadlineAgreesWithPanel | src/pages/Display.tsx:128 | a call of type "A", or with no type, reads the same in the headline and on its panel |
| Display.PanelShowsNewestOfLoket | src/pages/Display.tsx:84-88 | in a newest-first list, the entry a panel shows is the newest listed call of its loket |
| Display.LoadShowsNewestCall | src/pages/Display.tsx:50-56 | the list is empty iff no active "A" call exists, and then the headline is kept; otherwise the headline is the newest active "A" call |
| Display.FirstLoadHeadline | src/pages/Display.tsx:8-9 | starting from the initial state, the first load shows a headline exactly when the ledger holds an active "A" call |
| Display.PanelMissesOnlyCrowdedOutCalls | src/pages/Display.tsx:84-88 | a loket with an active "A" call shows that call or a newer one of its own, or nothing only when three newer calls fill the list |
| Display.InsertedCallOnItsPanel | src/pages/Display.tsx:33-46 | after an insert of a new active "A" call, that call heads the list, is shown on its loket's panel and is the headline |
| Kiosk.TicketLabel | src/pages/Kiosk.tsx:44 | the printed label equals `formatQueueNumber` of the number and prefix |
| Kiosk.BootstrapLabelIsTicketOne | src/pages/Kiosk.tsx:128 | the literal prefix + "001" shown after a bootstrap is the label of ticket 1 |
| Kiosk.MaybeSingleLookup | src/pages/Kiosk.tsx:108-112 | the lookup yields the row when it exists, empty data without an error when it does not, and an error only when the request fails |
| Kiosk.StateLookupFor | src/pages/Kiosk.tsx:108-116 | like the lookup above, but a missing row is reported as the "no single row" error |
| Kiosk.TicketFor | src/pages/Kiosk.tsx:114-156 | a ticket is issued iff a row was found, or none was found and the bootstrap insert succeeded; the number is the counter plus one, or 1 after a bootstrap; the printed label is its formatted number |
| Kiosk.StatesAfter | src/pages/Kiosk.tsx:117-141 | a found row gets its counter plus one with its other column (`last_reset_at`) kept, and a bootstrap creates the row at 1. A failed lookup, empty data or a failed insert leaves the table, and other types are untouched |
| Kiosk.IssuedTicketIsNewCounter | src/pages/Kiosk.tsx:135-141 | under either lookup an issued ticket becomes the type's counter, one more than before when a row existed. A failure leaves the table unchanged, and other types keep their counters |
| Kiosk.MissingRowFailsAsWritten | src/pages/Kiosk.tsx:108-135 | with `maybeSingle`'s empty data for a missing row, the selection always fails |
| Kiosk.MissingRowBootstraps | src/pages/Kiosk.tsx:114-130 | when the missing row is reported as such, the row is created with 1 and ticket 1 is issued |
| Kiosk.KioskScreen.constructor | src/pages/Kiosk.tsx:34-35 | not busy, nothing selected |
| Kiosk.KioskScreen.BeginSelection | src/pages/Kiosk.tsx:101-104 | accepted iff not busy; an accepted selection sets the busy flag and the selected type; a refused one changes nothing |
| Kiosk.KioskScreen.IssueTicket | src/pages/Kiosk.tsx:106-160 | the outcome and the new `queue_state` table are those of the chosen lookup. Under `AsWritten` a missing row fails and creates nothing; under `MissingRowReported` it creates the row and issues ticket 1. The ledger is untouched and the busy flag is cleared |
| Kiosk.KioskScreen.HandleSelectQueue | src/pages/Kiosk.tsx:100-161 | a selection while busy is ignored with no change. Otherwise it is one ticket attempt with the chosen lookup, as in `IssueTicket`, and it ends not busy |
| Kiosk.DoubleTapScenario | src/pages/Kiosk.tsx:101 | a second selection while the first is in flight is refused, and the first still issues the counter plus one |
| Kiosk.SharedCounterScenario | src/pages/Kiosk.tsx:135-141 | after the kiosk prints "A001" on a fresh queue, the next call at a loket announces 2 |
| Kiosk.MissingTypeScenario | src/pages/Kiosk.tsx:108-156 | on a type without a row, the kiosk as written fails and creates nothing; with the missing row reported it prints "B001" |

## Left out

- The `check_and_reset_queue` RPC (src/lib/queueManager.ts:143-146) and the timers that invoke it. Its body runs on the server and is not part of this model.
- Concurrency. Realtime channels, timers, and races between lokets or kiosks are out of scope. Operations run one after another. A realtime event is a call of its handler with the event's row. The kiosk's busy flag is modelled by splitting the handler at its first await (`BeginSelection` / `IssueTicket`).
- Speech (`speakQueueNumber`), PDF generation apart from the label, toasts, console logging, and date and time formatting. The markup is left out too.
- `src/pages/Index.tsx` and `src/components/QueueHeader.tsx`. They are static markup.
- QueueManager.QueueDatabase.CallQueue: the duplicate check never fails in the model.
  - The code discards that query's error, since src/lib/queueManager.ts:45 destructures only `data`.
  - A failing check therefore reads as "no existing call", and the insert goes ahead. The same happens when `maybeSingle` reports several matching rows.
  - In the running system the double-call guard thus fails open, and two active calls can hold one number.
  - The model keeps `UniqueActive` in `Valid()` only because this query cannot fail here.
- Storage errors other than the ones the code branches on.
  - A failing lookup in `getNextQueueNumber` (which throws) is not modelled.
  - A failing fetch in `getActiveQueueCalls`, in `recallLastQueue`, in the admin console's start-up and in the display is not modelled.
  - The unchecked counter updates (src/lib/queueManager.ts:31-34, src/pages/Kiosk.tsx:138-141) always succeed in the model.
- Several `queue_state` rows for one queue type. The table is a map keyed by queue type, so `maybeSingle`'s several-rows error cannot arise. That error is what the kiosk's PGRST116 branch meets in the running system. Only the admin console's `.single()` over the whole table sees the row count (`|states| == 1`).
- JavaScript number semantics. Queue and loket numbers are unbounded integers, so the floating-point range and non-integer numbers are not modelled.
- Row identifiers and timestamps.
  - The ledger's UUID ids are modelled as positions in the ledger.
  - ISO timestamps are modelled as integers.
  - `last_reset_at` is the `now` argument of the operation that writes it.
- The kiosk category's label, description and icon. Only the key and the prefix are kept.
- Display.OnCallInserted: the render between setting the headline and fetching the list is not modelled. The model gives the state after both.

## Findings

| source | as written | input that shows it | evidently intended | confidence | as-written member | corrected member |
|---|---|---|---|---|---|---|
| src/pages/Kiosk.tsx:108-135 | The lookup uses `.maybeSingle()`. For zero rows that call gives `data: null` with no error, so the PGRST116 branch is not reached. Reading `state.current_number` then throws, and the error toast is shown. | A queue type with no `queue_state` row, e.g. a fresh "B" | Create the row with counter 1 and issue ticket 1, as the comment at line 115 says | medium, not executed; rests on the client library's `maybeSingle` contract | Kiosk.MissingRowFailsAsWritten | Kiosk.MissingRowBootstraps |
