# Promview, verified

Promview is an alert console. Its server keeps three things in step while several
writers act on them: the current alert rows, an append-only history, and a resumable
event stream that retention deletes from. This project models that core and proves what
its design promises. `dafny verify dfyconfig.toml` checks the whole project.

## How it is built

Every transaction of the original is one atomic step. A step is given twice: as a
function of the old tables, about which the theorems are proved, and, where the original
works by updating things in place, as a class or a loop proved to compute that function.

| File | What it models |
|---|---|
| `AlertModel.dfy` | rows, history, stream log; the effect every writer is made of; the invariant that ties rows to history and to the stream |
| `Ingest.dfy`, `Expiry.dfy`, `Reconcile.dfy`, `Operator.dfy` | the four kinds of writer |
| `Lifecycle.dfy` | every run of every writer |
| `Store.dfy` | the same writers as statements on tables, branch by branch |
| `Reconciler.dfy` | the miss counters of the reconciliation loop, and the refresh pass that may never resolve |
| `Stream.dfy`, `StreamStore.dfy` | commits, retention, polls and gaps; the tables and the poll loop |
| `Convergence.dfy` | a console that lists, listens, reconnects and lists again, over the whole system |
| `Sse.dfy` | the frames on the wire and the desktop shell's parser |
| `OverTheWire.dfy` | the two together, down to the text: what the server writes, what has arrived, what the console shows |
| `Authorization.dfy`, `View.dfy` | who may read and act, and what a view shows, decided in Go |
| `Sql.dfy`, `QueryCompiler.dfy` | the same decisions compiled to SQL conditions over numbered arguments, with SQL's three truth values |
| `Ordering.dfy`, `Keyset.dfy`, `Paging.dfy`, `Grouping.dfy` | sorting, keyset paging, the flat list and the grouped list |
| `Limiter.dfy` | sign-in throttling |
| `Silence.dfy` | the label match a group silence writes |

## What holds, and what does not

Everything below is for all inputs and all runs; there are no bounds on sizes or lengths.

- Row fields are a cache of history, after every run (`Lifecycle.RowsAreTheirHistory`), and
  stream events are exactly history entries plus announced suppressions
  (`Lifecycle.StreamIsHistoryPlusSuppressions`).
- A console that has caught up, has heard of no gap and is whole shows exactly what its reader may see
  (`Convergence.ConsoleConverges`), although the cursor is read before the list, although retention deletes
  underneath, although connections break in the middle of a delivery, and although the list is read again under a
  live stream. The same holds of the text: over every run in which it arrives in pieces of any size and connections
  break anywhere in it, once all of it has arrived (`OverTheWire.ConsoleConvergesOverTheWire`); and the last id
  read is at every moment the place to resume from (`OverTheWire.LastReadIsResume`). Every console opened at a
  positive cursor is whole. One opened at cursor 0 is whole until a poll leaves 0 after retention took something
  its reader could see from that poll's window (`Convergence.WholeWhen`).
- Nothing is lost silently from a positive cursor (`Stream.DeliveredOnceOrAnnounced`).
- Reconciliation ends an alert only at the second of two consecutive readings, the first of which had not
  already ended it once (`Reconciler.ResolvedOnlyAfterTwoReadings`, `Reconciler.PassEndsExactly`), and so does every
  tick of the loop, whatever ran before it (`Reconciler.TickIsRun`, `Reconciler.TickEndsFairly`).
- In a stretch of time T whose sweeps wait out the key's budget, at most Burst + T/Refill attempts on a key pass, and
  one Burst more for each time a successful sign-in resets it, whatever was swept and reset before
  (`Limiter.RateBound`). Whoever waits as told is let in, if nobody else was let through on those keys meanwhile,
  whatever else was attempted, refused, reset or swept (`Limiter.WaitingIsEnough`).
- The compiled WHERE means what Go means (`QueryCompiler.AlertFiltersWithView`).
- What each operation comes to is stated a second time, from the fields, labels and settings themselves and without the
  functions that compute it: deliveries (`Ingest.DeliveryRefreshes`, `Ingest.DeliveryWrites`), sweeps
  (`Expiry.SweepDecides`, `Expiry.SweepWrites`), passes (`Reconcile.PassOnFiring`, `Reconcile.PassOnOthers`,
  `Reconciler.EmptyReadingEndsNothing`, `Reconciler.TwoReadingsEnd`), decisions (`Operator.DecisionOutcome`,
  `Operator.DecisionLeaves`), who sees what (`Authorization.ReadersAre`, `View.ViewIncludes`), what is sent
  (`Stream.FramesTellAll`, `Stream.FramesTellNoMore`), listed (`Paging.ListedAre`, `Paging.ListingIsSorted`), grouped
  (`Grouping.MembersAre`, `Grouping.BucketsAreExact`) and silenced (`Silence.ScopedAre`), and resets
  (`Limiter.ResetFills`).

Several promises are not kept by the code on every input. In each case the model follows
the code, and the exact condition is proved.

- The gap check exempts cursor 0 (`internal/httpapi/server.go:780`). A stream opened there waits until some
  poll finds an event. It is complete from then on exactly when, at that poll, retention had taken nothing the
  poller could see from the window; what was taken is never announced (`Stream.CursorZeroLosesExactly`).
  `Stream.CursorZeroCanLose` commits, prunes, commits and polls its way into such a loss, and
  `Convergence.ConsoleCanMiss` does so to a console of a fresh server: caught up, no gap heard, and an alert in its
  reader's sight not held.
- A poll is two statements (`internal/postgres/store.go:901` and `:935`). A turn that announces no gap serves its
  window whole exactly when, by its second statement, retention has taken nothing the reader could see from the
  window; past the watermark that means between the two statements. The loss is silent exactly when the watermark
  is still within the window at the next turn (`Stream.SplitPollLosesExactly`; `Stream.SplitPollCanLose` shows one).
- A severity label that is present and empty ranks 0 in SQL (`internal/postgres/store.go:34`)
  and "2" in a cursor (`internal/postgres/store.go:1145`). Paging by severity is right, and ends, exactly
  when no page ends at such a row, with one harmless exception (`Paging.FlatPagingExactly`,
  `Paging.FlatPagingEnds`). Two delivered alerts are enough to page forever
  (`Paging.EmptySeverityBreaksPaging`).
- Repeating a reconciliation is a no-op unless an expired alert is both on the live list and
  declared missing (`Reconcile.ReconcileIdempotentExactly`); the loop never produces such a
  reading (`Reconciler.PassIsIdempotent`); `Reconcile.ExpiredCanContradict` gives one for any expired alert.
- Redelivering a payload is silent exactly when the payload says one thing per alert
  (`Ingest.RedeliveryIsSilentExactly`); `Ingest.RedeliveryCanSpeak` gives one that does not.
- Stream data survives the wire exactly when it has no newline and no trailing carriage
  return (`Sse.DataSurvivesExactly`); JSON as section 7 of RFC 8259 defines it escapes both.
- Sweeping the limiter is unobservable in every run exactly when the idle time waits out every usable budget
  (`Limiter.SweepsUnobservableExactly`); a shorter one changes an answer (`Limiter.ShortSweepIsSeen`). The rate
  bound on a key holds in every run swept at an idle time exactly when that time waits out the key's own budget
  (`Limiter.RateHoldsExactly`). The hour the server uses is long enough for the budgets it ships with
  (`Limiter.HourIsLongIdle`).
- A silence is promised to be the narrowest match that covers a group's members at one Alertmanager
  (`internal/alerts/silence.go:29`). Over the labels those members carry, it is exactly when no label is empty at
  one member and absent at another (`Silence.NarrowestExactly`, `Silence.HalfEmptyExample`).

Where the comment on `PruneStreamEvents` says a negative window disables pruning
(`internal/postgres/stream_retention.go:34`), the code returns an error for it; the model
follows the code.

## Assumptions

- One regular-expression predicate and one text order (a total order) are parameters; Go and
  PostgreSQL share them. Matcher operators are the four supported ones.
- Times are integers. The clock is a parameter of each step; the limiter's theorems assume it
  does not go back, except `Limiter.RunKeepsTokens`. Time as cursor text is a parameter that reads back as written;
  a group cursor's newest time is carried as a time.
- Stream ids are assigned in commit order. They may have holes in `Stream.dfy` and in `Convergence.dfy`,
  where each event of a transaction may skip any number of ids; the lifecycle itself numbers them without holes.
- The JSON body of a frame is a parameter of `OverTheWire.dfy`: one line without a newline or trailing carriage
  return, from which a console reads back the id of the alert.
- Alert rows are never deleted, so an alert's id is its position in the table.
- Limiter tokens are real numbers, so rounding is not modelled.

## Model

| member | source | states |
|---|---|---|
| `AlertModel.ApplyKeepsInv` | internal/postgres/store.go:542-634 | The one step every writer is made of, a row change with its history entry and stream event, keeps rows, history and stream in agreement: fold, last entry, reopen count, label coherence, complete operator marks, unique identities |
| `AlertModel.NoPast` | internal/postgres/store.go:543-561 | An alert id not yet created has no history and no stream events, so creation starts both |
| `Ingest.IngestKeepsInv` | internal/postgres/store.go:508-647 | Every payload, with repeats and reopenings, keeps the invariant |
| `Ingest.OneIsSilentExactly` | internal/postgres/store.go:1041-1058 | A delivery writes nothing if and only if the alert is stored with the same status, labels and annotations |
| `Ingest.RedeliveryIsSilentExactly` | internal/postgres/store.go:556-633 | Delivering a payload twice writes no history or stream event the second time if and only if the payload says one thing per alert |
| `Ingest.RedeliveryCanSpeak` | internal/postgres/store.go:565-633 | Whatever is stored, a payload that fires and then resolves one alert writes again when it is delivered again |
| `Ingest.RedeliveryDisturbsNothing` | internal/postgres/store.go:565-633 | Such a redelivery changes no status, occurrence or operator field of any row |
| `Ingest.DeliveryRefreshes` | internal/postgres/store.go:565-619 | Field by field, what a delivery leaves in the stored row: its times and material; a new occurrence without marks when it fires after a resolution; no close when it is firing news |
| `Ingest.DeliveryWrites` | internal/postgres/store.go:565-633 | News is written down as a reopening, a resolution or an update, whichever it is, and announced with the labels before it; what is no news is neither |
| `Ingest.DeliveryCreates` | internal/postgres/store.go:543-561 | An alert never seen becomes a first occurrence without marks, seen just now, with one entry and one event that describes it |
| `Ingest.LastDeliveryStays` | internal/postgres/store.go:508-633 | After a payload every alert in it is stored with the status, labels, annotations, start, end and last-seen time of its last delivery there |
| `Expiry.StaleAmongExact` | internal/postgres/expiry.go:85-95 | The candidate query selects every stale alert exactly once and nothing else |
| `Expiry.OldestFirst` | internal/postgres/expiry.go:85-95 | Candidates come least recently seen first |
| `Expiry.BatchExact` | internal/postgres/expiry.go:85-95 | A batch is distinct stale alerts, and it is short only when it holds them all |
| `Expiry.BatchShrinks` | internal/postgres/expiry.go:62-77 | A batch removes exactly its own alerts from what is stale, so the loop ends |
| `Expiry.BatchedExpiryIsOneSweep` | internal/postgres/expiry.go:62-177 | The batch loop equals one unbounded sweep: every stale row is expired, no other row moves, and the count returned is how many were stale at the start |
| `Expiry.ExpiryWritesOnce` | internal/postgres/expiry.go:141-169 | Exactly one history entry and one stream event for each alert that was stale, none for any other |
| `Expiry.ExpireKeepsInv` | internal/postgres/expiry.go:62-177 | Expiry keeps the invariant |
| `Expiry.SweepDecides` | internal/postgres/expiry.go:30-150 | A firing alert of a listed source is ended if and only if both its last delivery and its last confirmation are older than a positive window: the seconds its timeout label gives in digits, else what its source says, else the default; status and a missing end are all that moves |
| `Expiry.SweepWrites` | internal/postgres/expiry.go:141-169 | Each alert a sweep ends is written down as expired at its time, and announced as ended by an event that describes it |
| `Expiry.SweepSkipsUnlisted` | internal/postgres/expiry.go:85-95 | Alerts of a source that is not listed are left alone |
| `Expiry.RecentEvidenceProtects` | internal/postgres/expiry.go:33-50 | An alert delivered or confirmed inside its window is left exactly as it was |
| `Expiry.DeliveryShields` | internal/postgres/store.go:574-593 | A firing delivery keeps its alert firing through any sweep within a window of the time it was received |
| `Expiry.ReconciliationShields` | internal/postgres/reconcile.go:297-304 | A pass that finds an alert on its source keeps it firing through any sweep within a window of that pass |
| `Expiry.ExpireThenReviveRestores` | internal/postgres/reconcile.go:154-196 | Expiring and then reviving an alert restores its status and keeps occurrence, acknowledgement, owner, close and labels |
| `Reconcile.SortedCopyIsCanonical` | internal/postgres/reconcile.go:364-371 | Two readings of the same silence ids compare equal whatever order they came in |
| `Reconcile.ReconciledRows` | internal/postgres/reconcile.go:145-304 | What a pass leaves in a row depends on that row and the reading alone |
| `Reconcile.ReconcileRespects` | internal/postgres/reconcile.go:65-311 | Resolved rows and other sources are untouched; only a firing alert declared missing is ended; a row still firing on the live list carries the live suppression, silence ids and confirmation time; operator fields never move |
| `Reconcile.PassOnFiring` | internal/postgres/reconcile.go:200-304 | Field by field, a firing alert of the source: ended when missing, as the source says when live, and otherwise released if and only if every silence it was under has lapsed |
| `Reconcile.PassOnOthers` | internal/postgres/reconcile.go:94-197 | An expired alert of the source comes back if and only if it is live; nothing else that is not firing there is touched |
| `Reconcile.PassWritesEndings` | internal/postgres/reconcile.go:200-222 | An ending is written down and announced as one |
| `Reconcile.PassWritesRevivals` | internal/postgres/reconcile.go:154-197 | A revival is written down and announced as an update |
| `Reconcile.PassTellsSuppression` | internal/postgres/reconcile.go:224-276 | A change of suppression is announced as an update that describes the alert |
| `Reconcile.PassCountsExactly` | internal/postgres/reconcile.go:145-276 | The four counts a pass reports are the numbers of its endings, suppressions, releases and revivals |
| `Reconcile.LastListingCounts` | internal/postgres/reconcile.go:73-77 | A fingerprint listed more than once counts as its last listing says |
| `Reconcile.ReconcileIdempotentExactly` | internal/postgres/reconcile.go:65-311 | Repeating a pass reports zero and changes nothing if and only if no expired alert is both live and declared missing |
| `Reconcile.ExpiredCanContradict` | internal/postgres/reconcile.go:154-222 | Every expired alert has a reading, live and missing at once, whose repetition is not a no-op |
| `Reconcile.JudgeConserves` | internal/postgres/reconcile.go:145-276 | A pass writes one entry per resolution or revival, and one event per entry plus one per reported suppression or release |
| `Reconcile.ReconcileKeepsInv` | internal/postgres/reconcile.go:65-311 | A pass keeps the invariant |
| `Operator.OperateKeepsInv` | internal/postgres/store.go:820-885 | Acknowledging, assigning, closing or noting keeps the invariant, so the fold of history still gives the row |
| `Operator.DecisionOutcome` | internal/postgres/store.go:833-853 | Not found exactly when absent or out of scope, unchanged exactly when already so, and then nothing happens; a note is always applied |
| `Operator.DecisionLeaves` | internal/postgres/store.go:860-868 | An applied decision moves its own mark and no other, under the operator's subject, else display name, at its time |
| `Operator.DecisionWrites` | internal/postgres/store.go:869-878 | An applied decision is written down under its kind, message and author |
| `Operator.DecisionTells` | internal/postgres/close.go:84-101 | ... and announced: a close as an ending, the rest as updates; a note is kept with its text and author |
| `Operator.TrimLeft` | internal/postgres/assign.go:117-118 | Drops exactly the leading characters that have the White_Space property |
| `Operator.TrimRight` | internal/postgres/assign.go:117-118 | Drops exactly the trailing characters that have the White_Space property |
| `Operator.TrimSpaceIsOnly` | internal/postgres/assign.go:117-118 | Any way to take all the space off both ends and nothing else leaves the trimmed text |
| `Operator.SpacesAre` | internal/postgres/assign.go:117-118 | The space that is trimmed is the White_Space property, by code point |
| `Operator.Utf8IsWellFormed` | internal/postgres/assign.go:119-120 | ... which is well formed as RFC 3629 defines it: lead and continuing bytes in range, shortest form, decoding to the character |
| `Operator.Utf8LengthCounts` | internal/postgres/assign.go:119-120 | The length that is limited is the number of bytes of the UTF-8 encoding |
| `Operator.ValidAssignee` | internal/postgres/assign.go:117-123 | An owner is refused if and only if the trimmed name is longer than 128 bytes in UTF-8; otherwise it is the trimmed name |
| `Operator.DistinctIsExact` | internal/postgres/bulk.go:66-73 | A selection is reduced to each id once, no other, in the order they first appear |
| `Operator.BulkIsEachAlone` | internal/postgres/bulk.go:64-125 | Each selected alert ends as the single-alert action alone would leave it, with the same outcome; one entry and one event are written about it if and only if it was applied |
| `Operator.BulkLeavesOthers` | internal/postgres/bulk.go:64-125 | An alert outside the selection is neither changed nor mentioned |
| `Operator.AppliedIsWritten` | internal/postgres/bulk.go:104-125 | The applied outcomes are exactly as many as the entries, and as the events, written |
| `Operator.RepeatingAppliesNothing` | internal/postgres/bulk.go:135-211 | Repeating a bulk acknowledge, assign or close at any later time applies to nothing and writes nothing |
| `Lifecycle.RunKeepsInv` | internal/postgres/store.go:565-633 | Every run of deliveries, sweeps, passes, single and bulk actions keeps the invariant |
| `Lifecycle.RowsAreTheirHistory` | internal/postgres/store.go:565-633 | After any run, each row's status, occurrence, acknowledged flag, assignee and closed flag are the fold of its history; occurrence is one plus its reopenings; status and occurrence are those of its last entry |
| `Lifecycle.StreamIsHistoryPlusSuppressions` | internal/postgres/reconcile.go:190-276 | After any run, stream events written are history entries plus the Suppressed and Released counts reported |
| `Lifecycle.PerformExtends` | internal/postgres/store.go:990-1039 | No step rewrites history or the stream log, or forgets an alert |
| `Lifecycle.RunDoes` | internal/postgres/store.go:508-647 | A run is each operation on what those before it left |
| `Store.AlertStore.InsertStreamEvent` | internal/postgres/store.go:990-1021 | Appends the event that describes the row, under the next id, and touches nothing else |
| `Store.AlertStore.IngestAlert` | internal/postgres/store.go:529-633 | One delivery, create or refresh, reopen, undo a close, computes the specified new tables |
| `Store.AlertStore.Ingest` | internal/postgres/store.go:508-647 | The payload loop computes the fold of single deliveries |
| `Store.AlertStore.ExpireStaleBatch` | internal/postgres/expiry.go:79-177 | One batch expires exactly the selected alerts and returns how many |
| `Store.AlertStore.ExpireStaleAlerts` | internal/postgres/expiry.go:62-77 | A negative default is refused with nothing changed; otherwise the loop ends and computes the specified sweep and its total |
| `Store.AlertStore.ReconcileRow` | internal/postgres/reconcile.go:145-276 | The branches for one stored row compute its verdict, its events and its count |
| `Store.AlertStore.ReconcileSource` | internal/postgres/reconcile.go:65-311 | The row loop and the final stamp compute the specified pass and its four counts |
| `Store.AlertStore.AcknowledgeAlert` | internal/postgres/store.go:820-890 | Not found when absent or out of scope, nothing when already so, otherwise the row, one entry and one event |
| `Store.AlertStore.CloseAlert` | internal/postgres/close.go:30-102 | The same for closing and reopening by hand |
| `Store.AlertStore.AssignAlert` | internal/postgres/assign.go:29-123 | Not found for callers who can operate nothing, invalid for an owner still too long once trimmed; otherwise not found, nothing, or the row, one entry and one event under the trimmed owner |
| `Store.AlertStore.ApplyToAlerts` | internal/postgres/bulk.go:47-132 | Refuses callers who can operate nothing and selections that are empty or too large; otherwise the loop with its seen set applies the single action to each distinct id in first-occurrence order |
| `Authorization.MatchGroup` | internal/auth/authorization.go:194-217 | True exactly when every matcher holds; an absent label fails negative matchers too |
| `Authorization.CanReadLabels` | internal/auth/authorization.go:239-279 | True exactly when anonymous or some reading grant's matchers all hold |
| `Authorization.CanOperateLabels` | internal/auth/authorization.go:186-223 | True exactly when some operating grant's matchers all hold |
| `Authorization.OperableIsReadable` | internal/auth/authorization.go:172-279 | Whatever a principal may act on they may read, and they count as an operator |
| `Authorization.ReadersAre` | internal/auth/authorization.go:239-279 | Anonymous callers and administrators read every alert, viewers and operators those whose labels satisfy all matchers of one grant |
| `Authorization.OperatorsAre` | internal/auth/authorization.go:184-223 | Administrators act on every alert, operators on those whose labels satisfy all matchers of one grant, signed in or not |
| `Authorization.ActorsAre` | internal/auth/authorization.go:165-182 | Only callers with an operator or administrator grant can operate at all |
| `View.ViewMatchers` | internal/auth/view.go:20-47 | The loop collects scoped grants only beside an unrestricted one, then the non-empty personal groups; no collected group is empty |
| `View.MatchViewGroups` | internal/alerts/view.go:66-97 | True exactly when some group with selectors matches throughout |
| `View.ViewGroupsAre` | internal/auth/view.go:20-47 | A selector is in a caller's view exactly when it is not empty, they are not anonymous, and it is their own or, beside an unrestricted grant, one of their grants' |
| `View.ViewClassifies` | internal/alerts/view.go:106-118 | Which of the four marks an alert gets under a view |
| `View.ViewIncludes` | internal/alerts/view.go:66-118 | A view lets everything through unless it was asked for, has selectors and filters; then what a selector matches, and critical alerts unless they are filtered too |
| `QueryCompiler.GroupCondition` | internal/postgres/store.go:1183-1194 | The conjunction built for a matcher group, against its arguments and any appended later, is true, and otherwise false, exactly as the group matches; it is never unknown |
| `QueryCompiler.ReadAccessCondition` | internal/postgres/store.go:1167-1200 | The compiled read condition, for any initial and later arguments, decides exactly what CanReadLabels decides |
| `QueryCompiler.OperateAccessCondition` | internal/postgres/store.go:1202-1232 | The compiled operate condition decides exactly what CanOperateLabels decides |
| `QueryCompiler.VisibleCondition` | internal/postgres/view.go:76-97 | The compiled view condition decides exactly what the view's classification shows, the critical bypass included |
| `QueryCompiler.AlertFiltersWithView` | internal/postgres/store.go:1073-1131 | The whole WHERE, against its arguments and any appended later, selects a row if and only if scope, view (or its inversion) and the query's own filters want it |
| `QueryCompiler.StreamCondition` | internal/postgres/store.go:920-943 | The poll's condition selects an event if and only if its labels are visible or its previous labels were |
| `QueryCompiler.InReadersView` | internal/postgres/store.go:963-983 | Visible to a stream is what its reader may read and the view asked for lets through |
| `QueryCompiler.ViewPartitions` | internal/postgres/view.go:102-121 | Filtering, listed plus hidden is everything in scope; showing all, listed is everything in scope; hidden is always the number classified outside |
| `QueryCompiler.ListTotals` | internal/postgres/view.go:102-121 | The two counts a listing reports have that meaning for every principal, query and table |
| `Stream.NothingMissing` | internal/postgres/stream_retention.go:62-91 | Above the watermark the surviving table has every event ever written |
| `Stream.PruneKeepsServer` | internal/postgres/stream_retention.go:57-101 | A batch keeps every deleted id at or below the watermark, the watermark a deleted id, and never moves it back |
| `Stream.WindowIsExact` | internal/postgres/store.go:901-912 | A poll's second statement returns exactly the rows its first one measured, at most the limit, and it stands still if and only if nothing survives beyond its position |
| `Stream.PollKeepsBooks` | internal/httpapi/server.go:758-828 | A turn of the loop either announces the stretch it skips or delivers all of it |
| `Stream.PollAddsWhatItOwes` | internal/httpapi/server.go:758-828 | Past cursor 0 a turn adds the same frames to what was delivered and to what the full log owes |
| `Stream.NoSilentLoss` | internal/httpapi/server.go:758-832 | Over every interleaving of commits, prunes and polls from a positive cursor, what was delivered is what the full log owes for the stretches served, which with the announced gaps cover everything up to the position |
| `Stream.SentInOrder` | internal/httpapi/server.go:801-823 | Frames carry strictly increasing ids between the opening cursor and the position |
| `Stream.EveryEventAccounted` | internal/httpapi/server.go:758-832 | Every event up to the position lies on a stretch that was announced as a gap, or whose reader was sent it, as itself if its alert is visible to them and as a removal if it only was |
| `Stream.FramesTellAll` | internal/postgres/store.go:963-983 | Every event whose alert is visible to the reader is sent as itself with its view mark, every event whose alert only was visible as a removal |
| `Stream.FramesTellNoMore` | internal/postgres/store.go:963-983 | Each frame sent tells of an event of the window: the event if its alert is visible, its removal if it only was |
| `Stream.DeliveredOnceOrAnnounced` | internal/httpapi/server.go:758-832 | At every moment of every run: in order, every event so accounted for, and no frame that does not tell of an event on a stretch served |
| `Stream.ServedIsOwedExactly` | internal/postgres/store.go:935-943 | What surviving rows yield is what the full log owes if and only if nothing the reader could see was deleted from the window |
| `Stream.CursorZeroLosesExactly` | internal/httpapi/server.go:780-797 | Over every run of a stream opened at 0: nothing is sent or owed until a poll first moves; from then on everything owed was sent if and only if, at that poll, nothing its reader could see had been deleted from its window, and that window is never announced as a gap; a watermark of zero then is enough |
| `Stream.CursorZeroCanLose` | internal/httpapi/server.go:780-797 | Commit, prune, commit, poll from an empty table: the stream has one leg, no gap, and has not sent what it owes |
| `Stream.SplitPollLosesExactly` | internal/postgres/store.go:901-943 | From any cursor not due a gap, 0 included, with any steps between the two statements and any before the next turn: the window is served whole if and only if nothing visible had been deleted from it by the second statement, and both turns are silent about a loss if and only if there is one and the watermark is still within the window; past the watermark only deletions between the statements count |
| `Stream.SplitPollCanLose` | internal/postgres/store.go:901-943 | Three commits, a stream at the first, a prune between its statements: such a silent loss |
| `StreamStore.BatchLeavesRest` | internal/postgres/stream_retention.go:66-81 | A batch takes the oldest ids and leaves the rest, in order, to the next |
| `StreamStore.BatchThenAll` | internal/postgres/stream_retention.go:45-54 | A batch followed by everything is everything at once, watermark included |
| `StreamStore.PruneAllIsExact` | internal/postgres/stream_retention.go:36-55 | An event survives a full prune if and only if it survived before and is not older than the cutoff |
| `StreamStore.EventTable.PruneStreamBatch` | internal/postgres/stream_retention.go:57-101 | Deletes the specified batch, advances the watermark, returns how many went |
| `StreamStore.EventTable.PruneStreamEvents` | internal/postgres/stream_retention.go:36-55 | Negative retention is refused, zero does nothing, otherwise the loop ends, equals the one-shot prune and counts it |
| `StreamStore.EventTable.StreamEvents` | internal/postgres/store.go:896-988 | The row loop over the compiled condition yields, for its window, an ordinary frame for what is visible and a removal for what was |
| `StreamStore.Connection.Turn` | internal/httpapi/server.go:758-828 | A turn announces a gap once and moves past it, or serves the window and moves to its end |
| `Convergence.HearOne` | internal/postgres/store.go:969-981 | One event either brings a console to the truth about an alert or leaves both where they were |
| `Convergence.BetweenIsSlice` | internal/postgres/store.go:901-943 | Whatever holes the ids have, the events between two ids are the stretch of the log between the places of those ids |
| `Convergence.HolesAreLeft` | internal/postgres/store.go:990-1021 | Events committed together get increasing ids, each past the hole left before it, and are otherwise as written |
| `Convergence.ReplayConverges` | internal/postgres/store.go:660-675 | Replaying from a cursor read before the list, a console shows at each moment the truth then, or, before the list's moment, the truth of the list |
| `Convergence.ResumeIsExact` | internal/httpapi/server.go:1288-1301 | Cutting a delivery anywhere and resuming from its last id loses and repeats nothing |
| `Convergence.DueSplits` | web/src/hooks/useAlerts.ts:322-352 | Wherever a delivery is divided, the frames after that place are those due from its last id on, so a list read in between loses none |
| `Convergence.StandingStillIsCaughtUp` | internal/postgres/store.go:910-912 | Away from cursor 0, a turn neither moves nor announces a gap if and only if the console has heard everything written |
| `Convergence.SnapshotCursorIs` | internal/postgres/grouping.go:357-368 | The cursor handed out with a list is the highest surviving id the caller may read about, or could before, and 0 if there is none |
| `Convergence.RunOk` | internal/postgres/grouping.go:357-368 | Every run of writers, retention, snapshot reads, polls, reconnections and re-read lists keeps the system's invariant |
| `Convergence.ConsoleConverges` | internal/postgres/store.go:892-988 | In every run, whatever holes the ids have, lists read again under a live stream included, a console that has caught up, heard of no gap and is whole holds exactly the alerts whose current labels are in scope and in view |
| `Convergence.QuietListIsCurrent` | web/src/hooks/useAlerts.ts:322-352 | A settled console that read its list again after the last frame it was sent needs no frames: the list is exactly what is in sight |
| `Convergence.WholeWhen` | internal/httpapi/server.go:780-797 | A console opened at a positive cursor is whole in every run; any whole console stays so through a poll away from 0, or one that finds nothing deleted |
| `Convergence.ConsoleCanMiss` | internal/httpapi/server.go:780-797 | Two alerts delivered to a fresh server, the event of the first pruned, a console opened before and polling after: caught up, no gap heard, and the first alert in sight but not held |
| `OverTheWire.CutIsPrefix` | desktop/src-tauri/src/sse.rs:34-47 | Text cut off anywhere yields a prefix of the events of the frames written, all of them if all the text came |
| `OverTheWire.FramesAreNamed` | internal/httpapi/server.go:801-822 | On the wire a frame carries its own id and body, under the name of what happened to the alert, or as a removal |
| `OverTheWire.TextArrives` | desktop/src-tauri/src/sse.rs:34-47 | What arrives is what was coming, piece by piece, parsed and heard |
| `OverTheWire.TurnWrites` | internal/httpapi/server.go:780-823 | A turn writes a gap exactly when one is due, and otherwise every new frame as its event, in order |
| `OverTheWire.BreakLoses` | internal/httpapi/server.go:738-742 | A broken connection loses what was still coming, the console keeps what it shows and its cursor, and the next connection begins with a greeting |
| `OverTheWire.KeepAliveWrites` | internal/httpapi/server.go:832-834 | A keepalive is a comment |
| `OverTheWire.ConsoleConvergesOverTheWire` | internal/httpapi/server.go:741-834 | Over every run of writers, retention, polls, keepalives, connections broken anywhere, lists read again, and text arriving in pieces of any size: once all text written has arrived, a settled console shows exactly the alerts in sight |
| `OverTheWire.TheRestArrives` | internal/httpapi/server.go:741-834 | From any moment of any such run the text still coming can arrive, and once it has a settled console shows exactly what is in sight |
| `OverTheWire.MoveIsStep` | internal/httpapi/server.go:754-834 | Whatever happens to the text, the system underneath makes one of its own steps or none |
| `OverTheWire.LastReadIsResume` | web/src/alerts/stream.ts:316-332 | At every moment of every such run, what is due from the last id the console read is exactly what was sent and not heard |
| `Reconciler.CountersFollowReadings` | cmd/promview/reconcile.go:61-188 | In every run every miss counter is the length of the current streak of trustworthy readings in which the alert was stored firing and absent |
| `Reconciler.StreakIsPending` | cmd/promview/reconcile.go:138-150 | A streak is alive if and only if the latest reading that said anything was an absence not yet acted upon |
| `Reconciler.MissingExactly` | cmd/promview/reconcile.go:138-150 | A pass declares an alert missing if and only if it is absent now and such a streak is alive |
| `Reconciler.ResolvedOnlyAfterTwoReadings` | cmd/promview/reconcile.go:61-188 | In every run, with failed, empty, delisting and refresh passes anywhere, a pass resolves an alert only at the second of two consecutive absences, the first of which was not itself acted upon: readings that list something but not this alert, stored firing, with no reading or delisting of its source in between |
| `Reconciler.EmptyReadingEndsNothing` | cmd/promview/reconcile.go:109-137 | A pass that lists nothing while alerts are stored firing ends nothing, whatever was counted, and the counting starts over |
| `Reconciler.FirstReadingEndsNothing` | cmd/promview/reconcile.go:61-160 | The first reading of a source, or the first after it was delisted, ends nothing |
| `Reconciler.TwoReadingsEnd` | cmd/promview/reconcile.go:109-160 | Two passes in a row that list something but not this alert, stored firing both times, do end it |
| `Reconciler.OnlyPassesCount` | cmd/promview/reconcile.go:61-109 | A listing forgets exactly the sources it leaves out; failed reads and refreshes count nothing |
| `Reconciler.EndingNeedsTwo` | cmd/promview/silence_refresh.go:138-190 | Of all observations only an accepted pass over the alert's own source, at such a second absence, can end it, and a refresh never does |
| `Reconciler.PassEndsExactly` | cmd/promview/reconcile.go:138-188 | An accepted pass ends a firing alert of its source if and only if its reading is such a second absence |
| `Reconciler.TickIsRun` | cmd/promview/reconcile.go:61-77 | A tick, delisting and visits, is a run of the machine continued from any run, so all theorems about runs hold of it |
| `Reconciler.TickEndsFairly` | cmd/promview/reconcile.go:61-188 | After any run, a tick over any sources with any replies ends an alert only at a second absence in a row read during that tick, and never changes which alert a row is |
| `Reconciler.NextVisit` | cmd/promview/reconcile.go:73-107 | Within a tick a source that answered is passed over with what it answered and what is stored firing then; one that did not is only noted |
| `Reconciler.PassIsIdempotent` | internal/postgres/reconcile.go:65-311 | The readings the loop makes never contradict themselves, so repeating any pass changes nothing |
| `Reconciler.StoredIsExact` | internal/postgres/reconcile.go:339-359 | The fingerprints diffed are exactly the firing ones of that source |
| `Reconciler.StoredHasNoRepeats` | internal/postgres/reconcile.go:339-359 | Unique identities mean one reading counts an alert once |
| `Reconciler.MissCounters.CountAbsences` | cmd/promview/reconcile.go:138-150 | The loop clears present alerts, adds one to each absent one, and collects those at two or more |
| `Reconciler.MissCounters.CountReading` | cmd/promview/reconcile.go:109-160 | A reading leaves counters for exactly the absent stored alerts, none if untrustworthy, and the missing set that follows from them |
| `Reconciler.MissCounters.ReconcileSource` | cmd/promview/reconcile.go:79-188 | A visit computes the specified counters and tables, and counters stay equal to streaks; a failed read changes neither |
| `Reconciler.MissCounters.ReconcileOnce` | cmd/promview/reconcile.go:61-77 | A tick forgets delisted sources and visits the rest in any order; a failed listing changes nothing |
| `Reconciler.SyncSuppression` | cmd/promview/silence_refresh.go:138-190 | The delayed re-reads stop at a vanished source, skip failed reads, and end no alert |
| `Reconciler.LastRereadCounts` | cmd/promview/silence_refresh.go:138-190 | After the delayed re-reads, every unresolved alert on the last list the store accepted is firing and suppressed as that list says |
| `Sse.SseParser.Push` | desktop/src-tauri/src/sse.rs:34-47 | Buffering and draining lines equals reading the text character by character |
| `Sse.SseParser.OneLine` | desktop/src-tauri/src/sse.rs:49-71 | A line sets a field, adds data, is ignored, or dispatches, as specified |
| `Sse.SseParser.DispatchEvent` | desktop/src-tauri/src/sse.rs:73-85 | A blank line yields what was gathered and clears it, keeping the id, or yields nothing |
| `Sse.ChunksDoNotMatter` | desktop/src-tauri/src/sse.rs:34-47 | Any split of the text gives the same events and state |
| `Sse.FeedWire` | internal/httpapi/server.go:822 | Each frame the server writes reads back as the event it meant, a gap carrying the previous id, a comment nothing |
| `Sse.EventText` | internal/httpapi/server.go:822 | The text of an event: id, event and data fields, one a line, and a blank line |
| `Sse.StreamRoundTrip` | internal/httpapi/server.go:741-834 | For every sequence of frames and every split, the parser's output is exactly those events in order |
| `Sse.CutTextIsPrefix` | desktop/src-tauri/src/sse.rs:34-47 | Text broken off anywhere reads as whole frames from the front, and never as half of one |
| `Sse.DataSurvivesExactly` | desktop/src-tauri/src/sse.rs:40-47 | A frame's data arrives whole if and only if it has no newline and no trailing carriage return |
| `Sse.SplitMeans` | desktop/src-tauri/src/sse.rs:49-62 | A line is cut at its first colon, its value loses one leading space, and without a colon it is empty |
| `Sse.BlankMeans` | desktop/src-tauri/src/sse.rs:73-85 | A blank line ends an event if it has a name or data: the data lines joined by newlines, under the last id; otherwise it means nothing |
| `Sse.ReadIdIsCursor` | internal/httpapi/server.go:1288-1301 | The id a client last read, sent as parameter or header, is accepted and is the id of that event |
| `Sse.CursorsAsked` | internal/httpapi/server.go:1288-1301 | The cursor is the query's, else the header's, else the beginning: decimal, at most with a plus sign, within 63 bits, not negative |
| `Sse.NoOtherCursors` | internal/httpapi/server.go:1288-1301 | Text with anything but digits after a sign is refused |
| `Limiter.LoginLimiter.BucketLocked` | internal/auth/limiter.go:147-177 | Finds or creates the refilled bucket behind a limited key and touches no other |
| `Limiter.LoginLimiter.Allow` | internal/auth/limiter.go:87-116 | Allows exactly when every limited key has a token, spends one from each then, nothing otherwise, and reports the longest wait |
| `Limiter.LoginLimiter.Reset` | internal/auth/limiter.go:121-127 | Forgets exactly these keys |
| `Limiter.ResetFills` | internal/auth/limiter.go:121-127 | After a reset every one of its keys is full at any time, and every other key as before |
| `Limiter.ResetLetsIn` | internal/auth/credentials.go:200-204 | After a reset the next attempt on those keys is let in |
| `Limiter.LoginLimiter.Sweep` | internal/auth/limiter.go:133-145 | Drops exactly the buckets last seen before the cutoff and counts them |
| `Limiter.PrefixOfLoginKey` | internal/auth/limiter.go:187-194 | A key is counted under the budget it was filed under, whatever the name contains |
| `Limiter.SignInKeysDiffer` | internal/auth/credentials.go:144-150 | The two keys of one sign-in never coincide |
| `Limiter.LevelLater` | internal/auth/limiter.go:167-177 | Between attempts a level rises at the refill rate up to the burst, and stays within bounds |
| `Limiter.AllowLevel` | internal/auth/limiter.go:95-115 | An attempt costs each of its keys one token if it passes and costs no other key anything |
| `Limiter.RefusalSpendsNothing` | internal/auth/limiter.go:109-111 | A refusal by any key changes no level of any key, at that time or any later one |
| `Limiter.LimitedExactly` | internal/auth/limiter.go:147-157 | A key is limited exactly when its prefix has a budget with a burst and a refill, and then by that budget |
| `Limiter.RunKeepsTokens` | internal/auth/limiter.go:121-177 | In every run with distinct keys per attempt, reset and swept at any times and on any clock, one that goes back included, tokens stay between 0 and Burst |
| `Limiter.RunKeepsBounds` | internal/auth/limiter.go:121-177 | In every run with distinct keys per attempt and a clock that does not go back, reset and swept at any times, tokens stay between 0 and Burst and no bucket was seen in the future |
| `Limiter.TokensConserved` | internal/auth/limiter.go:87-177 | In every run whose sweeps wait out a key's budget, attempts on it let through plus tokens left never exceed tokens at the start plus the refill since plus one burst for each reset of it |
| `Limiter.RateBound` | internal/auth/limiter.go:87-177 | After any run, reset and swept at any times, in any stretch of length T whose own sweeps wait out a key's budget at most Burst + T/Refill attempts on that key pass, and one Burst more for each reset of it in the stretch |
| `Limiter.RateHoldsExactly` | internal/auth/limiter.go:87-177 | For every idle time and key: that bound holds in all runs swept at it, resets included, if and only if Burst times Refill is at most one nanosecond more than it |
| `Limiter.ShortSweepBreaksRate` | internal/auth/limiter.go:133-145 | A shorter idle time breaks that bound: a run gets twice the burst through in less time than one burst refills |
| `Limiter.SweepsAreUnobservable` | internal/auth/limiter.go:133-145 | When idle waits out every usable budget, a limiter swept at any times gives every answer and wait an unswept one with the same attempts and resets gives |
| `Limiter.SweepsUnobservableExactly` | internal/auth/limiter.go:133-145 | For every set of budgets and every idle time: all runs of attempts and resets with distinct keys and a forward clock, swept at that idle time, get the answers of the unswept run if and only if Burst times Refill is at most one nanosecond more than it for every usable budget |
| `Limiter.ShortSweepIsSeen` | internal/auth/limiter.go:133-145 | With a shorter idle time, using a budget up, sweeping and using it up again gets different answers than without the sweep |
| `Limiter.HourIsLongIdle` | cmd/promview/main.go:389-400 | With the shipped budgets and the hour the server uses, sweeping is unobservable in every run, successful sign-ins included |
| `Limiter.WaitingIsEnough` | internal/auth/credentials.go:155-157 | Whoever waits the advertised whole seconds is allowed if nobody else was let through on those keys meanwhile, whatever else was attempted, refused, reset or swept |
| `Limiter.WaitIsNeeded` | internal/auth/limiter.go:95-111 | With no other call, nobody is let in on those keys before the wait advertised is over |
| `Keyset.OrderedStrictly` | internal/postgres/store.go:686-692 | Ordering by sort key and tiebreak lists exactly the selected rows, strictly ordered |
| `Keyset.AfterIsTail` | internal/postgres/store.go:677-684 | Whatever a cursor says, what it leaves of a listing is a tail of it |
| `Keyset.SoundWalkEnds` | internal/postgres/store.go:677-738 | With cursors that leave exactly the rows after their own, the walk ends having seen the whole listing in order |
| `Keyset.WalkExactly` | internal/postgres/store.go:677-738 | The pages are consecutive slices of the listing if and only if every row ending a page makes such a cursor |
| `Keyset.WalkEndsExactly` | internal/postgres/store.go:677-738 | The walk ends with exactly the listing if and only if every row ending a page makes such a cursor |
| `Paging.ListingIsExact` | internal/postgres/store.go:664-692 | A row is listed if and only if scope, view and query want it |
| `Paging.ListedAre` | internal/postgres/store.go:1073-1131 | In the row's own terms: listed exactly when readable, in view, and of the source, status, severity, team, suppression and labels asked for; closed alerts only when asked for |
| `Paging.ListingIsSorted` | internal/postgres/store.go:31-48 | Of two rows listed the earlier is the later seen or started, at least as severe, or not after the other in text, or the other way round when ascending |
| `Paging.RefusedValues` | internal/httpapi/server.go:1227-1238 | The cursor values refused are severities but 0 to 3, and times that are none |
| `Paging.CursorMatchesSortKeyExactly` | internal/postgres/store.go:1133-1165 | A cursor reads back as its row's sort key if and only if the row has no present and empty severity label under a severity sort |
| `Paging.OwnCursorIsValid` | internal/httpapi/server.go:1227-1238 | The server accepts the value of every cursor it hands out |
| `Paging.SoundExactly` | internal/postgres/store.go:34-47 | A row's cursor is right if and only if it is ranked alike by Go and SQL, or, ascending, everything later lies beyond the wrong rank |
| `Paging.FlatPagingExactly` | internal/postgres/store.go:677-738 | For every table, query, sort, order and limit, following cursors lists exactly the wanted rows in order if and only if no page ends at a row with a wrong cursor |
| `Paging.FlatPagingEnds` | internal/postgres/store.go:677-738 | The walk ends with every wanted row listed once, in order, if and only if no page ends at a row with a wrong cursor |
| `Paging.NoEmptySeverityIsHarmless` | internal/postgres/store.go:34-47 | A table in which no listed row has a present and empty severity label meets that condition at every page size |
| `Paging.EmptySeverityBreaksPaging` | internal/postgres/store.go:1139-1149 | Any two distinct new alerts with an empty severity label, delivered and paged one at a time, worst first: the walk never ends, and its pages are not slices of the listing |
| `Paging.EmptySeverityExample` | internal/postgres/store.go:34-35 | Two such alerts exist, for a reader who is listed them |
| `Paging.SelectIds` | internal/postgres/store.go:664-692 | Filtering by the compiled condition keeps exactly the wanted rows |
| `Paging.ListAlerts` | internal/postgres/store.go:649-748 | One request returns the page the walk expects and a cursor whose text reads back as the mark the walk expects |
| `Grouping.GroupKeysOnce` | internal/postgres/grouping.go:151-156 | No group is listed twice |
| `Grouping.GroupsHaveMembers` | internal/postgres/grouping.go:151-156 | A group exists if and only if some alert has its key |
| `Grouping.MembersAre` | internal/postgres/grouping.go:130-156 | The members of a group are the alerts listed whose source and labels, an absent one read as empty, are its key, each once |
| `Grouping.TotalsAddUp` | internal/postgres/grouping.go:133-156 | Group totals add up to the alert total |
| `Grouping.BucketsAddUp` | internal/postgres/grouping.go:146-203 | The severity counts a group reports add up to its total |
| `Grouping.BucketsAreExact` | internal/postgres/grouping.go:146-203 | Under critical, warning, info and other a group reports how many of its members have that severity, and nothing for none |
| `Grouping.ExtremeIsExtreme` | internal/postgres/grouping.go:273-278 | No member's sort key lies beyond the group's aggregate, maximum or minimum |
| `Grouping.GroupLeads` | internal/postgres/grouping.go:132-141 | A group reports the worst severity among its members and the latest delivery of any of them |
| `Grouping.GroupCursorIsMark` | internal/postgres/grouping.go:331-342 | A group's cursor always reads back as the group's own mark |
| `Grouping.GroupPagingEnds` | internal/postgres/grouping.go:85-233 | Under the default or any explicit sort the walk over groups ends with every group exactly once |
| `Grouping.PageTotalsAddUp` | internal/postgres/grouping.go:85-233 | The totals of all groups on all pages add up to the alerts the query keeps |
| `Grouping.OpeningReturnsTheGroup` | internal/postgres/store.go:1114-1126 | Querying again with equality filters on a group's key returns exactly its members, as many as its total |
| `Grouping.GroupAlerts` | internal/postgres/grouping.go:34-244 | Refuses exactly the invalid groupings, limits below one, an order without a sort, and cursors of another query, grouping, sort or order or without a usable position; otherwise returns the page the walk expects, each group the summary of its members, and a cursor that reads back as expected and would be accepted |
| `Grouping.RequestsTaken` | internal/postgres/grouping.go:34-54 | Which groupings are taken: one to three different names, the source or label names, a limit of at least one, and an order only with a sort |
| `Grouping.CursorsTaken` | internal/httpapi/server.go:1240-1286 | Which group cursors are taken: of the same query, as many names, the same sort and order, with a time or a value of that sort |
| `Silence.CommonIsShared` | internal/postgres/silence.go:130-136 | The database's count, minimum and maximum find exactly the label pairs every member carries |
| `Silence.MatchIsNarrowest` | internal/postgres/silence.go:171-181 | The match covers every member, carries everything they all carry, and nothing else but the key |
| `Silence.NarrowerExactly` | internal/alerts/silence.go:29-37 | Of two matches covering the same members, one silences nothing the other would not if and only if it names every label the other names |
| `Silence.NarrowestOfNonEmpty` | internal/alerts/silence.go:29-37 | Whatever the match covers, so does every other covering match that asks no label to be empty |
| `Silence.NarrowestExactly` | internal/alerts/silence.go:29-37 | The match is the narrowest of all covering matches over labels its members carry if and only if no label outside the key is empty at one member and absent at another, and never otherwise set |
| `Silence.HalfEmptyExample` | internal/postgres/silence.go:130-136 | Two members for which a narrower covering match exists and is not written |
| `Silence.TargetsAreNarrowest` | internal/postgres/silence.go:85-193 | Every target of every group: covers its members, absent labels read as empty; carries all they share and the key, nothing else; is narrowest against every non-empty covering match, and outright under the exact condition |
| `Silence.ScopedCount` | internal/postgres/silence.go:119-129 | ... each counted once |
| `Silence.ScopedAre` | internal/postgres/silence.go:83-125 | The labels matched at a source are those of the firing alerts there that the caller may act on and that have the group's key |
| `Silence.EveryMemberIsCovered` | internal/postgres/silence.go:119-182 | Every firing member in the operator's scope at a writable source is covered by that source's target |
| `Silence.CommonLabels` | internal/alerts/silence.go:55-71 | The preview is exactly what all targets agree on |
| `Silence.PreviewIsWider` | internal/alerts/silence.go:43-51 | Whatever a target's match covers the preview covers, so what is written is at least as narrow |
| `Silence.SilenceScopeForGroup` | internal/postgres/silence.go:72-194 | Not found, invalid, no target, or one target per writable source in order with the preview of them all |
| `Silence.RepliesMean` | internal/postgres/silence.go:143-192 | Not found means nobody is to be silenced at a configured source, no target that none of them can be written to |
| `Silence.GroupsTaken` | internal/postgres/silence.go:81-112 | Which groups can be silenced: a valid grouping with a value for every name, but not the source alone |

## Left out

- SQL text: conditions are trees, so quoting, parentheses and placeholder syntax are not modelled; that every argument is referenced is not claimed.
- Regular expressions, collations, JSON and UTF-8 decoding: parameters or plain text.
- PostgreSQL row locks, SKIP LOCKED, advisory locks and isolation: transactions are serial atomic steps.
- Store.AlertStore.InsertStreamEvent: numbers events without holes; Stream.Write and Convergence.Next put them back.
- Columns that nothing proved here reads: generator and external URLs, raw payloads, last delivery time.
- The bigint range of a `timeout` label: its digits are read as an unbounded number.
- Expiry.OldestFirst: alerts last seen at the same instant are taken in id order, where the database may choose; no other claim depends on it.
- Validation and trimming of note bodies, and history imported by a migration.
- Re-authentication and role changes during a stream: Stream.dfy lets every turn use a different reader; Convergence.dfy, whose claim is about one reader, fixes it.
- Convergence.ConsoleConverges: the list is the set of ids in scope and view; the default hiding of closed alerts and other query filters do not apply to the stream and are not part of it.
- How the web console schedules re-reading its list: the model's console applies each frame to the list it holds and may read the list again at any moment, in one step; debouncing, overlapping requests, requests that fail and moving the resume position to a later list's cursor are not modelled.
- OverTheWire.LastReadIsResume: not after a gap; a console that hears of one reads a cursor and a list anew.
- How the identity hash that binds a cursor to its query is computed; it is a parameter, and it does not cover the closed filter.
- Grouping.GroupAlerts: sort and order are values of a type, so refusing unknown names for them is left to their parsing.
- A group's acknowledged and silenced counts, earliest start and sample alert, and the number of alerts per severity: further aggregates of the same kind.
- Grouping.OpeningReturnsTheGroup: assumes no source slug is empty, which source validation guarantees, because an empty source in a query means any source.
- Limiter.RateBound: a repeated key in one attempt and a clock that goes back are excluded; sign-in keys are distinct by Limiter.SignInKeysDiffer.
- Silencing a single alert, removing silences and the silence inventory.
- HTTP handlers, sessions, OIDC, LDAP, password hashing, configuration, migrations, metrics and the command line.
- The web console, tray, notifications and update check.
