# Alert delivery, verified

AlertLoop takes reports of incidents, sends each to the channels its routing
rules choose, and tells the same channels when the incident is over. Two tables
carry all of it: events and delivery attempts. They are changed by short
transactions that come concurrently from API requests, several workers and a
reaper, and no single function enforces what the service promises: one recovery
for each alert that was not cancelled, never a "resolved" before its "down",
silence while an incident is muted.

This project models those transactions and proves the promises over every run.

* `Domain`, `Tables`: the rows, and one function for each transaction.
* `Protocol`: the system. Its state is the tables, the sends in flight (each with
  the worker's own copy of its row, so a result from an old claim can land on a
  row that was claimed again), the log of transmissions, and a record of the past
  that no table holds. `Next` is one step, `Run` any list of steps in any order.
* `Invariants`, `Effects`, `LinkProofs`, `RowProofs`, `RecoveryProofs`,
  `OrderProofs`, `ClaimProofs`, `CopyProofs`, `OnceProofs`, `Finality`: what every
  step keeps, group by group.
* `Outcomes`: what each step does, said of the rows alone: which change, to what,
  and which are added.
* `Delivery`, `Progress`, `Noise`: the promises, for every reachable state and every
  run.
* `Services`, `Ingest`: the service operations as series of store calls, with an
  arbitrary list of other steps in every gap. A `World` is the system as the n-th
  call finds it; every way the others may interfere is one
  (`Services.AnyInterference`).
* `StoreProgram`, `WorkerProgram`, `SlotScheduler`: the store, the worker and its
  slots as programs that update state in place, each held to the functions above.
* `TextOrder`, `Timestamps`, `Cursor`, `Paging`: listing page by page.
* `EditDistance`, `Detours`, `Suggestions`: the distance between configuration
  keys, its triangle inequality, and the suggestion made from it.
* `Text`, `SqlLexer`, `Splitter`: splitting a migration file into statements.
* `RateLimit`: the evicting keyed token-bucket limiter.
* `Ntfy`: the size of an ntfy message.

Assumptions. Row identifiers are random in the program; here a new one is any
number never given out before. A transaction is one step: the row locks and
conditional updates make it so (`internal/storage/sql_store.go:374-376`,
`internal/storage/sql_store.go:891-902`). An open event's key is unique by the
partial index in `internal/storage/migrations/sqlite/0003_incident_lifecycle.sql`,
and a dead letter has one copy by the index in
`internal/storage/migrations/sqlite/0007_fallback.sql`. There are no recoveries
from before version 0.8.0, which follow no alert, and no timestamps in an older
layout. A routing rule may name a channel twice, since nothing checks it: routes
are lists of channels. Only the bounds in `Noise` assume that none does.

Where a wished-for property does not hold of the code in general, the exact
condition is proved:

* Dropping idle buckets cannot be seen, and the usual window bound holds, if and
  only if ten minutes fill an empty bucket (`RateLimit.EvictionUnseenIff`,
  `RateLimit.WindowBoundIff`). With a lower rate, a burst, a request of another
  key just after ten minutes, and the burst again are all admitted
  (`RateLimit.LimiterTwice`).
* An ntfy body fits its limit if the first encoding did, and otherwise if and only
  if there is room for the truncation mark (`Ntfy.BodyFitsIff`). The comment in the
  code says that cutting the excess is always enough; a topic and a link that
  leave no room for the mark make it fail for every text longer than the mark
  (`Ntfy.TooLong`, `Ntfy.EveryTextFitsIff`).
* Stored times order as text if and only if their years have the same width or the
  narrower does not exceed the leading digits of the wider
  (`Timestamps.TextOrdersAsTimeIff`). All times up to the end of a year do so if
  and only if the year is not past 9999 (`Timestamps.OrderedUntilIff`).
* A way by a third key can be shorter, for the distance edits no character twice:
  the triangle inequality holds for all texts over a set of characters if and only
  if the set has two characters at most (`Detours.NoShorterDetourIff`). For all
  texts a detour saves no more than its shorter leg
  (`Detours.DetourSavesAtMostShorterLeg`), and three characters are enough to save
  that much (`Detours.ThreeCharsDetour`).
* An attempt can still be delivered, whatever has happened, if and only if it is
  not cancelled (`Progress.DeliverableIffNotCancelled`).
* A new event is stored if and only if no open event holds its key at the look and
  at the insert; a report is refused with a conflict if and only if one holds it
  just at the insert, and none before it or at the look after it
  (`Ingest.CreateWithDeliveries`).
* Closing by key can answer that nothing was open although the open event was read:
  "already closed" if and only if that event is closed at the last look, "nothing
  to close" if and only if it is gone by then (`Ingest.NotClosedIff`).
* A change of state fails only when the state last read does not allow it, the
  event is gone, or each of three updates was overtaken; left alone, it fails if
  and only if the state does not allow it (`Services.Transition`,
  `Services.SteadyTransition`).
* A report that raises the severity leaves every routed channel alerted if and only
  if it is a rise both over the severity that was read and over the one stored, or
  they all were alerted before (`Ingest.RoutedAreAlertedIff`). A report that lowers
  the severity between the two makes a rise alert nobody
  (`Ingest.LoweredInBetween`).
* An event keeps one direct alert per channel if and only if its route, or the
  missing part of the route of a rise, names no channel twice
  (`Noise.OncePerChannelIffDuplicateFree`, `Noise.OnceAfterRiseIff`); otherwise
  there is no bound at all (`Noise.NoiseIsUnbounded`).

## Model

| member | source | states |
|---|---|---|
| `Delivery.StepKeepsInv` | internal/storage/sql_store.go:137-950 | every transaction, send, loss of a worker and sweep keeps all ten groups of invariants together |
| `Delivery.Reachable` | internal/storage/sql_store.go:137-950 | all invariants hold after any interleaving of any steps from an empty store |
| `Delivery.RecoveriesAreExact` | internal/storage/sql_store.go:348-358 | in every reachable state `recovery_for` is a bijection between the recoveries and the alerts not cancelled of an event closed with notices, copies queued after the close included, on the same channel; every other event has no recovery |
| `Delivery.ClosedQuietlyStaysQuiet` | internal/service/recovery.go:57-67 | closing an event that is muted, is no incident, or with notices off adds no row, and the event has no recovery in any later state of any run |
| `Delivery.ClosingTellsEveryAlert` | internal/service/recovery.go:57-67 | closing an incident that is not muted, with notices on, gives each of its alerts that is not cancelled an untried recovery on its channel with that many tries |
| `Delivery.SettledForGood` | internal/domain/event.go:166-196 | no continuation of a run reopens or changes a closed event, leaves `sent` or `cancelled`, or changes an event's type, source or key |
| `Delivery.DownBeforeResolved` | internal/storage/claim.go:18-25 | in every run each transmission of a recovery, even a failed one, comes after a delivered transmission of its own alert |
| `Delivery.ClaimedRecoveryFollowsSentAlert` | internal/storage/claim.go:64-74 | a recovery that was ever claimed has an alert that is `sent` and stays so, whatever stale writers, replays and take-backs do |
| `Delivery.MuteIsQuiet` | internal/storage/sql_store.go:789-804 | a muted event has no failed alert, and its pending ones were replayed after the mute, sends in flight at the mute included |
| `Delivery.MutedAlertsAreNotClaimed` | internal/storage/sql_store.go:339-346 | a worker never takes an alert of a muted event unless an operator replayed it after the mute |
| `Delivery.AccountsAreConsistent` | internal/delivery/worker.go:356-396 | attempts stay within their maximum, below it while queued or sending, equal to it in a dead letter, and the retry time is set or absent as the state says, also when a stale worker wrote last |
| `Delivery.ClaimsAreBounded` | internal/delivery/worker.go:356-396 | without take-backs, hand-backs and replays an attempt is claimed at most `max_attempts` times |
| `Delivery.CopiesFormAForest` | internal/storage/sql_store.go:858-867 | a copy redirects a direct alert of its event from another channel and is its only copy, in every reachable state |
| `Delivery.CopiesComeFromDeadLetters` | internal/storage/sql_store.go:827-832 | a copy appears only in the step that dead-letters its source, and never while the event is muted |
| `Delivery.DeadLettersAreRedirected` | internal/storage/sql_store.go:827-832 | the converse, in every reachable state: a dead letter of a direct alert whose channel names a fallback has its copy, on another channel of the same event |
| `Delivery.DeliveredOnce` | internal/delivery/worker.go:356-396 | in every run an attempt that arrived is not transmitted again, unless it was taken back, handed back or replayed |
| `Progress.DeliverableIffNotCancelled` | internal/storage/sql_store.go:909-950 | in every reachable state an attempt can still be delivered if and only if it is not cancelled, whatever was lost, dead-lettered, muted or closed; a recovery after its alert |
| `Outcomes.ChangeOutcomeHolds` | internal/storage/sql_store.go:317-364 | what a committed state change does to every row: the event, the alerts a mute cancels and no others, and the recoveries a close adds and no others |
| `Outcomes.ClaimedIffDue` | internal/storage/claim.go:18-25 | a claim takes a row exactly when it is queued, its retry time has come and, for a recovery, its own alert is sent; a worker then holds it |
| `Outcomes.TransmitOutcome` | internal/delivery/worker.go:356-372 | each send that ends is logged once, delivered or not, and changes no row by itself |
| `Outcomes.RecordOutcome` | internal/storage/sql_store.go:784-842 | a result that reaches its row is stored as its outcome says, and a dead letter without a copy gets one on the fallback of its channel; no other row changes |
| `Outcomes.RefreshOutcome` | internal/storage/sql_store.go:377-425 | a repeated report takes over severity and time of an open event, keeps its state, and alerts exactly the channels offered without an alert on a rise that is not muted |
| `Outcomes.NewAlertsAreDue` | internal/service/ingest.go:346-360 | the alerts a report adds are direct, untried and due at once |
| `Outcomes.ReplayOutcome` | internal/storage/sql_store.go:909-931 | replay puts exactly a dead letter back, with all its tries, due at once |
| `Outcomes.ReapOutcome` | internal/storage/sql_store.go:935-950 | the reaper takes back exactly the sends older than its limit, with their count, or cancels them when their incident is muted |
| `Outcomes.RetentionOutcome` | internal/storage/sql_store.go:493-496 | retention removes exactly the events of its batch idle since their close or, while open, their last report, each with all its attempts |
| `Outcomes.DisturbedBy` | internal/delivery/worker.go:356-372 | what counts as disturbed: a stale send taken back, a replayed dead letter, or a send handed back at shutdown, and nothing else |
| `Delivery.OneOpenEventPerKey` | internal/storage/migrations/sqlite/0003_incident_lifecycle.sql:19-20 | in every reachable state two open events never share a key, and every event has a closing time exactly while it is closed |
| `LinkProofs.KeepsLinks` | internal/storage/sql_store.go:858-889 | every step keeps each recovery on its own alert, each copy on its own direct alert, and no two rows on the same one |
| `RecoveryProofs.KeepsExact` | internal/storage/sql_store.go:582-611 | every step keeps a recovery for exactly the alerts that closing owes one, a copy queued after the close included |
| `RowProofs.KeepsQuiet` | internal/storage/sql_store.go:903-945 | every step keeps a muted event free of failed and of unreplayed pending alerts |
| `OrderProofs.KeepsOrdered` | internal/storage/sql_store.go:784-842 | every step keeps "sent means delivered before" and the order of transmissions, with flights of old claims still around |
| `ClaimProofs.KeepsFrugal` | internal/storage/sql_store.go:797-804 | every step keeps the claims of an undisturbed row equal to its recorded tries plus the one in progress, by at most one worker |
| `CopyProofs.KeepsRedirected` | internal/storage/sql_store.go:858-867 | every step keeps a copy for each dead letter that can be redirected, retention included |
| `OnceProofs.KeepsSentOnce` | internal/storage/sql_store.go:784-842 | every step keeps an undisturbed attempt that arrived out of the queue, held by one worker at most, with nothing transmitted after it |
| `Finality.StepSettles` | internal/storage/sql_store.go:317-364 | no step reopens a closed event or leaves `sent` or `cancelled` |
| `Noise.BoundedNoise` | internal/storage/sql_store.go:427-441 | with duplicate-free routing over n channels every run leaves at most one direct alert per channel and at most 4n rows per event |
| `Noise.OncePerChannelIffDuplicateFree` | internal/service/ingest.go:346-360 | storing an event keeps one direct alert per channel if and only if its route named no channel twice |
| `Noise.OnceAfterRiseIff` | internal/storage/sql_store.go:427-441 | a repeated report keeps one direct alert per channel if and only if the missing alerts of the rise name no channel twice |
| `Noise.NoiseIsUnbounded` | internal/service/ingest.go:346-360 | a route that names a channel n times gives an event n rows, for every n |
| `Identifiers.OneEachInjective` | internal/service/ingest.go:346-360 | the alerts built for a route name no channel twice if and only if the route does not |
| `Identifiers.BuildIds` | internal/service/ingest.go:346-360 | the loop makes one new alert for each entry of the route |
| `Services.Transition` | internal/service/recovery.go:97-126 | under any interference it commits nothing or exactly one change out of the state then stored, which leads where the request says, queues a recovery with the notifier's tries for each alert not cancelled exactly when an unmuted incident closes with notices on, cancels queued alerts exactly on a mute, and changes no other row; it fails only for a state that does not allow the request, an event that is gone, or three updates overtaken in a row |
| `Services.ConditionalUpdate` | internal/storage/sql_store.go:317-364 | the update applies exactly when the stored state is still the one read |
| `Services.SteadyTransition` | internal/service/recovery.go:97-126 | left alone, a request changes the event exactly when its state allows it and is not there already, and fails exactly when it does not allow it |
| `Services.AnyInterference` | internal/service/recovery.go:97-126 | whatever lists of steps the others take in the gaps, there is a world in which they do |
| `Domain.ApplyAction` | internal/domain/event.go:166-196 | each action leads to a state of its own; it is refused exactly of a closed event, and unmute of one that is not muted |
| `Domain.RankOrders` | internal/domain/event.go:47-53 | ranks order severities as they alarm: info and success alike, below warning, error, critical |
| `Services.Apply` | internal/service/events.go:45-58 | a manual action is such a transition of the incident as read, answers an error exactly as that does, and refuses what is missing or no incident without a change |
| `Ingest.IngestFor` | internal/service/ingest.go:127-225 | one report commits at most one transaction; it is refused exactly when something it must carry is blank or its source is not the caller's; a complete report whose key no open event holds in any state it comes across is answered `created`, with the event as reported and one alert for each entry of its route stored together; every other answer has its cause among the open events read; a caller limited to sources touches no other source's event |
| `Ingest.Report` | internal/service/ingest.go:166-225 | create, else refresh, else create again, with other steps in every gap: at most one commit, answered as what it was, with exactly its alerts; `deduplicated` only for an open event with the key that was read, and for a firing report only after the event to refresh had gone; an error only for an open event of another source, or one there for the insert and gone after it |
| `Ingest.Resolve` | internal/service/ingest.go:267-296 | nothing when no event has the key; else the event found, open or else newest, is closed by a transition, unless its source is not the caller's; at most one close, with the notices of the state it was found in |
| `Ingest.CreateWithDeliveries` | internal/storage/sql_store.go:137-176 | the event is stored with its alerts exactly when no open event holds the key at the look and at the insert; otherwise the answer is an open event with the key as read, or a conflict exactly when one held the key just at the insert |
| `Ingest.FreeKeyCreates` | internal/service/ingest.go:166-225 | a report whose key no open event holds in any state it comes across is answered `created` |
| `Ingest.HeldKeyAnswers` | internal/service/ingest.go:176-196 | while one open event holds the key all along, a firing report refreshes it, one without a status is a duplicate, and another source's event refuses both |
| `Ingest.NotClosedIff` | internal/service/ingest.go:267-296 | with an open event of the caller's at the read: "already closed" exactly when it is closed at the last look, "nothing to close" exactly when it is gone, closed exactly when it is still open |
| `Ingest.HeldKeyCloses` | internal/service/ingest.go:267-296 | left alone, an open event of the caller's is closed by its key |
| `Ingest.Insert` | internal/storage/sql_store.go:152-175 | the insert is refused exactly when an open event holds the key, and a refused one adds nothing; a closed event never blocks |
| `Ingest.EventByKey` | internal/storage/sql_store.go:466-475 | the open event with the key; else, other steps in between, the newest with it; none exactly when none is open and then none has it |
| `Ingest.RefreshStored` | internal/service/ingest.go:233-248 | a repeated report changes the event exactly when it is still open, offers alerts by the severity read, and adds the missing ones on a rise over the severity stored |
| `Ingest.RoutedAreAlertedIff` | internal/service/ingest.go:226-248 | exactly when a committed refresh leaves every channel routed at the new severity with an alert |
| `Ingest.LoweredInBetween` | internal/service/ingest.go:233-248 | for every open event that is not muted, a report that lowers its severity between the read and the update makes a rise alert nobody |
| `StoreProgram.Store.CreateEventWithDeliveries` | internal/storage/sql_store.go:137-176 | the row-by-row inserts amount to the whole transaction or are rolled back; `created=false` means the key was taken and both tables are unchanged |
| `StoreProgram.Store.TransitionEvent` | internal/storage/sql_store.go:317-364 | conditional update, cancellation and inserts leave exactly the tables of the transaction, or the old tables and its error |
| `StoreProgram.Store.QueueRecoveries` | internal/storage/sql_store.go:348-358 | the loop inserts one recovery for each alert owed one and nothing else |
| `StoreProgram.Store.RefreshOpenEvent` | internal/storage/sql_store.go:377-425 | a rise inserts its alerts with the update or nothing is changed |
| `StoreProgram.Store.InsertMissingAlerts` | internal/storage/sql_store.go:427-441 | the loop inserts exactly the offered alerts to channels without one, or fails and leaves the table as it was |
| `StoreProgram.Store.ClaimDue` | internal/storage/claim.go:43-91 | the oldest deliverable attempts outside the skipped channels, distinct, at most the limit, and all of them when fewer; only these move to `sending` |
| `StoreProgram.Store.MarkResult` | internal/storage/sql_store.go:784-842 | the statements leave exactly the tables of the transaction that `Outcomes.RecordOutcome` describes, result, mute and copy together, or the old tables and its error; the stored state is returned |
| `StoreProgram.Store.QueueFallback` | internal/storage/sql_store.go:858-889 | one copy for a source however often it dies, with a recovery exactly when its event closed with recoveries |
| `WorkerProgram.Process` | internal/delivery/worker.go:356-396 | rewriting the claimed copy by the outcome and saving it is the protocol's `Record` step; a result that finds its row in progress is stored: sent if delivered, muted or not; otherwise cancelled if muted, else failed with the retry time, dead at the last try, or pending with its count unchanged if cut short; a discarded result changes nothing |
| `WorkerProgram.CopyFor` | internal/delivery/worker.go:419-433 | a copy is built exactly for a direct alert whose channel has a configured fallback; it is an untried alert of the same event and, the configuration being valid, on another configured channel |
| `SlotScheduler.Scheduler.Fill` | internal/delivery/worker.go:229-263 | ends; gives up only for a stop or a failed claim, and no claim before was stopped or failed; else every slot is in use or what is due is on channels that use their whole share; slots and shares stay within limits although a whole batch may land on one channel; exactly the attempts claimed are started |
| `SlotScheduler.Scheduler.NextBatch` | internal/delivery/worker.go:233-243 | the batch is at least one, so a claim never falls back to ten, and is as large as the free slots and the share of the busiest channel not skipped allow |
| `SlotScheduler.Scheduler.StartAll` | internal/delivery/worker.go:248-258 | each channel's count grows by its share of the batch and no channel exceeds its limit |
| `SlotScheduler.Scheduler.TotalIsSum` | internal/delivery/worker.go:195-205 | the total is the sum of the counts per channel in every valid state |
| `SlotScheduler.Scheduler.OneChannelLeavesASlot` | internal/delivery/worker.go:109-119 | with other channels and slots to share, one channel never has them all; alone it may |
| `SlotScheduler.Scheduler.Complete` | internal/delivery/worker.go:252-257 | a finished send always finds room in the buffered channel |
| `SlotScheduler.Scheduler.Receive` | internal/delivery/worker.go:282-288 | receiving a finished send frees one slot and keeps all counts right |
| `SlotScheduler.Scheduler.Shutdown` | internal/delivery/worker.go:292-310 | ends with every send received and no slot in use |
| `SlotScheduler.TakeBatch` | internal/delivery/worker.go:268-275 | the names are those of the attempts taken, all due and none twice; a batch smaller than asked for means that nothing due is left outside the skipped channels |
| `SlotScheduler.TakenAreNewlySending` | internal/storage/claim.go:64-74 | exactly the attempts taken by a claim are newly `sending`, so none waits unstarted |
| `SlotScheduler.Scheduler.ClaimBatch` | internal/delivery/worker.go:233-259 | one claim and the start of its sends: counts grow by exactly the attempts taken |
| `Timestamps.TextOrdersAsTime` | internal/storage/sql_store.go:48-60 | up to the year 9999 stored texts order as the instants they name, and differ when these do |
| `Timestamps.TextOrdersAsTimeIff` | internal/storage/sql_store.go:48-60 | for all pairs of years: texts order as the instants they name if and only if the years have one width or the narrower does not exceed the leading digits of the wider |
| `Timestamps.OrderedUntilIff` | internal/storage/sql_store.go:48-60 | all times up to the end of a year order as text if and only if the year is not past 9999 |
| `Timestamps.ParseFormat` | internal/storage/sql_store.go:60-71 | every time written reads back as itself |
| `Cursor.CursorRoundTrip` | internal/storage/sql_store.go:1062-1076 | a cursor decodes to the pair it was made from |
| `Cursor.DecodeEncoded` | internal/storage/sql_store.go:1062-1067 | unpadded URL-safe base64 decodes to the bytes it was made from |
| `Paging.ListPage` | internal/storage/sql_store.go:242-310 | one page shows the newest matching rows below the cursor, and has a next cursor exactly when others follow |
| `Paging.ClampLimit` | internal/storage/sql_store.go:1051-1060 | a full page has never more rows than asked for nor than 200, fewer than asked for only to stay within that, and 50 if none were asked for |
| `Paging.ListAll` | internal/storage/sql_store.go:691-759 | following the cursor from the first page lists every matching row exactly once, newest first, and ends |
| `Paging.ListingIsUnique` | internal/storage/sql_store.go:279-281 | rows have one listing only, so any limit gives the same one |
| `Paging.OrderIsTime` | internal/storage/sql_store.go:48-60 | the order of a listing is the order of instants, with the identifier to break ties |
| `EditDistance.DistanceIsLeastCost` | internal/config/env.go:538-547 | a number is the distance if and only if some edit script has that cost and none costs less, no character being edited twice |
| `EditDistance.Compute` | internal/config/env.go:548-571 | the three rolling rows compute the recursive distance of every two texts |
| `EditDistance.FillRow` | internal/config/env.go:557-569 | one row from the two before it |
| `EditDistance.Symmetric` | internal/config/env.go:548-571 | the distance is the same both ways |
| `EditDistance.DistanceBounds` | internal/config/env.go:548-571 | it is 0 exactly for equal texts, and lies between the difference of the lengths and the longer length |
| `EditDistance.NeighboursSwapped` | internal/config/env.go:542-545 | two different neighbours swapped anywhere in a text are one edit |
| `Detours.NoShorterDetourIff` | internal/config/env.go:538-571 | the triangle inequality holds for all texts over a set of characters if and only if the set has two at most |
| `Detours.DetourSavesAtMostShorterLeg` | internal/config/env.go:538-571 | for all texts the distance is at most the way by a third text plus the shorter of its two legs |
| `Detours.ThreeCharsDetour` | internal/config/env.go:538-571 | any three different characters make a detour that saves its whole shorter leg |
| `Suggestions.SuggestNearby` | internal/config/env.go:508-522 | the closest sibling within the budget, of those the first in order, or none when none is in reach |
| `Suggestions.SuggestKey` | internal/config/env.go:471-487 | that sibling, or else the first key of the same name anywhere, or nothing |
| `Suggestions.EditBudget` | internal/config/env.go:493-502 | a suggestion is one edit away at most, two from eight characters on, three from twelve |
| `Suggestions.SortedKeys` | internal/config/env.go:531-538 | the keys, each once, in ascending order |
| `Suggestions.ClosestIsUnique` | internal/config/env.go:508-522 | the suggestion does not depend on the order in which keys are met |
| `Suggestions.SwappedKeyIsSuggested` | internal/config/env.go:542-545 | a key with two neighbours swapped always gets a suggestion, one edit away at most |
| `Suggestions.PartsOfPath` | internal/config/env.go:524-529 | a path splits at its last dot, and the parts make it up again |
| `SqlLexer.LexIsTheReading` | internal/storage/migrate.go:160-171 | a file has exactly one reading as plain text, line comments, quoted literals and split points, and the lexer finds it |
| `Splitter.SplitStatements` | internal/storage/migrate.go:172-211 | the scanning loop returns exactly the pieces between semicolons outside comments and literals that carry SQL, trimmed, in order |
| `Splitter.AppendStatement` | internal/storage/migrate.go:217-223 | a chunk is added, trimmed, exactly when it carries SQL |
| `Splitter.HasSql` | internal/storage/migrate.go:228-236 | the line-based test agrees with the lexer on every text |
| `Splitter.ChunksGiveBackFile` | internal/storage/migrate.go:172-211 | the raw chunks joined with semicolons are the file |
| `Splitter.PiecesReadAlone` | internal/storage/migrate.go:172-211 | a chunk read by itself has the same tokens as in the file, no split point among them |
| `Splitter.StatementsStandAlone` | internal/storage/migrate.go:172-223 | a returned statement, split again, gives just itself |
| `RateLimit.EvictionUnseenIff` | internal/api/ratelimit.go:76-94 | on every ordered request sequence the limiter answers as buckets that are never dropped would, if and only if ten minutes fill a bucket |
| `RateLimit.WindowBoundIff` | internal/api/ratelimit.go:36-50 | every window of every run admits of each key at most the burst plus the rate times the window's length, if and only if ten minutes fill a bucket |
| `RateLimit.SameAnswers` | internal/api/ratelimit.go:76-94 | from any agreeing states, the answers of limiter and reference agree for ever |
| `RateLimit.CreditCovers` | internal/api/ratelimit.go:36-50 | a run admits no more than the credit at its start and what its time brings |
| `RateLimit.LimiterTwice` | internal/api/ratelimit.go:85-92 | with a slow rate the limiter admits a burst, and just after ten minutes the whole burst again |
| `RateLimit.TokenBucket.Allow` | internal/api/ratelimit.go:36-50 | refill up to the maximum, then spend a token if there is a whole one |
| `RateLimit.KeyedLimiter.Allow` | internal/api/ratelimit.go:76-94 | the answer and the buckets are those of the specification, no bucket being shared by two keys |
| `RateLimit.KeyedLimiter.Sweep` | internal/api/ratelimit.go:85-91 | the loop drops exactly the keys not seen for more than ten minutes |
| `Ntfy.BodyFitsIff` | internal/channels/push.go:114-121 | the body sent is within the limit if and only if the first encoding was or the mark alone would be |
| `Ntfy.EveryTextFitsIff` | internal/channels/push.go:114-121 | every text fits if and only if what stands around the message leaves room for the mark |
| `Ntfy.TooLong` | internal/channels/push.go:114-121 | where the mark has no room, no text longer than the mark fits |
| `Ntfy.FinalIsCut` | internal/channels/push.go:100-122 | the text sent is a start of the text, cut between characters, with one mark at most, valid UTF-8 if the text was, and within the message limit |
| `Ntfy.Send` | internal/channels/push.go:100-122 | measuring and cutting again give the body of that text |
| `Ntfy.ClipBytes` | internal/channels/format.go:181-190 | the loop stops at the last character boundary that leaves room for the mark |
| `Ntfy.NeverShorter` | internal/channels/push.go:114-115 | no text encodes as JSON to fewer bytes than it has |
| `Ntfy.EncodedInTwo` | internal/channels/push.go:114-115 | the encoding of a text cut between characters is the encodings of its parts |

## Left out

- Message, payload, entity, trace and last-error columns, and the channel type of an attempt: no decision of the protocol reads them.
- Rule matching in routing: it is an arbitrary function from an event to a list of channels.
- Unknown types, severities, statuses and actions: in `Ingest` an unknown type or severity is the missing value; limits on the length of texts and the payload check are not modelled.
- Ingest.IngestFor: the log lines and the warning about a status on an event that is no incident are not modelled.
- SlotScheduler.Scheduler.Shutdown: the grace period is not modelled; a running send ends sooner or later, by itself or because it is cancelled.
- StoreProgram.Store.ClaimDue: the claim that skips locked rows on PostgreSQL may leave due rows to another worker; the claim here is the single-writer one.
- StoreProgram.Store.CreateEventWithDeliveries: the statements of one transaction are not interleaved with other transactions; the interleaving of whole transactions is in `Services` and `Ingest`.
- Replay, RequeueStuckSending and DeleteEventsBefore are single statements; they are steps of the protocol and have no program of their own. The pauses between retention batches and the sweep of attempts without an event are not modelled.
- Backoff: the next retry time is arbitrary.
- Floating-point rounding in the limiter: tokens are real numbers; a new bucket starts at the time of its request, although the code reads the clock once more.
- Locks: the limiter's and the scheduler's methods run one at a time, and sends end between their steps.
- Timestamps.TextOrdersAsTimeIff: years before year 0, which the code would write with a sign, are not modelled.
- Timestamps.ParseFormat: layouts other than the one the store writes are not parsed; the code also accepts RFC 3339 and shorter fractions.
- Paging.ListPage: the filter is an arbitrary predicate on rows; the table does not change while it is listed; text is ordered by its bytes, as the databases' C collation does.
- Splitter.SplitStatements: a file is a sequence of characters; bytes that are no UTF-8 are not modelled.
- Ntfy.Send: topic, title, tags and link are the fixed text around the message, and posting the body is not modelled.
- HTTP handlers, sign-in, users, sessions, trusted proxies, the grouping of IPv6 addresses, the other channels, message rendering, configuration loading, dialects, running migrations, monitoring counters, the console and the command line: input and output, or easy next to the rest.
