# ShareCodex, modelled and verified in Dafny

ShareCodex lets several people share AI subscriptions. A device reads the logs of coding tools, attributes each
request to a pooled account, keeps the requests in a local ledger and uploads every change to a server, at least once.
The server merges what many devices send and, from the merged ledger and the providers' own readings of their limits,
works out how much of each limit was used, by whom, and what another plan would have allowed.

This project models that ledger, its sync protocol and the capacity engine, and proves what they promise. It has two
halves.

**The ledger and its protocol.**

- `Records`, `Sorting`: shared records; sorting, with unstable sorts as "any sorting".
- `ServerLedger`, `LedgerHistory`: the server's tables and the transaction `Ingest` (upsert, move, reclassification,
  snapshot correction, account upkeep), and what every run of it keeps. `IngestEffects`: what each record and each batch
  does, told by the tables before and after.
- `ClientLedger`, `LocalEffects`: the device's SQLite tables and transactions, with the outbox; and the same of them.
- `SyncProtocol`, `Uploading`, `UploadQueue`, `ExactlyOnce`, `TwoUploaders`, `AfterReset`, `Resync`: device, uploaders
  and server as a state machine with crashes, lost answers, resends, ledger resets and other devices in between; nothing
  queued is lost; at-least-once upload has exactly-once effect while no late batch takes a request back; what two
  uploaders can do to that; and what becomes of the server's rows after a reset.
- `Transcripts`, `Rollouts`, `SignIns`, `Rereading`: the parsers from decoded lines on, the attribution to accounts, and
  what reading growing, copied and unchanged logs does to the ledger.
- `PlanHistory`: the intervals an account was on a plan.

**The capacity engine.**

- `Rolling`, `DemandSums`: the sweep that stands for a sliding sum, its peak and its time-weighted percentiles.
- `SessionReplay`, `WeeklyReplay`: recorded demand replayed against a session limit and a weekly limit.
- `Series`, `Thinning`, `CapacityChart`: a limit's use over time as a step function, cut, thinned and probed.
- `Windows`, `Resets`, `LatestQuota`, `Shares`: the windows readings describe, the reset marks of a timeline, each
  limit's current value, and the split of what was used among people, models and devices.

Each database transaction is one atomic step. Classes hold the tables the source updates; each method's contract gives
the new tables as a function of the old ones, and the lemmas are about those functions: what they keep over whole runs,
and what each does to every column, key and item, said without naming the functions. Times are whole nanoseconds
(reals in the chart, which works in fractional seconds), money and percentages are reals. An unstable sort may return
any sorting and a Go map may be visited in any order, so what depends on neither is proved not to. Random ids, hashes,
the price table and the regular expressions that classify models are parameters.

The keys of the tables are those of the `ON CONFLICT` clauses. An outbox id is never used twice, not even after a
reset: `internal/client/storage/migrations/00001_init.sql` declares it `AUTOINCREMENT`.

Where the code and what it says of itself part ways, the model follows the code:

- `ThinSeries` is documented to return at most 2000 points. It can return 2002: `Thinning.SawtoothStays` is such a
  series, and `Thinning.ThinnedSize` says exactly when the bound holds. A series that falls fewer than 1000 times keeps
  it (`Thinning.FewFallsFit`), so every session and weekly replay of the lookback does; readings need not.
- A session's peak and its drop to 0 are documented to survive thinning, and neither need do. The drop can be lost in
  its minute (`Thinning.DropIsLost`) and, with its minute to itself, in the second pass (`Thinning.LateDropIsLost`); the
  peak is lost to a higher one (`Thinning.PeakIsLost`). `Thinning.PointSurvives` says exactly which points survive, and
  `Thinning.DropSurvives` what that means for a drop.
- `stepMax` is documented as the most use a step series held. The report cuts times to whole seconds, so a session's
  last request and its drop to 0 can share one: `CapacityChart.SecondHidesPeak`. `CapacityChart.StepMax` says exactly
  when its answer is held, and `CapacityChart.PeakCoversSeries` that what it answers then is still the series' use.
- "A request never goes back to counting against the quota" has one exception, the recording device's move of a
  third-party request to another account: `LedgerHistory.CountsAgain`, and exactly when in
  `LedgerHistory.DeliverHistory`.
- Redelivering one event can take three deliveries to settle: `LedgerHistory.ThreeDeliveriesNeeded`.
- A comment of `rollout.go` promises that one request never enters the ledger under two keys. It speaks of request
  records without a response id, which share their key with the cumulative count of the same total. A request whose
  count was read before its record with a response id was written is in the ledger twice:
  `Rereading.OneRequestTwoKeys`. `Rollouts.KeyStays` says exactly which keys of an earlier reading a later one lacks.
- An empty outbox does not always mean that the server's row is on the device's account. Two upload loops can run at
  once: `syncLoop` uploads, and so does `Resync`, which the desktop app calls beside it and which shares no lock with it
  while it uploads. `TwoUploaders.TwoUploadersBounce` is a run that ends that way. `ExactlyOnce.ExactlyOnceEffect` holds
  for any number of uploaders as long as every committed batch reaches as far as the server has seen or takes no
  request back, `ExactlyOnce.ExactlyWhileOrderly` that it holds no longer than that, and
  `ExactlyOnce.OneUploaderKeepsUp` that a single uploader's batches always do. `Resync` resets the ledger before it
  uploads, and such a run can follow a reset (`AfterReset.ResetOfNothing`).
- `Resync` is documented to replace events uploaded under older attribution rules by a fresh reading of the same files.
  The server keeps the account it has: `Resync.ResyncKeepsOld`. `AfterReset.AfterTheReset` says exactly when a row ends
  up on the device's account.

## Model

| member | source | states |
|---|---|---|
| ServerLedger.Store.Ingest | internal/server/storage/storage.go:272-456 | one batch, in one transaction: the whole new ledger, the accepted count and the divergence count, as the statements make them in order |
| ServerLedger.Store.UpsertEvent | internal/server/storage/storage.go:326-352 | the insert or the guarded update of one request: which offers are taken, and every column after them |
| ServerLedger.Store.MoveEvent | internal/server/storage/storage.go:353-365 | the recording device's move of a third-party request to the account its gateway names |
| ServerLedger.Store.ReclassifyEvent | internal/server/storage/storage.go:366-378 | a request of the person is marked third-party and its empty gateway filled, nothing else |
| ServerLedger.Store.SaveSnapshot | internal/server/storage/storage.go:398-431 | a correction deletes the device's identical reading on the previous account; an insert fills only an empty plan |
| ServerLedger.Store.Ensure | internal/server/storage/storage.go:278-291 | the batch's cache of account ids never answers anything but what the accounts table would |
| ServerLedger.EnsureAgain | internal/server/storage/storage.go:278-291 | naming an account again without hint or plan changes nothing, which is why the cache may answer |
| LedgerHistory.DeliverHistory | internal/server/storage/storage.go:317-379 | one delivery: person, device, input counts and time never change, output never falls, evidence is write-once; the account changes exactly on a same-person, same-session, same-originator correction naming the current account or on the recording device's gateway move, and third-party becomes false and the model changes only in that move |
| LedgerHistory.CountsAgain | internal/server/storage/storage.go:353-365 | a third-party request that the recording device moves to another account and that counts against the quota again |
| LedgerHistory.RunHistory | internal/server/storage/storage.go:258-379 | the same over every run of Ingest from any devices: from one sent event to the next a row changes only if the event is its own; it changes account only to the event's, on its person's correction naming the account it was on just before or on its recording device's move of a third-party request, and only that move changes its model or makes it count |
| LedgerHistory.StrangersChangeNothing | internal/server/storage/storage.go:262-271 | another person's device changes nothing of a request it did not record |
| LedgerHistory.RedeliverySettles | internal/server/storage/storage.go:326-378 | redelivering one event reaches a fixed point after one delivery without a gateway and after at most three with one |
| LedgerHistory.ThreeDeliveriesNeeded | internal/server/storage/storage.go:326-378 | three deliveries can be needed: reclassified, then moved, then given its output |
| LedgerHistory.StaysOnItsAccount | internal/server/storage/storage.go:326-378 | once a row is on the event's account, redelivery keeps it there |
| LedgerHistory.ResendSettles | internal/server/storage/storage.go:317-379 | sending one event over and over reaches a fixed point of the whole ledger, not only of its row |
| LedgerHistory.RunKeepsAccounts | internal/server/storage/storage.go:458-487 | over every run accounts stay distinct, ids are never shared, and every request is on an account that exists |
| LedgerHistory.PlanFollowsNewestReading | internal/server/storage/storage.go:458-487 | the time of the plan after any reading of one, and the plan: an older sign-in leaves it, and of a plan name without a percent sign or backslash one that names only the family of the plan on record leaves it, too, while any other reading sets it |
| LedgerHistory.NoDivergence | internal/server/storage/storage.go:381-396 | the answered divergence count is zero exactly when every reported event the ledger holds is on the account it was reported on |
| IngestEffects.EnsuredAccount | internal/server/storage/storage.go:458-487 | naming an account adds it and the membership only if they are new; a known account keeps its id, takes a hint that is given, its title only while it has none, and without a plan its plan; all other accounts and tables stay |
| IngestEffects.EnsuredPlan | internal/server/storage/storage.go:466-477 | of a known account, the time on record becomes the newest and the plan the one named, unless that is older or only the family of the plan on record |
| IngestEffects.ObservationStored | internal/server/storage/storage.go:293-315 | a sign-in is kept once under device, account, source and time, joins the person, counts when new, and says nothing of the plan for Anthropic |
| IngestEffects.StoredAsRead | internal/server/storage/storage.go:317-352 | the first delivery of a request stores every column as it was read, on the reported account, for the person and device that sent it |
| IngestEffects.DeliveryTeaches | internal/server/storage/storage.go:326-345 | the token counts after any later delivery: output and reasoning output rise exactly with an offer that is taken, the rest stay |
| IngestEffects.DeliveryFills | internal/server/storage/storage.go:326-345 | the evidence columns after it: only an offer that is taken fills them, and only empty ones |
| IngestEffects.DeliveryPlaces | internal/server/storage/storage.go:326-378 | account, model, third-party mark and gateway after it, column by column, for corrections, gateway moves and reclassifications; person, device, product, session, entrypoint and time stay |
| IngestEffects.OfferCounted | internal/server/storage/storage.go:326-352 | a delivery touches its own row only, and counts as accepted exactly when the offer is taken |
| IngestEffects.EventPassedOver | internal/server/storage/storage.go:317-320 | an event without an account or a key changes nothing |
| IngestEffects.PreviousMeans | internal/server/storage/storage.go:343-345 | the account a correction names: the one with that provider and reference, if the ledger has it |
| IngestEffects.SnapshotStored | internal/server/storage/storage.go:398-431 | a reading removes exactly the device's reading of the same source, time and buckets on the account it corrects; every other key stays; its own key holds it, or, if it was there, what it held with only an empty plan filled; the count is the rows deleted, inserted and updated |
| IngestEffects.SnapshotPassedOver | internal/server/storage/storage.go:398-401 | a reading without an account or a bucket changes nothing |
| IngestEffects.LimitStored | internal/server/storage/storage.go:433-452 | the first report of a limit hit stays as it was sent, on its account; later ones change nothing and do not count |
| IngestEffects.BatchHeld | internal/server/storage/storage.go:272-456 | a batch loses no account, member, sign-in, request or limit hit, and afterwards the ledger has every one in it that names an account |
| IngestEffects.NoneDiverged | internal/server/storage/storage.go:381-396 | the answer of a whole batch counts no divergence exactly when afterwards each of its requests is on the account the device reported |
| IngestEffects.DivergedCount | internal/server/storage/storage.go:381-396 | the divergence count is the number of reported entries whose row is on another account |
| IngestEffects.SignInsCounted | internal/server/storage/storage.go:293-315 | a batch of sign-ins counts as many as the table grows by |
| IngestEffects.LimitsCounted | internal/server/storage/storage.go:433-452 | a batch of limit hits counts as many as the table grows by |
| IngestEffects.RequestsInTurn | internal/server/storage/storage.go:317-379 | requests are stored one after the other, as they were sent |
| IngestEffects.SnapshotsInTurn | internal/server/storage/storage.go:398-431 | so are readings, so that a correction takes back what was sent before it |
| IngestEffects.LimitsInTurn | internal/server/storage/storage.go:433-452 | so are limit hits, of which the first stays |
| ClientLedger.Store.IngestFile | internal/client/storage/storage.go:142-209 | one file's transaction: its events, readings and limit hits saved, what changed queued in order, the file marked, and how much changed |
| ClientLedger.Store.UpsertEvents | internal/client/storage/storage.go:145-187 | which rows an event inserts or updates, and that a correction is queued with the account it corrects |
| ClientLedger.Store.CorrectSnapshot | internal/client/storage/storage.go:221-272 | a reading recorded on exactly one other account moves, with both changes queued; otherwise nothing happens |
| ClientLedger.Store.PendingOutbox | internal/client/storage/storage.go:364-381 | the oldest queued items, as many as the limit lets: in id order, and every item left out has a later id |
| ClientLedger.Store.DeleteOutboxThrough | internal/client/storage/storage.go:391-394 | exactly the items of later ids stay, in order and untouched: the tail of the queue; nothing else changes |
| ClientLedger.Store.ResetLedger | internal/client/storage/storage.go:401-475 | the tables a reset empties, and what it queues again |
| LocalEffects.RequestSaved | internal/client/storage/storage.go:145-187 | a request is stored column by column as read, its time cut to the millisecond; a later reading counts exactly with more output or new evidence on its account or from its own session and entrypoint on another, then only raises output and fills what is empty, and is queued with the account it was on before if that changed; no other row changes |
| LocalEffects.SignInSaved | internal/client/storage/storage.go:100-115 | a sign-in is kept once under its millisecond and queued only when it is on a pooled account |
| LocalEffects.ReadingSaved | internal/client/storage/storage.go:274-290 | the first reading of an account, source and millisecond stays as it was read and is queued; a later one changes nothing |
| LocalEffects.LimitSaved | internal/client/storage/storage.go:477-491 | the first report of a limit hit stays as it was read and is queued; a later one changes nothing |
| LocalEffects.CorrectionApplies | internal/client/storage/storage.go:221-249 | a correction applies exactly when one row holds the reading's buckets at its time and it is another account's; otherwise it changes nothing |
| LocalEffects.CorrectionMoves | internal/client/storage/storage.go:250-272 | it removes that row and queues the reading with the account it was on; the reading's own row is then there, stored and queued when it was not; every other row stays |
| LocalEffects.FileSaved | internal/client/storage/storage.go:142-209 | a file's transaction leaves the file as scanned, a row for each request, reading and limit hit in it, and as many queued items as it counts changes |
| LocalEffects.EventsInTurn | internal/client/storage/storage.go:145-187 | requests are saved one after the other, as they were read |
| LocalEffects.ReadingsInTurn | internal/client/storage/storage.go:188-194 | so are readings, of which the first stays |
| ClientLedger.PayloadsCarry | internal/client/storage/storage.go:415-475 | what a reset queues carries the stored sign-in or reading column by column, and corrects nothing |
| ClientLedger.ReadingRoundTrip | internal/client/storage/storage.go:444-475 | a queued reading, saved where its row is not, is that row again |
| ClientLedger.SignInRoundTrip | internal/client/storage/storage.go:415-442 | so is a queued sign-in |
| SyncProtocol.ResetQueues | internal/client/storage/storage.go:401-475 | a reset leaves exactly the sign-ins on pooled accounts queued, each once, oldest first, then every reading, each once, oldest first, under ids never used before, each item with the columns of its row; it empties requests, files, limit hits and what was queued, and keeps the rest |
| SyncProtocol.BatchCarriesItems | internal/client/agent/syncing.go:100-129 | a request carries every item of its batch |
| SyncProtocol.BatchConcat | internal/client/agent/syncing.go:100-129 | each kind of a batch's items is sent in the order it was queued |
| SyncProtocol.BatchOfOne | internal/client/agent/syncing.go:100-129 | one item is sent as its own kind and nothing else |
| SyncProtocol.ReadingsInOrder | internal/client/agent/syncing.go:100-129 | of two queued readings the one queued first is sent first, as a correction needs |
| SyncProtocol.NothingLost | internal/client/agent/syncing.go:74-98 | over every run with any number of uploaders, crashes, lost answers and resets: every item queued since the last reset is itself still queued or in a batch the server committed, whose request carries it; and a file is marked scanned only with its events saved, in rows with at least their output and with their evidence wherever the row is of the event's session and entrypoint |
| SyncProtocol.CommittedSinceQueued | internal/client/agent/resync.go:50-72 | an item queued after some moment of the run, as by a reset, is still queued or in a batch committed after that moment: what was sent before does not stand for it |
| SyncProtocol.DeleteSafe | internal/client/agent/syncing.go:94-96 | deleting the sent prefix, even late and next to other uploaders, deletes no item that was not itself in a committed batch |
| SyncProtocol.ResetSafe | internal/client/agent/resync.go:50-72 | a ledger reset between any two steps keeps all of that, batches on their way included |
| Uploading.Agent.Upload | internal/client/agent/syncing.go:74-98 | the upload loop's effect on both stores is a run of one uploader's protocol steps, and it answers true exactly with an empty outbox |
| ExactlyOnce.ReplayRow | internal/server/storage/storage.go:326-345 | one change seen before: the server's account goes where the device's went if it was there, and else stays; nothing else changes |
| ExactlyOnce.BatchStored | internal/server/storage/storage.go:317-345 | while a resent run of changes is replayed, each account is the replay's or the final one, and it ends at the final one |
| ExactlyOnce.ExactlyOnceEffect | internal/client/agent/syncing.go:74-98 | without a reset and with any number of uploaders, whatever was cut short or resent, as long as each committed batch keeps up: the server holds what the queued changes stand for as far as it has seen them, and with the outbox empty each row equals the device's on account, time to the millisecond, all token counts, request ids, effort, status and aggregated |
| ExactlyOnce.LateBatchStored | internal/server/storage/storage.go:326-345 | a batch of changes all seen before changes nothing but accounts, and carries each to where its corrections lead from the account the row is on |
| ExactlyOnce.ExactlyWhileOrderly | internal/client/agent/syncing.go:74-98 | a commit leaves the server with the rows it has seen exactly when its batch ends no earlier than what the server has seen, or takes no request back |
| ExactlyOnce.OneUploaderKeepsUp | internal/client/agent/syncing.go:74-98 | every batch of a single uploader keeps up, whatever is cut short or resent |
| TwoUploaders.TwoUploadersBounce | internal/client/agent/syncing.go:74-98 | with two uploaders a late batch can leave the outbox empty and the server's row on another account than the device's |
| TwoUploaders.BounceNotOrderly | internal/client/agent/resync.go:35 | in that run a batch does not keep up, so two uploaders need not be in order |
| AfterReset.AfterTheReset | internal/client/agent/resync.go:21-47 | after a reset at any moment of any run, with batches committed in order: requests new to the server are as the device has them; a row from before is on its old account exactly until a change of its person, session and entrypoint corrects that account, then on the device's, so that it is on the device's account exactly when one did or the old account is the device's |
| Resync.ResyncKeepsOld | internal/client/agent/resync.go:17-47 | a run with a resync after which the outbox is empty and the server's row is on the account of the old reading, not of the fresh one |
| AfterReset.BatchFollows | internal/server/storage/storage.go:317-345 | the same of one batch, the changes it repeats included |
| AfterReset.ResetOfNothing | internal/client/agent/resync.go:21-47 | a reset of an empty ledger changes nothing, so the run of two uploaders can follow one |
| UploadQueue.StepsQueueInStep | internal/client/agent/syncing.go:74-98 | between resets the outbox is always a tail of what was queued since, the server has seen at least what left it, and every batch on its way is a piece of it or older |
| Transcripts.Parse | internal/provider/anthropic/transcript/transcript.go:107-185 | one event per response, distinct keys, each its first line's but with the highest output on any of its lines; the logged limits and the count of unreadable lines |
| Transcripts.GrowingTranscript | internal/provider/anthropic/transcript/transcript.go:147-182 | while a transcript grows, a response's event keeps everything but its output, which never falls |
| Transcripts.KeyNamesOne | internal/provider/anthropic/transcript/transcript.go:147 | lines with the same dedupe key are of one message and request exactly when their message ids have equally many colons, as ids without any do |
| Transcripts.EventColumns | internal/provider/anthropic/transcript/transcript.go:107-185 | each event, column by column, by the first line of its response: cache counts apart from input, the model's provider and name, the third-party mark, session, time and ids; and its output is the highest of the response's lines |
| Transcripts.GatewayTold | internal/provider/anthropic/transcript/transcript.go:82-96 | the gateway is named only by an OpenCodex model name or, without a request id, by a message id of 32 or 24 hexadecimal digits |
| Transcripts.UseHasEvent | internal/provider/anthropic/transcript/transcript.go:107-185 | every line that reports a use of a model has an event under its message and request |
| Transcripts.LimitsOne | internal/provider/anthropic/transcript/transcript.go:128-136 | only an assistant's message marked as an API error can be a limit hit |
| Transcripts.LimitsConcat | internal/provider/anthropic/transcript/transcript.go:128-136 | limit hits are read line by line, in order |
| SignIns.ResolveAt | internal/account/account.go:131-151 | the account of the latest observation at or before t, and none when there is none |
| SignIns.LaterSignInsChangeNothing | internal/account/account.go:128-151 | observations after t, and other providers', do not change the answer at t |
| SignIns.OneLatest | internal/account/account.go:131-151 | with distinct times there is one answer, in whatever order the observations come |
| SignIns.LoadAccounts | internal/client/agent/ingest.go:119-142 | the device's first observation from any app, which is where its usage starts |
| SignIns.Resolve | internal/client/agent/ingest.go:173-188 | which account usage goes with, by entrypoint, Desktop session and sign-in |
| SignIns.Attribute | internal/client/agent/ingest.go:266-304 | exactly the events with a known account are kept, in order, on that account, third-party where Desktop or OpenCodex says so |
| SignIns.AttributionStays | internal/client/agent/ingest.go:266-304 | reading the same events after more sign-ins attributes them as before |
| SignIns.AccountTells | internal/client/agent/ingest.go:165-188 | Desktop's usage goes with the organization its session was filed under, from the device's start on; Desktop set up for third-party inference with none; all other usage with the account the CLI was last seen on by then |
| SignIns.AttributionTells | internal/client/agent/ingest.go:266-304 | which events are kept, each as read but for its account and third-party mark: third-party when read so, when OpenCodex sent it to another ChatGPT account, or from Desktop set up for third-party inference; every event left out goes with no account |
| Rereading.RereadingKeepsHighest | internal/client/storage/storage.go:145-187 | whatever prefixes and copies of transcripts are read, in whatever order, a response is stored once, on its account, with the highest output on any of its lines in any of them |
| Rereading.IngestAgain | internal/client/storage/storage.go:142-209 | ingesting a file of distinct keys again changes no table and queues nothing |
| Rereading.RescanIsQuiet | internal/client/agent/ingest.go:257-324 | scanning an unchanged transcript again queues nothing |
| Rollouts.Parse | internal/provider/openai/codex/rollout/rollout.go:113-240 | a rollout's events: its request records or, without any, its cumulative counts; another provider's session is skipped |
| Rollouts.TakenIffNew | internal/provider/openai/codex/rollout/rollout.go:202-224 | a cumulative count makes an event exactly when it exceeds the inherited total and every count before it |
| Rollouts.TotalsAscend | internal/provider/openai/codex/rollout/rollout.go:202-224 | the accepted totals strictly increase, whatever repeats or falls between them |
| Rollouts.FallbackKeysDistinct | internal/provider/openai/codex/rollout/rollout.go:213-221 | so no two of the events share a dedupe key, even across a change of session |
| Rollouts.FallbackTelescopes | internal/provider/openai/codex/rollout/rollout.go:202-224 | the events' tokens sum to the last accepted total minus what the session inherited |
| Rollouts.FallbackCounts | internal/provider/openai/codex/rollout/rollout.go:202-224 | count by count: the events' input and cached input together are the last accepted input less the inherited one, and cached, cache-write, output and reasoning counts are their own differences |
| Rollouts.RecordCounts | internal/provider/openai/codex/rollout/rollout.go:171-190 | a record's event: input and cached input together are the record's input, every other count its own; its model, time, session and key |
| Rollouts.CountCounts | internal/provider/openai/codex/rollout/rollout.go:209-220 | a cumulative count's event: the same of the difference to the total before it |
| Rollouts.BaseIs | internal/provider/openai/codex/rollout/rollout.go:203-208 | what a session inherited is its first total without the request counted last |
| Rollouts.FinishedAs | internal/provider/openai/codex/rollout/rollout.go:230-240 | provider, product, originator and, for a model with a slash, the gateway and third-party mark; nothing else changes |
| Rollouts.SkippedIs | internal/provider/openai/codex/rollout/rollout.go:152-155 | a rollout is skipped exactly when one of its session lines names another provider |
| Rollouts.ParsedFrom | internal/provider/openai/codex/rollout/rollout.go:224-229 | the events are those of the request records, or of the cumulative counts exactly when no record names its request or a total |
| Rollouts.InForce | internal/provider/openai/codex/rollout/rollout.go:144-163 | the session, originator and model at a line are those of the last line before it that names them |
| Rollouts.RecordsFrom | internal/provider/openai/codex/rollout/rollout.go:165-190 | one event per named request record, in order, under the session and model in force at its line |
| Rollouts.CountsFrom | internal/provider/openai/codex/rollout/rollout.go:191-220 | so with the cumulative counts |
| Rollouts.ReadingsFrom | internal/provider/openai/codex/rollout/rollout.go:196-198 | and with the quota readings |
| Rollouts.BadLinesAre | internal/provider/openai/codex/rollout/rollout.go:113-190 | the bad lines are those that could not be read and the records that name neither a request nor a total |
| Rollouts.GrowingRollout | internal/provider/openai/codex/rollout/rollout.go:113-240 | what was read of a growing rollout stays a prefix, exactly unless it turns out to be another provider's, its originator changes or request records take the place of counts read before |
| Rollouts.KeyStays | internal/provider/openai/codex/rollout/rollout.go:165-231 | exactly which keys of an earlier reading a later one has: all, unless the rollout is another provider's or request records replaced the counts; then those of totals that a record of the session names |
| Rereading.GrownRolloutKeys | internal/client/storage/storage.go:145-187 | the ledger keeps the keys of both readings of a grown rollout |
| Rereading.OneRequestTwoKeys | internal/provider/openai/codex/rollout/rollout.go:165-231 | a request read as a count and then as a record with a response id is in the ledger under both keys, its tokens twice |
| PlanHistory.Store.SavePlanInterval | internal/server/storage/storage.go:895-973 | which error or interval each save answers, the table after it, and that an account's intervals stay non-empty and pairwise disjoint |
| PlanHistory.Store.DeletePlanInterval | internal/server/storage/storage.go:975-984 | exactly the account's own interval goes |
| PlanHistory.OverlapsIsMeet | internal/server/storage/storage.go:927-939 | the comparison of ends finds exactly the intervals that share a moment |
| PlanHistory.OneAnswer | internal/account/account.go:61-77 | a saved history has one answer at each moment, in whatever order its intervals are read: the row that covers it |
| PlanHistory.NewIntervalIsLocal | internal/server/storage/storage.go:893-973 | a new interval changes the plan at the moments it covers and at no others |
| PlanHistory.AnswerTells | internal/server/storage/storage.go:895-973 | which of five answers each save gives, by what the caller can check: a missing account or plan or an end not after the start, an unknown account, another of the account's intervals in force at a moment of this one, an interval the account has not, or saved as asked |
| PlanHistory.PlanInForce | internal/account/account.go:61-77 | the plan at a moment is that of the account's interval in force then, if there is one |
| PlanHistory.TrimmedIs | internal/server/storage/storage.go:896 | a saved plan name is the given one without the white space around it, and with everything between |
| Rolling.Measure | internal/quota/capacity.go:39-114 | spans tile [start, end), each weighs the sum of valid events in (t - window, t] for every t of it, the peak is the highest such sum and the first time it is reached, and each percentile is a load that is reached, that is not exceeded for at least its part of the moments, and of which no lower load says the same |
| Rolling.Sweep | internal/quota/capacity.go:51-85 | the sweep's spans show the load at every moment, and its peak is the highest load and the first time it is reached |
| Rolling.ClampNeverFires | internal/quota/capacity.go:62-80 | at every step of the sweep the sum of the changes taken is the load, so clamping it at zero never changes it |
| Rolling.Percentile | internal/quota/capacity.go:87-108 | the weight of the first span, lightest first, with which p of the time is covered, which is the least weight that covers p of it |
| Rolling.FallbackNotReached | internal/quota/capacity.go:92-107 | up to the whole time some span is the first to cover, so the loop always returns and the fallback behind it is not reached |
| Rolling.PercentilesOrdered | internal/quota/capacity.go:109-113 | a lower percentile is never above a higher one |
| Rolling.PercentileMeans | internal/quota/capacity.go:87-108 | a percentile of the spans is that percentile of the load over all moments |
| Rolling.LoadOne | internal/quota/capacity.go:50-57 | an event weighs from its own moment on for as long as the window lasts, and only with a positive weight |
| Rolling.LoadConcat | internal/quota/capacity.go:50-57 | loads of separate events add up |
| Rolling.WeightsBelowPeak | internal/quota/capacity.go:109-113 | no percentile, nor any span's weight, is above the peak |
| DemandSums.SumBetween | internal/quota/capacity.go:232-239 | the binary search and the loop after it add up exactly the demand from one time through another |
| DemandSums.SumInOne | internal/quota/capacity.go:230-239 | one request counts from from on and no longer at to |
| DemandSums.SumInConcat | internal/quota/capacity.go:230-239 | sums of separate demand add up |
| SessionReplay.SplitOneMore | internal/quota/capacity.go:525-547 | the recursive definition, maximal runs shorter than a window from their first request, grows one request at a time as the loop does |
| SessionReplay.SplitFlattens | internal/quota/capacity.go:525-547 | splitting into sessions loses and reorders nothing |
| SessionReplay.SplitSpaced | internal/quota/capacity.go:525-547 | sessions are shorter than a window and start at least a window apart |
| SessionReplay.HitSession | internal/quota/capacity.go:544-557 | a session is hit exactly when it uses more than the capacity; the hit is the crossing request and the blocked demand is all that came after it |
| SessionReplay.ReplayConsistent | internal/quota/capacity.go:508-561 | blocked is at most the total, and the peak passes 100 exactly when a window was hit, exactly when there is a first hit |
| SessionReplay.ReplayTells | internal/quota/capacity.go:508-561 | that of any well-formed sessions, by counting and adding over those in the period |
| SessionReplay.PositiveKeeps | internal/quota/capacity.go:529-532 | exactly the requests with a positive weight are replayed, each as often as it was recorded |
| SessionReplay.ReplaySessions | internal/quota/capacity.go:508-561 | the one-pass replay equals the replay of the recursively split sessions, and says of those that open in the period how many there are, how many use more than the capacity, what they use and what of it came after a hit, the highest use, and the first hit: the crossing request of the earliest session over the capacity; the series has at most 2000 points over 999 sessions' length or less |
| SessionReplay.SeriesIsLiveUse | internal/quota/capacity.go:505-561 | read as a step function, the series is the open counted session's use so far, and 0 outside every counted session |
| SessionReplay.FallsPerWindow | internal/quota/capacity.go:505-561 | the raw series falls no more often than there are windows |
| SessionReplay.MergeLaws | internal/quota/capacity.go:481-491 | members' replays merge in any order and grouping, and the merged replay is as consistent as its parts |
| SessionReplay.MergeSums | internal/quota/capacity.go:481-491 | a merged replay has the sums of its parts, the higher peak and the earlier first hit |
| WeeklyReplay.StartsExactly | internal/quota/capacity.go:586-591 | the weeks are exactly those whole weeks from the anchor that meet [from, to), one after the other, and the first contains from even before the anchor |
| WeeklyReplay.FirstWeek | internal/quota/capacity.go:586-591 | truncating division, corrected, finds the week from lies in on both sides of the anchor |
| WeeklyReplay.WeeksCountOnce | internal/quota/capacity.go:591-606 | every request between the first week's start and the last one's end is counted in one week, once |
| WeeklyReplay.OverIffHit | internal/quota/capacity.go:595-604 | a week reads over 100% exactly when it names the moment it was hit |
| WeeklyReplay.ReplayWeekly | internal/quota/capacity.go:581-608 | each week's use and hit, and a series that shows the week's use so far at every moment of [from, to), with at most 2000 points where every request adds to the use and the period is 997 weeks or less |
| WeeklyReplay.WorstWeekly | internal/quota/capacity.go:612-627 | week by week the highest use and the earliest hit of all replays |
| WeeklyReplay.WorstOfMembers | internal/server/query/capacity.go:219-231 | members' replays over one period have the same weeks, so the combination never reads past one, and a combined week is over 100% exactly when it names a hit |
| Series.ClipSeries | internal/quota/capacity.go:674-693 | the cut series lies in [from, to), agrees with the whole one at every moment there and falls no more often |
| Series.UseAtIs | internal/quota/capacity.go:629-634 | the use at a moment is that of the last point at or before it, and none before the first |
| Series.PercentMeans | internal/quota/capacity.go:525 | a percentage times the limit is a hundred times the use |
| Thinning.ThinBy | internal/quota/capacity.go:653-670 | the loop's output is the points picked at the kept indices |
| Thinning.KeptExactly | internal/quota/capacity.go:653-670 | exactly the first highest and the last point of each bucket's run are kept |
| Thinning.KeptIncreases | internal/quota/capacity.go:653-670 | points keep their order and none is repeated |
| Thinning.ThinSeries | internal/quota/capacity.go:643-650 | the two passes over a chronological series |
| Thinning.ThinnedSamples | internal/quota/capacity.go:639-650 | the result is a chronological subsequence that keeps the highest use and the final point |
| Thinning.ThinnedSize | internal/quota/capacity.go:634-650 | at most 2002 points, and exactly when at most 2000 |
| Thinning.FewFallsFit | internal/quota/capacity.go:634-650 | a series that rises from point to point but for fewer than 1000 falls is thinned to at most 2000 points |
| Thinning.SawtoothStays | internal/quota/capacity.go:639-650 | a series that comes out with 2002 points |
| Thinning.DropIsLost | internal/quota/capacity.go:639-650 | a drop to 0 that its minute does not keep |
| Thinning.LateDropIsLost | internal/quota/capacity.go:639-650 | a drop to 0 that has its minute to itself and is lost to the second pass |
| Thinning.PeakIsLost | internal/quota/capacity.go:639-650 | a session's peak that is lost to the next one's |
| Thinning.PointSurvives | internal/quota/capacity.go:639-670 | for any chronological series, a point survives exactly when it is the last or the first highest of its minute and, where a second pass is made, of its wider bucket there |
| Thinning.DropSurvives | internal/quota/capacity.go:639-670 | any drop to 0 of a series that is never negative survives exactly when it is the last point of its minute, or the first of one without use, and where a second pass is made the same of its wider bucket there |
| Thinning.ThinnedPicks | internal/quota/capacity.go:643-650 | the result of both passes is the points at the indices that say which points survive |
| CapacityChart.StepMax | internal/server/admin/capacitychart.go:204-214 | for any points in time order: the highest of the value held at from and all points in (from, to), never below what is held, and held itself exactly when no point is hidden by a lower one of its moment |
| CapacityChart.RisingHidesNone | internal/server/admin/capacitychart.go:204-214 | points that rise within each moment hide none |
| CapacityChart.SecondHidesPeak | internal/server/query/capacity.go:457-464 | a session's last request and its drop, kept by thinning and cut to one second: stepMax answers a use the line never shows |
| CapacityChart.LineIsSecondsEnd | internal/server/query/capacity.go:457-464 | throughout each second the chart's line is at the series' use at the second's end, to a tenth |
| CapacityChart.PeakCoversSeries | internal/server/query/capacity.go:457-464 | from the end of the second it starts in, stepMax answers no less than the series itself was used at any moment |
| CapacityChart.SeriesTimed | internal/server/query/capacity.go:457-464 | a series cut to seconds keeps its time order, which the search needs |
| CapacityChart.XWithin | internal/server/admin/capacitychart.go:129-131 | a time lies as far along the chart as along the period, and outside of the period at its edge |
| CapacityChart.ReadingMax | internal/server/admin/capacitychart.go:217-224 | the highest reading in [from, to) and at least 0, found exactly when there is one, in any order within a second |
| CapacityChart.Hover | internal/server/admin/capacitychart.go:184-201 | sixty tips, each with its place on the chart and the peak and highest reading of its slice |
| CapacityChart.SlicesTile | internal/server/admin/capacitychart.go:184-189 | each moment of the period is in exactly one slice |
| CapacityChart.PointerFindsSlice | internal/server/admin/capacitychart.go:129-131 | a moment is in a slice exactly when the chart draws it within that slice's tip |
| CapacityChart.TipsCoverPeriod | internal/server/admin/capacitychart.go:184-201 | no tip is above the period's peak, and no held use falls between the tips |
| CapacityChart.TipsShowPeak | internal/server/admin/capacitychart.go:184-201 | a tip has the peak of the whole period, exactly unless only points have it that open a slice and are hidden there |
| Windows.GroupByReset | internal/quota/capacity.go:206-224 | the two stable sorts and the loop between them |
| Sorting.SortIsStable | internal/quota/capacity.go:206-224 | a stable sort keeps what has equal keys in its order |
| Windows.GroupsPartition | internal/quota/capacity.go:206-224 | grouping loses and repeats no reading, keeps groups' resets more than the slack apart and orders each group oldest first |
| Windows.GroupedIffNoGap | internal/quota/capacity.go:199-224 | two readings share a group exactly when no gap between their resets is wider than two minutes |
| Windows.Measure | internal/quota/capacity.go:245-279 | the highest use and when it was first read, the first full reading, the demand by then, and the sample of the last exact reading or why there is none |
| Windows.SampleIsExact | internal/quota/capacity.go:241-279 | a window gives a sample exactly when its ratio is positive, and the ratio times the demand by its last exact reading is that reading, of 5% to below 100% and after 5 USD or more |
| Windows.NoSampleMeans | internal/quota/capacity.go:255-279 | a window not already excluded lacks a sample exactly when no reading is of 5% to below 100%, and is excluded for its cost only below 5 USD |
| Windows.MeasuredMeans | internal/quota/capacity.go:245-254 | of readings oldest first, the highest use and the earliest time it was read, the demand by then, and whether and since when the window was full |
| Windows.SampleIsNewest | internal/quota/capacity.go:258-279 | the sample is of a newest reading of 5% to below 100% |
| Windows.FiveHourWindows | internal/quota/capacity.go:285-307 | a window per group; it counts for a plan exactly when it ran under that plan from its start to its last reading |
| Windows.FiveHourWindowMeans | internal/quota/capacity.go:285-307 | a five-hour window ends at the reset, to the minute, of a newest reading of its group and starts five hours before; it names the plan at its start exactly when that is known and every reading was made under it, and says why it names none |
| Windows.ResetIsNewest | internal/quota/capacity.go:226-228 | a group's reset is a newest reading's, to the nearest minute |
| Windows.WeeklyWindows | internal/quota/capacity.go:314-347 | each reading is in exactly one window, that of its reset group and its plan interval |
| Windows.HistoryWindows | internal/server/query/capacity.go:182 | the same of an account's saved plan history, whose ids are distinct |
| Windows.WeeklyWindowStarts | internal/quota/capacity.go:309-347 | a window starts a week before its reset, or with its plan interval when that began later, covers only readings made under that interval and names its plan; without one it names none and gives no sample |
| Windows.WeeklyWindowEnds | internal/quota/capacity.go:334-347 | a weekly window ends at the newest reset of its group and holds exactly the group's readings under its interval |
| LatestQuota.Latest | internal/quota/quota.go:133-174 | each limit's newest reading, replaced by statusLine readings in time order where those replace |
| LatestQuota.NeverOlder | internal/quota/quota.go:125-155 | the current value is never older than any reading a provider's own source reported |
| LatestQuota.AnyOrder | internal/quota/quota.go:133-155 | with distinct observation times the order of the snapshots does not matter |
| LatestQuota.OneAnswer | internal/quota/quota.go:133-174 | nor do statusLine readings no newer than the newest other reading: deleting or adding them changes nothing |
| LatestQuota.CurrentValue | internal/quota/quota.go:125-174 | the current value is reached from the newest reading of the other sources by statusLine readings in time order, each replacing it exactly when it is newer and shows a later window or more of the same, within a minute |
| LatestQuota.NothingLeftToSay | internal/quota/quota.go:160-174 | of complete readings, none that is newer than the current value shows a later window or more of the same one |
| LatestQuota.NewestAt | internal/quota/quota.go:133-147 | the newest reading of a limit, the first of those of one time |
| LatestQuota.ReadingsAre | internal/quota/quota.go:133-147 | which readings are the statusLine's and which are not |
| Resets.PastResets | internal/server/query/overview.go:168-222 | the reset times that count, merged in time order |
| Resets.PastResetsSpaced | internal/server/query/overview.go:156-222 | strictly increasing times in (start, end], at least merge apart, each reported by a running-window reading and not outvoted |
| Resets.MarksNameMostReported | internal/server/query/overview.go:163-222 | near resets are one: the times that count, reported within (start, end] by no fewer readings than contradict them, fall into runs, one to a mark; a mark is its run's most reported time, the latest on a tie, each further time of a run is nearer than merge to the most reported before it, and the next run begins no nearer |
| Resets.RunningOne | internal/server/query/overview.go:174-190 | a reading gives its reset, to the minute, exactly when it is complete, of the limit, and two minutes into its window |
| Resets.RunningConcat | internal/server/query/overview.go:174-190 | a snapshot's buckets are looked at one by one, in order |
| Resets.ReadingsOne | internal/server/query/overview.go:174-190 | a snapshot gives the readings of its buckets |
| Resets.OnePastResets | internal/server/query/overview.go:194-206 | neither the map's order nor the snapshots' matters |
| Resets.TimelineResets | internal/server/query/overview.go:241-255 | the past resets, with the current window's start where that is running and no mark is near |
| Resets.MarksStaySpaced | internal/server/query/overview.go:241-255 | the marks keep their order and spacing with it, and lie within the timeline |
| Resets.CurrentStartMarked | internal/server/query/overview.go:245-255 | the only mark besides the past resets is the start of a window its reading shows running, and such a start has a mark nearer than merge |
| Resets.Span | internal/server/query/overview.go:226-236 | the timeline's bins cover the window's length, start on round times, and the last one holds now |
| Shares.Apportion | internal/attribution/attribution.go:67-95 | each person's allotment and estimate, and what is left unattributed |
| Shares.UseIsConserved | internal/attribution/attribution.go:62-95 | people's estimated use and what is unattributed make up what the provider reports |
| Shares.AllotmentsMakeTheWhole | internal/attribution/attribution.go:70-79 | with positive total weight the allotments sum to 100 |
| Shares.BucketOverview | internal/server/query/overview.go:322-432 | each model's, member's, member's model's and member's device's part of a bucket's use |
| Shares.OverviewConserves | internal/server/query/overview.go:322-432 | members and unattributed make up the bucket's use; with any cost the models do too, and each member's models, and each member's devices, make up that member's use |
| Shares.ModelKeyTells | internal/server/query/overview.go:434-436 | the key tells the models of two gateways apart, exactly when neither gateway's name followed by NUL begins the other's; so a gateway's model from the same model used directly |
| Shares.ModelsShown | internal/server/query/overview.go:344-373 | each model shown is one of a row, shown once, with the part of the use its own rows cost |
| Shares.RowShown | internal/server/query/overview.go:344-373 | every model of a row is shown |
| Shares.MemberShown | internal/attribution/attribution.go:67-95 | a member's use is the part of the bucket's that the member's own rows cost |
| Shares.AllotmentShown | internal/attribution/attribution.go:70-79 | a member's allotment is to the whole as its weight to all the weights, and nothing without one |
| Shares.DeviceShown | internal/server/query/overview.go:412-416 | a member's device is shown exactly when its rows cost something, with the part of the use they cost |
| Shares.MembersModelShown | internal/server/query/overview.go:407-411 | so is a member's model |

## Left out

- Network, OAuth, keychain, subprocesses, file walking, database drivers and the desktop and web interfaces: I/O around the steps.
- Decoding of JSON, protobuf and SQLite logs: the parsers start from decoded lines; regular expressions and string classification are parameters.
- Clamping and dropping of invalid reports before `Ingest`, and protocol version checks: delivered records are taken as they reach it.
- Deleting persons, devices, accounts and memberships on the server: the runs are runs of `Ingest`.
- IEEE rounding and saturation of durations: sums, shares and percentiles are over the reals, times over unbounded integers; Go's zero time is `None`.
- PostgreSQL's rounding of times to microseconds: the server keeps the times it is sent.
- ExactlyOnce.ExactlyOnceEffect: says of the third-party mark only that the server has it where the device does, as a later reading can set it at the server alone; needs no gateway on the device's own events, a fixed provider for each dedupe key and no ledger reset, for which see `AfterReset`.
- AfterReset.AfterTheReset: says of a row from before the reset whose it is and which account it is on, not its counts; needs batches committed in the order of their ends, none of them read before the reset.
- ExactlyOnce.OneUploaderKeepsUp: takes a request that the client gave up, as after its timeout of 60 seconds, to be never committed later; one that is counts as a further uploader.
- SyncProtocol.NothingLost: says of readings only that they were queued, not that they are still in the device's readings table, which a correction may take them from.
- Rereading.RereadingKeepsHighest: speaks of one account for every copy of a response; copies on several accounts are corrections, which `ExactlyOnce` follows.
- Rollouts.Parse: takes the quota reading of a line as decoded; the mapping of window lengths to bucket keys would add only an easy member.
- SignIns.Attribute: attributes events; readings and limit hits of the same file follow the same `Resolve`.
- LatestQuota.AnyOrder: asks for distinct observation times per limit; readings of one time are taken in the order they come.
- Shares.BucketOverview: the request and token counters beside each share, and the display order of models, members and devices, are not modelled.
- The agent's status fields, overview cache and error reporting in `syncOnce`: wiring.
- `AccountCapacity`'s assembly of reports, calibration medians and plan rates: sums and lookups over what is proved here.
- SessionReplay.ReplaySessions: asks for a session length that is not negative; a negative one would put a session's end before its start. The source only ever passes five hours.
- Windows.Measure: asks for at least one reading, which every group and span has.
- The price table: costs are a parameter, non-negative where a lemma needs it.
