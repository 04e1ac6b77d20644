# Admin core, modelled and proved

A Dafny model of the stateful protocols and algorithms of a NestJS back office for a messaging
product. Every database, queue or cache call is one atomic step; requests overlap freely; a process
may stop between any two steps; a statement may fail, or commit and lose its answer. The main
results hold over every run of such steps, or for every input.

- `Idempotency`: overlapping requests claim, complete, replay and release a keyed record; the unique
  index is the only thing they share.
- `KeyText`, `BulkUpsert`: merging rows by a joined text key, cutting them into chunks and upserting them.
- `LagosTime`, `Rollups`, `RollupRuns`: Lagos days, the usage query with its revenue shares, and the runs
  that replace a day of the rollup table by its source.
- `Campaigns`, `CampaignWorker`: the campaign protocol with partial failure, crash, re-run and retry, and
  the worker's loop on the stored rows.
- `TtlCache`, `SessionStore`, `SessionGuard`, `SignOut`, `EpochBump`: a bounded cache with one load in
  flight per key, sessions under two clocks, the guard that checks a session's epoch through that cache,
  and what ending a session and bumping an epoch are worth.
- `Pagination`: keyset paging over a table that changes between pages.
- `SenderIdState`, `SenderIds`, `SenderIdsService`: review across two databases, with the sync that repairs
  drift.
- `Credits`: adjustments with a second approver, applied to a keyed ledger elsewhere over requests that
  may outlive their senders.
- `Csv`, `Redaction`, `CatchUp`: the CSV printer against a reader for section 2 of RFC 4180, the log
  redactor, and the catch-up day planner.
- `Cidr`, `NumberText`: IPv4 prefix matching against section 3.1 of RFC 4632, and JavaScript's `Number`
  on texts, by section 7.1.4.1 of ECMA-262.
- `Prelude`: what the parts share.

Protocols come in two layers. A pure `Step` function says what each step does and the theorems are
about `RunAll`, every sequence of steps. A class holds the same state in fields, and each method
promises that its statements perform exactly those steps; where a class carries a history (`past`,
`history`), its fields are always what the history makes of the start, so the theorems apply to them.

Where the code does less than its comments or its readers might expect, the model keeps the code. For
each of these there is a failing input or run, and the exact condition:

- A failed completion write lets a handler run again (`Idempotency.RefusedCompletionRunsTwice`), and a
  crash locks the key (`Idempotency.AbandonedKeyIsLocked`): `Idempotency.HandledAgainExactlyWhen`.
- A lost acknowledgement takes SENT back (`Campaigns.LostAckLeavesSentInHand`,
  `Campaigns.LostAckTakesSentBack`): `Campaigns.SentTakenBackExactlyWhen`.
- A `touch` can store a session that was just signed out (`SignOut.TouchUndoesSignOut`):
  `SignOut.RevokedReturnsExactlyWhen`.
- A role change can take longer than the time to live, by a slow staff query as long as it likes
  (`EpochBump.CachedRowOutlivesTheBump`, `EpochBump.LateLoadOutlivesTheBump`):
  `EpochBump.OldEpochPassesExactlyWhen`.
- An approval on its way survives a reopened review (`SenderIds.ResubmissionSlipsThrough`):
  `SenderIds.ApprovalSlipsExactlyWhen`.
- A rejected adjustment can still be posted, even by a request its sender gave up on
  (`Credits.TimedOutRequestPostsLate`): `Credits.RejectedPostsOnlyFromFlight`.
- A single null column loses its last row (`Csv.LastRowLost`): `Csv.CsvRoundTrip`.
- The mark can put a secret together again (`Redaction.BracketSecretSurvives`):
  `Redaction.OneSecretSurvivesExactlyWhen` for one secret, `Redaction.CleansExactlyWhen` for any number
  without brackets.
- Malformed addresses and lengths match although the comment promises false for them
  (`Cidr.MalformedAddresses`, `Cidr.MalformedLengths`, `Cidr.EmptyPrefixMatchesAll`):
  `Cidr.MalformedMatchesExactlyWhen`.
- A day that finishes late is forgotten (`CatchUp.OutOfOrderForgets`): `CatchUp.RestIsOwedExactlyWhen`.
- Today's hours and day drift apart when the product changes between their two readings
  (`RollupRuns.EventBetweenReadings`), or on rows that lost their source:
  `RollupRuns.CurrentDayAddsUpExactlyWhen`.

## Model

| member | source | states |
|---|---|---|
| `Idempotency.OneHandlerAtATime` | src/common/idempotency/idempotency.interceptor.ts:57-119 | In every interleaving two requests with one key, staff member and route are never both between claiming the record and giving it up, so at most one handler runs for it at a time |
| `Idempotency.NoHandlerBesideCompleted` | src/common/idempotency/idempotency.interceptor.ts:57-90 | While a record holds a response, no run is in its handler for that key |
| `Idempotency.ReplaysAreFaithful` | src/common/idempotency/idempotency.interceptor.ts:106-141 | Every replay returns exactly what the handler of a request with the same key and the same payload hash returned |
| `Idempotency.DuplicatesAreTold` | src/common/idempotency/idempotency.interceptor.ts:106-141 | In every reachable state a duplicate is told of another payload under the key before anything else, then of a request still in flight, and only then the stored response |
| `Idempotency.OneExecutedPerKey` | src/common/idempotency/idempotency.interceptor.ts:63-78 | At most one request per key is answered with its own handler's result |
| `Idempotency.CompletedIsFinal` | src/common/idempotency/idempotency.interceptor.ts:57-141 | After an answer with its own handler's result, in every continuation of the run: the record stays as it is, no handler runs for the key, and every later request with it is replayed or told of a conflict |
| `Idempotency.HandledAgainExactlyWhen` | src/common/idempotency/idempotency.interceptor.ts:57-119 | In every reachable state some continuation starts a handler for a key if and only if the key has no record or some request with it is between claiming the record and giving it up |
| `Idempotency.LockedIsFinal` | src/common/idempotency/idempotency.interceptor.ts:57-119 | A record with nobody busy on its key never changes in any continuation, no handler runs for the key and every later request is answered from the record, whether or not a request was ever told of its completion |
| `Idempotency.AbandonedKeyIsLocked` | src/common/idempotency/idempotency.interceptor.ts:63-113 | A crash while busy, or a claim whose acknowledgement is lost, locks the key for good: "still in flight" for ever without a response, replayed when the completion had been written |
| `Idempotency.ReleaseFreesTheKey` | src/common/idempotency/idempotency.interceptor.ts:79-86 | A failed request that deletes its record leaves the key free |
| `Idempotency.FreeKeyRunsHandler` | src/common/idempotency/idempotency.interceptor.ts:97-112 | A request that finds its key free reaches its handler |
| `Idempotency.RefusedCompletionRunsTwice` | src/common/idempotency/idempotency.interceptor.ts:63-86 | The limit of the protocol, by a concrete run: when the completion write fails the key is released although the handler returned, and a retry runs it again |
| `Idempotency.Interceptor.InterceptorIsSafe` | src/common/idempotency/idempotency.interceptor.ts:57-119 | However the methods below were interleaved: each busy request is alone with its key, each replay is what a handler with the same key and hash returned, and each executed answer has its final record in the table |
| `Idempotency.Interceptor.FindExisting` | src/common/idempotency/idempotency.interceptor.ts:106-107 | The request goes on to claim exactly when its key is free; otherwise it is told what a duplicate is told, a replay being what a handler of the same key and hash returned, and no record changes |
| `Idempotency.Interceptor.TryCreate` | src/common/idempotency/idempotency.interceptor.ts:109-113 | Exactly one request that found the key free reaches its handler, and nobody else is busy with the key then; a loser changes no record; a claim that commits unacknowledged leaves the key taken |
| `Idempotency.Interceptor.FindWinner` | src/common/idempotency/idempotency.interceptor.ts:112-118 | The loser of the race is told what a duplicate is told and never runs its handler; it fails exactly when the winner has given the key back |
| `Idempotency.Interceptor.HandlerSettles` | src/common/idempotency/idempotency.interceptor.ts:63-80 | When the handler settles the request still holds the key alone and no response is visible yet, so nobody can be answered before the completion is written |
| `Idempotency.Interceptor.WriteCompletion` | src/common/idempotency/idempotency.interceptor.ts:65-78 | Answered with its own result exactly when the write is acknowledged, and then the record is final; otherwise the request still holds the key alone, to give it back |
| `Idempotency.Interceptor.DeleteRecord` | src/common/idempotency/idempotency.interceptor.ts:80-86 | The key is free afterwards exactly when the delete is not refused, and no other record changes |
| `KeyText.JoinInjective` | src/modules/rollups/bulk-upsert.ts:78-85 | Two field lists of one length with the same NUL-joined key are the same list, when no field holds NUL |
| `KeyText.JoinAmbiguousWithNul` | src/modules/rollups/bulk-upsert.ts:78-85 | With NUL inside a field the key no longer separates the fields (a concrete pair) |
| `BulkUpsert.MergeByKey` | src/modules/rollups/bulk-upsert.ts:43-55 | The loop returns one row per key, in order of first appearance, each the sum of its input rows in order |
| `BulkUpsert.MergeConserves` | src/modules/rollups/bulk-upsert.ts:43-55 | Whatever the row sum adds up has the same total before and after merging |
| `BulkUpsert.MergeByEquivalentKeys` | src/modules/rollups/bulk-upsert.ts:43-55 | Merging by the text key is merging by the fields themselves whenever the text separates them |
| `BulkUpsert.Chunked` | src/modules/rollups/bulk-upsert.ts:25-30 | The slicing loop cuts the items up in order |
| `BulkUpsert.ChunksCover` | src/modules/rollups/bulk-upsert.ts:25-30 | The chunks put together are the items; every chunk is full but the last, which is not empty |
| `BulkUpsert.StoreMergedIsOverride` | src/modules/rollups/bulk-upsert.ts:101-126 | Storing merged rows one after the other is one override of the table by the per-key sums |
| `BulkUpsert.GroupSumOfMerged` | src/modules/rollups/bulk-upsert.ts:74-95 | Grouping what is already grouped changes no total |
| `BulkUpsert.RollupTable.ExecuteInsert` | src/modules/rollups/bulk-upsert.ts:106-124 | One statement is refused, and writes nothing, exactly when it names a key twice; otherwise every row of it is stored with the stamp given, or without one the stamp its key had |
| `BulkUpsert.RollupTable.ExecuteChunks` | src/modules/rollups/bulk-upsert.ts:106-125 | Chunks of rows with distinct keys are never refused and together store all rows |
| `BulkUpsert.RollupTable.Upsert` | src/modules/rollups/bulk-upsert.ts:101-126 | Merge, chunk and insert: no statement is refused and the table is overridden by the per-key sums of the input rows, each with the stamp given or the one it had, nothing else changing |
| `LagosTime.BoundsAreTheDay` | src/common/time/lagos.ts:28-36 | The half-open bounds of a Lagos day hold exactly the instants with that Lagos date |
| `LagosTime.LagosIsAnHourAhead` | src/common/time/lagos.ts:14-36 | A Lagos day begins at 23:00 UTC of the day before, and an instant lies in the hour, counted from there, that it is filed under |
| `LagosTime.EachLagosDay` | src/common/time/lagos.ts:68-77 | The loop returns every Lagos day a range touches, in order |
| `Rollups.UsageNameInjective` | src/modules/rollups/bulk-upsert.ts:78-85 | The text key of a usage row stands for its six fields |
| `Rollups.BucketNamesApart` | src/modules/rollups/rollups.service.ts:103-117 | The rows of one query never share a text key unless they share the six fields |
| `Rollups.RevenueConserved` | src/modules/rollups/rollups.service.ts:89-102 | With exact arithmetic, the revenue of a window is the charges of its standing debits, each once however many events share it, plus the cost of the events without a ledger row |
| `Rollups.UsageBucketsTell` | src/modules/rollups/rollups.service.ts:83-119 | The query returns one row for each date, hour, channel, account, country and provider that events of the window fall into, by their instants and own fields, with how many there are, how many are DELIVERED and FAILED, and what they earned: a part of a standing debit each, or their own cost |
| `Rollups.SourceTells` | src/modules/rollups/rollups.service.ts:83-119 | The same of the grouped source rows, for one key |
| `Rollups.PartHoursMakeTheDay` | src/modules/rollups/rollups.service.ts:84-117 | For any part of a window and any additive total, the hourly buckets of a date and dimension sum to its daily bucket |
| `Rollups.HoursMakeTheDay` | src/modules/rollups/rollups.service.ts:84-117 | Hourly and daily buckets of one window agree for every channel, account, country and provider |
| `RollupRuns.FinalisedDayIsSource` | src/modules/rollups/rollups.service.ts:125-152 | After a finalise run every key that events of the day fall into has their counts and earnings, and the day's daily rows are exactly those if and only if no row outside the source carries this run's stamp or a later one; other dates and hourly rows are untouched either way |
| `RollupRuns.FinaliseForgetsThePast` | src/modules/rollups/rollups.service.ts:125-152 | The result does not depend on what the table held before, and a second run changes no total |
| `RollupRuns.CurrentDayAddsUp` | src/modules/rollups/rollups.service.ts:175-196 | Over an older daily row: when both readings of the product give the day the same value, hours and day agree if and only if the hourly rows left without a source total 0; with no such row, if and only if both readings give that same value |
| `RollupRuns.CurrentDayAddsUpExactlyWhen` | src/modules/rollups/rollups.service.ts:175-200 | Today's run reads the product once for the hours and again for the day. Whatever the readings and stamps, the hourly rows of a dimension add up to its daily row if and only if the day as first read and the leftover hours come to what the day as read again and a leftover daily row do |
| `RollupRuns.EventBetweenReadings` | src/modules/rollups/rollups.service.ts:180-187 | An event that arrives between the two readings is in the day and in none of its hours, on an empty table with nothing left over |
| `RollupRuns.RequestNameInjective` | src/modules/rollups/bulk-upsert.ts:198-205 | The text key of a request row stands for its six fields |
| `RollupRuns.RequestsAttributed` | src/modules/rollups/rollups.service.ts:426-457 | Each of the three counts of a request bucket (all, client errors, server errors) is the number of log rows of the window in that Lagos hour with its endpoint, method and country whose API key prefix is mapped to its account; the empty account has those without a prefix, with an empty one, and with one mapped to no account |
| `RollupRuns.RequestsAllCounted` | src/modules/rollups/rollups.service.ts:397-460 | Each count adds up over the buckets of a window to the log rows it counts, the total to all of them |
| `RollupRuns.RollupsService.FinaliseDay` | src/modules/rollups/rollups.service.ts:125-152 | Upsert and sweep replace the day by its source, and every key that events of the day fall into holds their counts and earnings |
| `RollupRuns.RollupsService.UpsertDaily` | src/modules/rollups/rollups.service.ts:182-187 | Every daily key that events fall into holds their totals with this run's stamp, and no other row changes |
| `RollupRuns.RollupsService.RollUsage` | src/modules/rollups/rollups.service.ts:58-66 | Every hourly key that events of the window fall into holds their totals and keeps the stamp it had, and no other row changes |
| `RollupRuns.RollupsService.RollCurrentDay` | src/modules/rollups/rollups.service.ts:175-200 | Hourly rows of a first reading, then stamped daily rows of a second one, then the sweep: the hours hold the totals of the first reading's events, the day those of the second's |
| `RollupRuns.RollupsService.RollRequests` | src/modules/rollups/rollups.service.ts:397-460 | Every bucket with traffic in the window holds its three counts, attributed by prefix, and no other row changes |
| `Campaigns.DeliveredRows` | src/modules/notifications/in-app-delivery.service.ts:50-87 | After a delivery a user who had the notification has as many as before, any other one per mention in the batch |
| `Campaigns.DeliverTwice` | src/modules/notifications/in-app-delivery.service.ts:50-87 | Delivering a batch again changes nothing |
| `Campaigns.DeliveryKeepsBellsSingle` | src/modules/notifications/in-app-delivery.service.ts:50-87 | A delivery keeps users at one notification exactly when no user without one is named twice |
| `Campaigns.InAppExactlyOnce` | src/modules/notifications/campaign.processor.ts:80-193 | Over any sequence of sends, failing statements, crashes, re-runs and retries a user has at most one in-app row per campaign and an in-app recipient marked SENT has exactly one |
| `Campaigns.SentReachedTheRightOne` | src/modules/notifications/campaign.processor.ts:80-193 | Over every run: whoever is SENT in the app has the notification with the user a job resolved the account to, and whoever is SENT by mail or SMS was sent a message, which the client took, at an address a job resolved the account to |
| `Campaigns.NothingWithoutApproval` | src/modules/notifications/campaign.processor.ts:51-60 | Nothing is delivered or mailed for a campaign that needs approval and has none |
| `Campaigns.SentIsFinal` | src/modules/notifications/campaign.processor.ts:80-193 | A recipient that is SENT and no longer in the worker's hand stays SENT in every continuation, whichever acknowledgements are lost |
| `Campaigns.SentTakenBackExactlyWhen` | src/modules/notifications/campaign.processor.ts:80-193 | In every reachable state some continuation takes SENT back from a recipient if and only if the worker still has it in hand |
| `Campaigns.NoLostAckNoTakingBack` | src/modules/notifications/campaign.processor.ts:80-193 | A run that loses no acknowledgement of a SENT update never has a SENT recipient in hand, so none reverts |
| `Campaigns.LostAckTakesSentBack` | src/modules/notifications/campaign.processor.ts:128-145 | How that happens: an update to SENT that commits but reports an error is followed by FAILED, though the users have their notifications |
| `Campaigns.LostAckLeavesSentInHand` | src/modules/notifications/campaign.processor.ts:126-145 | A run from a campaign of which nothing has happened to a state in which its recipient has the notification, is SENT, and can be taken back |
| `CampaignWorker.BatchShrinksPending` | src/modules/notifications/campaign.processor.ts:80-85 | Settling a batch that was pending strictly decreases the number of pending recipients |
| `CampaignWorker.CountsCover` | src/modules/notifications/campaign.processor.ts:197-204 | With nobody pending the two counts add up to the recipients |
| `CampaignWorker.JobTotals` | src/modules/notifications/campaign.processor.ts:195-215 | A job that settled everyone stored how many were reached and how many were not, and FAILED exactly when there are recipients and none of them is SENT |
| `CampaignWorker.CampaignStore.StoreIsSafe` | src/modules/notifications/campaign.processor.ts:40-221 | Whatever sequence of these methods was used, the theorems of every run hold of the stored rows |
| `CampaignWorker.CampaignStore.FindPending` | src/modules/notifications/campaign.processor.ts:81-85 | The batch is pending recipients, without repeats, empty only when nobody is pending |
| `CampaignWorker.CampaignStore.DeliverAndMark` | src/modules/notifications/campaign.processor.ts:126-146 | Deliver and mark SENT, or on any error mark FAILED; a user is notified at most once either way |
| `CampaignWorker.CampaignStore.SendInAppBatch` | src/modules/notifications/campaign.processor.ts:87-148 | Every recipient of an in-app batch leaves PENDING unless the job is cut short |
| `CampaignWorker.CampaignStore.SendMail` | src/modules/notifications/campaign.processor.ts:150-191 | One mail or SMS recipient ends SENT or FAILED unless the job is cut short |
| `CampaignWorker.CampaignStore.SendMailBatch` | src/modules/notifications/campaign.processor.ts:150-192 | Every recipient of the batch is settled unless the job is cut short |
| `CampaignWorker.CampaignStore.SendLoop` | src/modules/notifications/campaign.processor.ts:80-193 | The loop terminates, and then nobody is pending |
| `CampaignWorker.CampaignStore.MaterialiseRecipients` | src/modules/notifications/campaigns.service.ts:375-401 | Everyone in the audience gets a row once, in chunks; existing rows stay as they are |
| `CampaignWorker.CampaignStore.FinishJob` | src/modules/notifications/campaign.processor.ts:197-215 | The stored counts are the numbers of SENT and of FAILED recipients, and the status is FAILED exactly when none is SENT and some are FAILED |
| `CampaignWorker.CampaignStore.RunApproved` | src/modules/notifications/campaign.processor.ts:62-215 | A job past its checks ends with every recipient settled and the totals stored, unless it is cut short |
| `CampaignWorker.CampaignStore.Run` | src/modules/notifications/campaign.processor.ts:40-221 | One job: nothing happens for a deleted, cancelled, sent or unapproved campaign, else the above |
| `CampaignWorker.CampaignStore.Retry` | src/modules/notifications/campaigns.service.ts:301-346 | Only a finished campaign with failures; exactly its FAILED recipients become PENDING |
| `CampaignWorker.CampaignStore.ScheduleSend` | src/modules/notifications/campaigns.service.ts:244-287 | Refused once started or ended, and until a needed approval is given |
| `CampaignWorker.CampaignStore.CancelSend` | src/modules/notifications/campaigns.service.ts:348-372 | Refused while sending and after |
| `TtlCache.OneLoadPerKeyAndBounded` | src/common/cache/ttl-cache.ts:18-55 | In every reachable state a key has at most one load in flight and, with room for at least one entry, the entries never exceed the bound |
| `TtlCache.NoRoomOverflows` | src/common/cache/ttl-cache.ts:43-55 | With a bound of 0 the first settled load exceeds it |
| `TtlCache.HitIsFresh` | src/common/cache/ttl-cache.ts:18-33 | In every reachable state a hit is the value of a load of that key that settled less than the time to live before |
| `TtlCache.FailedLoadLeavesEntries` | src/common/cache/ttl-cache.ts:25-30 | A load that fails changes no entry, and the next caller loads again |
| `TtlCache.MakeRoomFrees` | src/common/cache/ttl-cache.ts:44-53 | Making room leaves a place, and drops a live entry only when all are live: the oldest insertion |
| `TtlCache.TtlCache.BeginGet` | src/common/cache/ttl-cache.ts:18-32 | A hit exactly when there is an entry that has not expired, with its value; else the load in flight for the key, or a new one; no entry changes |
| `TtlCache.TtlCache.LoadSettles` | src/common/cache/ttl-cache.ts:26-29 | The value is stored under the key of its load, fresh for the time to live, as `set` stores it, and the settling is logged |
| `TtlCache.TtlCache.LoadEnds` | src/common/cache/ttl-cache.ts:30 | The load is no longer in flight nor pending for its key, and no entry changes |
| `TtlCache.TtlCache.Remove` | src/common/cache/ttl-cache.ts:35-37 | Exactly that entry is gone, and loads in flight stay |
| `TtlCache.TtlCache.Clear` | src/common/cache/ttl-cache.ts:39-41 | Every entry is gone, and loads in flight stay |
| `TtlCache.TtlCache.Set` | src/common/cache/ttl-cache.ts:43-55 | The value is stored with its expiry; of the others all stay when there was room, the live ones when something had expired, and all but the oldest insertion when nothing had; a key that stays keeps its place, a new one goes last |
| `TtlCache.TtlCache.DropExpired` | src/common/cache/ttl-cache.ts:46-47 | The deleting loop leaves exactly the live entries, in insertion order |
| `SessionStore.StoredUntilEitherClock` | src/common/auth/session.service.ts:188-207 | A record stored as it was last seen is found again exactly until its idle allowance or absolute lifetime is over |
| `SessionStore.PendingLastsTenMinutes` | src/common/auth/session.service.ts:48-56 | In plain numbers: a verified session lasts the idle time, one without its second factor ten minutes at least, and neither outlives its absolute lifetime |
| `SessionStore.SessionService.Get` | src/common/auth/session.service.ts:100-116 | A record comes back only within its idle allowance and its absolute lifetime, and is absent exactly when it is not stored or Redis has dropped it |
| `SessionStore.SessionService.Write` | src/common/auth/session.service.ts:201-206 | What `touch` stores at once is found again at every later moment until either clock runs out and at none after; every other session is found as before |
| `SessionStore.SessionService.Revoke` | src/common/auth/session.service.ts:147-149 | At every moment afterwards nobody finds the session, and every other one is found as before |
| `SessionGuard.StaleEpochNeedsAnOldLoad` | src/common/auth/session.guard.ts:61-93 | Over every run: whoever is admitted with an epoch that was bumped away came in through a staff row whose load began no later than the bump and that settled less than the time to live before, however often a `touch` re-saved a revoked session |
| `SessionGuard.BumpShutsOut` | src/common/auth/session.guard.ts:73-91 | So no session of an older epoch is admitted later than the slowest load, 10 seconds and the slowest `touch` after the bump; an admission counts from the moment its `touch` is stored |
| `SessionGuard.InactiveNeedsAnOldLoad` | src/common/auth/session.guard.ts:61-93 | The same for a deactivation: whoever is admitted and has been inactive since was judged by a row whose load began no later than that and settled less than the time to live before the verdict |
| `SessionGuard.DeactivationShutsOut` | src/common/auth/session.guard.ts:73-84 | So nobody is admitted who has been inactive for longer than the slowest load, 10 seconds and the slowest `touch` together |
| `SessionGuard.AdmittedWithinBothClocks` | src/common/auth/session.service.ts:100-141 | Every admission carries the staff member and epoch its session was minted with, is within the absolute lifetime, and follows the sign-in or another admission within the idle allowance |
| `SessionGuard.AdmittedCameIn` | src/common/auth/session.guard.ts:61-93 | Over every run: everyone let through entered with the right CSRF token on a session that was live, had its second factor, and was for the same member and epoch, at that moment of the run |
| `SessionGuard.EveryoneCameIn` | src/common/auth/session.guard.ts:61-93 | The same of every request that waits for a staff row or goes on with one, and of every verdict in a request's favour |
| `SessionGuard.BadTokenEnds` | src/common/auth/session.guard.ts:61-71 | A request with a bad token, or whose session is not live or lacks its second factor, ends at once and changes nothing else, but that an expired session is then revoked |
| `SessionGuard.BadTokenNeverPasses` | src/common/auth/session.guard.ts:66-71 | A request that entered with a bad token is judged in its favour in no run |
| `SessionGuard.FactorWasVerified` | src/common/auth/session.service.ts:58-84 | Over every run: no copy of a session, stored or held, says that its second factor was verified unless an action of the run verified it |
| `SessionGuard.SecondFactorIsUpdated` | src/modules/auth/auth.service.ts:136-150 | How one is verified: a live copy is read, marked and stored again, and is then found with its second factor and otherwise as it was |
| `SignOut.RevokedReturnsExactlyWhen` | src/common/auth/session.service.ts:138-160 | In every reachable state, for a session that was minted and is not stored: some continuation stores it again if and only if some request still holds a copy it may store (a write on its way, a copy held for an update, or a request still to be judged on a row that admits it); otherwise nobody is judged in its favour again |
| `SignOut.GoneForGood` | src/common/auth/session.guard.ts:28-93 | A session nobody holds stays gone in every continuation |
| `SignOut.TouchUndoesSignOut` | src/common/auth/session.guard.ts:79-93 | A run from the empty system in which it is not: a request is judged, its session signed out, and the write of its `touch` stores it again, live |
| `EpochBump.OldEpochPassesExactlyWhen` | src/common/auth/session.guard.ts:73-91 | In every reachable state, for an epoch that was bumped away: some continuation judges a request of the member with that epoch in its favour if and only if its row is cached and fresh, was read by a load in flight, or was handed to a request with that epoch that is about to be judged |
| `EpochBump.CachedRowOutlivesTheBump` | src/common/auth/session.guard.ts:73-93 | A run from the empty system: for as long as the row is fresh, a request after the bump is let through with the old epoch |
| `EpochBump.LateLoadOutlivesTheBump` | src/common/auth/session.guard.ts:25-33 | Against the comment there, a run from the empty system: a staff query reads the row before the bump and is answered any time later, and its request is let through then with the old epoch |
| `SessionGuard.Guard.Verdict` | src/common/auth/session.guard.ts:79-93 | A missing or inactive member or another epoch has its row dropped and its session about to be revoked; otherwise the idle window is about to slide to now, with the time that both clocks leave, and the verdict is recorded |
| `SessionGuard.Guard.Ask` | src/common/auth/session.guard.ts:73-78 | A cached row is judged at once, otherwise the request waits for one load |
| `SessionGuard.Guard.Enter` | src/common/auth/session.guard.ts:48-78 | A bad token, a session that is not live or one without its second factor is turned away at once; whoever gets past that is a step of the guard |
| `SessionGuard.Guard.Decide` | src/common/auth/session.guard.ts:79-93 | The same verdict after the wait, as one step of the guard |
| `SessionGuard.Guard.LoadSettles` | src/common/auth/session.guard.ts:73-78 | The row a staff query found is cached for 10 seconds, as one step of the guard |
| `SessionGuard.Guard.LoadEnds` | src/common/auth/session.guard.ts:73-78 | Everyone who waited for the load goes on with its row, or fails with it, and nobody else moves |
| `SessionGuard.Guard.Save` | src/common/auth/session.service.ts:188-207 | The record is stored unless the write is refused, and the request is let through exactly when it was the acknowledged write of a verdict |
| `SessionGuard.Guard.Revoke` | src/common/auth/session.guard.ts:81-90 | The session is deleted and the request ends |
| `Pagination.WhereIsAfter` | src/common/http/pagination.ts:64-72 | The cursor filter matches exactly the rows that come after the cursor in the sort order, which is total |
| `Pagination.CursorWhenMore` | src/common/http/pagination.ts:46-61 | There is a next cursor exactly when there is more and the limit is positive, and it is the key of the last row shown |
| `Pagination.ShownOrAfter` | src/common/http/pagination.ts:46-72 | A matching row is on the page or matches the next cursor |
| `Pagination.WalkDescends` | src/common/http/pagination.ts:46-72 | Whatever is inserted or deleted between pages, a walk shows strictly descending keys |
| `Pagination.NoRowTwice` | src/common/http/pagination.ts:46-72 | No row is shown twice, even one that changed in between |
| `Pagination.SurvivorsShownOnce` | src/common/http/pagination.ts:46-72 | A completed walk shows every row that was in the table throughout exactly once |
| `Pagination.StaticWalkIsListing` | src/common/http/pagination.ts:46-72 | On an unchanging table the pages of a completed walk concatenate to the sorted list |
| `Pagination.WalkEndsExactlyWhen` | src/common/http/pagination.ts:46-72 | On a table that does not change a walk is complete if and only if its pages can hold every row: after at most n / limit + 1 pages |
| `Pagination.ListingUnique` | src/common/http/pagination.ts:43-45 | The sorted list of a set of rows is unique |
| `SenderIdState.StatusesAgree` | src/modules/sender-ids/sender-id-state.ts:40-75 | A review exists for exactly the three filed product statuses (after trimming and upper-casing), presents as the one it came from, and a decision writes the word its review shows |
| `SenderIdState.FourWords` | src/modules/sender-ids/sender-id-state.ts:31-37 | The product's four words mean their four statuses, in small letters too |
| `SenderIdState.PresentsAs` | src/modules/sender-ids/sender-id-state.ts:40-53 | Which stored statuses present as waiting, approved and rejected |
| `SenderIdState.AllowedUnlessDecided` | src/modules/sender-ids/sender-id-state.ts:92-103 | A decision is allowed exactly when the review does not already present as decided that way |
| `SenderIds.UndecidedWhileWaiting` | src/modules/sender-ids/sender-ids.service.ts:81-95 | Over every run of overlapping syncs, decisions and crashes: `decidedAt` is null exactly while the review presents as PENDING_REVIEW |
| `SenderIds.ConsoleWritesOnlyDecisions` | src/modules/sender-ids/sender-ids.service.ts:662-777 | Over every run the console writes only APPROVED or REJECTED into the product, every rejection with a non-empty reason, and every approval with all checklist items passed since the review was created or last reopened, unless it was reopened between the read and the write |
| `SenderIds.ApprovalSlipsExactlyWhen` | src/modules/sender-ids/sender-ids.service.ts:662-734 | In every reachable state a decision under way can still approve an application whose checklist was cleared, in some continuation, if and only if it is an approval past its checks on the review, confirmed against the product or not, of a waiting application as much as of a refused one |
| `SenderIds.SyncReopens` | src/modules/sender-ids/sender-ids.service.ts:213-258 | A sync that finds a refused application waiting again reopens its review |
| `SenderIds.ResubmissionSlipsThrough` | src/modules/sender-ids/sender-ids.service.ts:701-734 | How it happens: from every reachable state with a confirmed approval and a review that presents as refused, a resubmission and a sync just before the write leave the application approved on a checklist that was cleared |
| `SenderIds.SyncAgrees` | src/modules/sender-ids/sender-ids.service.ts:135-191 | From any pair of stores one sync leaves a review for every filed application, agreeing with it in product terms, and makes or touches no other |
| `SenderIds.SyncedTells` | src/modules/sender-ids/sender-ids.service.ts:78-262 | After one sync, in the product's words: a review made for an application has its filing date, the product's decision and reason, and a blank checklist; one that had drifted has the product's decision, its time and reason, or starts over; every other is what it was |
| `SenderIds.SyncTwiceIsOnce` | src/modules/sender-ids/sender-ids.service.ts:135-191 | A second sync creates and refreshes nothing |
| `SenderIds.SyncFinishesADecision` | src/modules/sender-ids/sender-ids.service.ts:201-262 | A decision that stopped after the product transaction is completed by the next sync, with its time and the reason shown |
| `SenderIds.ResubmittedStartsOver` | src/modules/sender-ids/sender-ids.service.ts:225-247 | A refresh back to waiting clears the decision, the assignee and every checklist mark |
| `SenderIds.DecisionNeeds` | src/modules/sender-ids/sender-ids.service.ts:677-699 | An approval needs every item passed on a review not presenting as approved, a rejection a written reason on one not presenting as rejected |
| `SenderIds.DecisionTells` | src/modules/sender-ids/sender-ids.service.ts:669-777 | What a decision writes: the word, its time and, for a rejection, the trimmed reason, labelled when changes were asked for; on the review the decision, its time and the reason; nothing else |
| `SenderIds.MarkedRecords` | src/modules/sender-ids/sender-ids.service.ts:624-636 | Each listed item holds the value of its last mark and every other one is unchanged |
| `SenderIds.AllPassedMayApprove` | src/modules/sender-ids/sender-ids.service.ts:611-699 | With every item marked and every mark a pass, a waiting review may be approved |
| `SenderIdsService.SenderIdsService.SyncFromProduct` | src/modules/sender-ids/sender-ids.service.ts:135-191 | The two loops compute that sync, told in the product's words, and count exactly what was created and refreshed |
| `SenderIdsService.SenderIdsService.RefreshDrifted` | src/modules/sender-ids/sender-ids.service.ts:201-262 | The refresh loop updates exactly the drifted reviews |
| `SenderIdsService.SenderIdsService.ImportMissing` | src/modules/sender-ids/sender-ids.service.ts:158-172 | The import loop creates exactly the missing reviews of filed applications |
| `SenderIdsService.SenderIdsService.EnsureReview` | src/modules/sender-ids/sender-ids.service.ts:62-123 | A review is made exactly when there is none and the application is filed |
| `SenderIdsService.SenderIdsService.RefreshReview` | src/modules/sender-ids/sender-ids.service.ts:213-259 | One turn of the refresh loop, as one step of the protocol |
| `SenderIdsService.SenderIdsService.UpdateChecklist` | src/modules/sender-ids/sender-ids.service.ts:611-636 | Refused as a whole when an item is unknown; else each listed item holds the value of its last mark and nothing else of the review changes |
| `SenderIdsService.SenderIdsService.BeginDecide` | src/modules/sender-ids/sender-ids.service.ts:663-699 | The transition, reason and checklist checks on the review read |
| `SenderIdsService.SenderIdsService.ConfirmLive` | src/modules/sender-ids/sender-ids.service.ts:701-715 | The product must still read as the review did |
| `SenderIdsService.SenderIdsService.WriteProduct` | src/modules/sender-ids/sender-ids.service.ts:723-755 | The product transaction, with its three outcomes |
| `SenderIdsService.SenderIdsService.RecordReview` | src/modules/sender-ids/sender-ids.service.ts:762-777 | The review update that follows |
| `SenderIdsService.SenderIdsService.Decide` | src/modules/sender-ids/sender-ids.service.ts:662-799 | The product is written exactly when the decision is allowed, the product says what the review does and its transaction commits; the review follows if that was acknowledged and its own update commits; both hold the decision, its time and the reason shown, and nothing else changes |
| `Credits.BalanceIsConserved` | src/modules/credits/credits.service.ts:45-238 | Over every interleaving with lost and late answers and retries each balance is what moved the account elsewhere since it was opened, plus its posted credits and less its posted debits, each counted once |
| `Credits.RowsAreRequested` | src/modules/credits/credits.service.ts:45-77 | Every adjustment is one that was requested: its account, direction, amount, key and requester are those of a request of the run, and never change |
| `Credits.PostingMoves` | src/modules/credits/credits.service.ts:171-180 | In every reachable state, a credit that is posted raises its account by its amount, a debit lowers it, and nothing else moves |
| `Credits.AppliedIsPosted` | src/modules/credits/credits.service.ts:171-189 | APPLIED implies posted, and nothing posted still waits for approval |
| `Credits.LargeSumsNeedTwo` | src/modules/credits/credits.service.ts:61-133 | Every posting above the threshold has an approver other than its requester |
| `Credits.RejectedPostsOnlyFromFlight` | src/modules/credits/credits.service.ts:150-163 | `reject` checks no status: a rejected adjustment not yet posted can still be posted in some continuation if and only if a run was at work on it or a request for it, even one its sender timed out on, was still on its way to the ledger |
| `Credits.RejectedStays` | src/modules/credits/credits.service.ts:109-238 | With nothing at work on it and nothing on its way, a rejected adjustment stays rejected and unposted in every continuation |
| `Credits.TimedOutRequestPostsLate` | src/integrations/api-core/template-review.client.ts:285-306 | From every reachable state with a request on its way: its sender times out, the row is marked FAILED and then rejected, nobody is at work on it, and the request still posts |
| `Credits.RepostMovesNothing` | src/modules/credits/credits.service.ts:171-180 | Delivering a request for a key the ledger has posted moves no balance |
| `Credits.CreditsService.Request` | src/modules/credits/credits.service.ts:45-107 | The row a request appends, with its account, direction, amount, key and requester: waiting for approval above the threshold, approved by its requester otherwise; and exactly when it appends none: no positive amount, no account, or a refused write |
| `Credits.CreditsService.BeginApprove` | src/modules/credits/credits.service.ts:110-124 | Only a pending adjustment, and not by its requester |
| `Credits.CreditsService.MarkApproved` | src/modules/credits/credits.service.ts:126-133 | The approving update, which does not look again |
| `Credits.CreditsService.Approve` | src/modules/credits/credits.service.ts:110-148 | When it reports success the adjustment is applied, posted and approved by someone else than its requester |
| `Credits.CreditsService.Reject` | src/modules/credits/credits.service.ts:150-163 | The status becomes REJECTED, whatever it was |
| `Credits.CreditsService.LedgerHandles` | src/modules/credits/credits.service.ts:174-180 | The ledger handles it: an accepted one is posted, and one refused or posted before moves nothing |
| `Credits.CreditsService.CallLedger` | src/modules/credits/credits.service.ts:174-180 | However the call ends the balance moves at most once per key; a request given up on stays on its way |
| `Credits.CreditsService.MarkApplied` | src/modules/credits/credits.service.ts:182-189 | The update to APPLIED, with its three outcomes |
| `Credits.CreditsService.MarkFailed` | src/modules/credits/credits.service.ts:210-219 | Whatever failed inside the `try` marks the row FAILED |
| `Credits.CreditsService.Apply` | src/modules/credits/credits.service.ts:166-225 | It succeeds exactly when the ledger answers, the row is updated and the audit is written; otherwise the row is FAILED, even if the money moved, and no order field ever changes |
| `Credits.CreditsService.Retry` | src/modules/credits/credits.service.ts:228-238 | Only a FAILED adjustment is applied again, and one the ledger already posted moves nothing |
| `Csv.CsvRoundTrip` | src/modules/jobs/exports.processor.ts:232-250 | Reading the file back (section 2 of RFC 4180, LF line ends) recovers the header and every cell, with null apart from the empty text, if and only if there is a column and it is not a single column ending in null |
| `Csv.RecoveredTells` | src/modules/jobs/exports.processor.ts:232-250 | What is recovered: the keys of the first row as the header, and under each of them every row's value, or null where it has none; a text is itself, behind an apostrophe only if it starts with = + - @ tab or CR |
| `Csv.LastRowLost` | src/modules/jobs/exports.processor.ts:246-249 | In that exception the reader sees every row but the last |
| `Csv.RecoveredIsInert` | src/modules/jobs/exports.processor.ts:242 | No recovered cell or header starts with = + - @ tab or CR |
| `Csv.GuardConfuses` | src/modules/jobs/exports.processor.ts:242 | The guard maps two texts to one exactly when they are equal or one is the other, a formula, behind an apostrophe |
| `Csv.FieldReadsBack` | src/modules/jobs/exports.processor.ts:236-244 | One cell reads back before any comma or line end |
| `Redaction.Redact` | src/common/log-redaction.ts:54-62 | The loop cleans the text of every secret when none overlaps the mark, brackets or not, and leaves a text without secrets unchanged |
| `Redaction.CleansExactlyWhen` | src/common/log-redaction.ts:54-62 | For bracket-free secrets every text is cleaned if and only if no secret is part of the word "redacted" |
| `Redaction.OneSecretSurvivesExactlyWhen` | src/common/log-redaction.ts:54-62 | For one secret of any characters: some text still holds it after redaction if and only if it is inside the mark, begins with an end of the mark, or has an end that is read in a mark and whose front does not form it earlier when the secret follows |
| `Redaction.SplitJoinBringsNothing` | src/common/log-redaction.ts:58 | Replacing a secret leaves no occurrence of it, and brings in none of any other that does not overlap the mark |
| `Redaction.ReplacedAt` | src/common/log-redaction.ts:58 | Up to the first occurrence of a secret a text is copied; there stands the mark, and what follows is treated the same |
| `Redaction.NoneStays` | src/common/log-redaction.ts:58 | A text without the secret is copied to its end |
| `Redaction.EmptyPartSeparates` | src/common/log-redaction.ts:58 | The empty part puts a mark between any two characters and none at the ends |
| `Redaction.RedactTwiceIsOnce` | src/common/log-redaction.ts:54-62 | Redacting twice is redacting once |
| `Redaction.BracketSecretSurvives` | src/common/log-redaction.ts:54-62 | A secret can be put together by the mark itself (a concrete text) |
| `Redaction.BracketSecretGoes` | src/common/log-redaction.ts:54-62 | A bracket alone does no harm: "x[y" is removed from every text |
| `Redaction.CollectSecrets` | src/common/log-redaction.ts:15-48 | The loop returns every form of every configured credential once, longest first |
| `Redaction.FormsAreCredentials` | src/common/log-redaction.ts:15-48 | Those forms are exactly each credential of at least six characters, and its URL-encoding: the password of a connection string as written and decoded, one that cannot be parsed itself, and the value of a variable with a secret's name |
| `Redaction.SecretReplacedWhole` | src/common/log-redaction.ts:46-47 | In that order a secret printed on its own becomes the mark alone, even when other secrets are part of it |
| `Cidr.CidrIsBlock` | src/common/auth/cidr.ts:6-18 | The shift-and-mask test holds exactly when four numerals between points spell each address, the length is missing or its numeral spells an integer from 0 to 32, and the address is in the aligned block of size 2^(32-bits) (section 3.1 of RFC 4632), length 0 and addresses above 2^31 included |
| `Cidr.ToIntIsAddress` | src/common/auth/cidr.ts:20-26 | An address is read exactly from four numerals between points that spell octets, as the unsigned number of those octets |
| `Cidr.MaskIsHighBits` | src/common/auth/cidr.ts:16 | The shifted mask is all ones above the host bits, for every length from 1 to 32 |
| `Cidr.AndHighBits` | src/common/auth/cidr.ts:17 | Bitwise and with such a mask clears the host bits |
| `Cidr.ShorterPrefixHoldsMore` | src/common/auth/cidr.ts:6-18 | A shorter prefix of a range holds every address a longer one does |
| `Cidr.MalformedMatchesExactlyWhen` | src/common/auth/cidr.ts:1-26 | Against the comment above it: a pair that is not a plain dotted quad and a plain range is matched all the same if and only if it spells a match and some octet or the length is no plain decimal, or a second slash follows |
| `Cidr.QuadIsRead` | src/common/auth/cidr.ts:20-26 | A plain dotted quad is read as the address it shows |
| `Cidr.MalformedAddresses` | src/common/auth/cidr.ts:20-26 | "10..0.1", "0x0a.0.0.1", " 10.0.0.1" and "1e1.0.0.1" are taken for 10.0.0.1 |
| `Cidr.MalformedLengths` | src/common/auth/cidr.ts:7-13 | The lengths "" and " " are taken for 0, "0x8" and "8.0" for 8 |
| `Cidr.NumbersInAllShapes` | src/common/auth/cidr.ts:8 | "-0" is 0, "+7", "70e-1" and ".5E+1" are 7, 7 and 5, "0b11" and "0O17" are 3 and 15, and "-1" is no octet |
| `Cidr.EmptyPrefixMatchesAll` | src/common/auth/cidr.ts:6-14 | A range with an empty or blank length ("10.0.0.0/") matches every address |
| `NumberText.ReadExactly` | src/common/auth/cidr.ts:8 | The reader finds a numeral in a text exactly when the text is that numeral of section 7.1.4.1 of ECMA-262 between white space |
| `NumberText.IntegerExactly` | src/common/auth/cidr.ts:8-13 | The integer found, within the bounds, is exactly the one to which no double is nearer than to the exact value of the numeral |
| `NumberText.NearIsNearest` | src/common/auth/cidr.ts:21-22 | The interval tested is exactly the values to which no double is nearer than the integer, for every integer up to 255 |
| `CatchUp.MissingFinaliseDays` | src/modules/jobs/catch-up.ts:19-39 | The loop lists the owed days, never today and never more than 14 |
| `CatchUp.HistoryDays` | src/modules/jobs/catch-up.ts:58-77 | The loop lists the days of history to load |
| `CatchUp.OwedExactly` | src/modules/jobs/catch-up.ts:19-39 | A day is owed exactly when it is before today, not before the watermark (two days ago without one) and at most 14 days back |
| `CatchUp.InOrderLeavesTheRest` | src/modules/jobs/rollups.processor.ts:43-60 | Finishing the first owed days in order, with days of history anywhere in between, leaves exactly the rest owed |
| `CatchUp.OwedAfter` | src/modules/jobs/rollups.processor.ts:55-60 | When the last nightly day to finish is an owed one, exactly the days after it stay owed |
| `CatchUp.OutOfOrderForgets` | src/modules/jobs/rollups.processor.ts:53-60 | So a day that has not finished is forgotten once a later one has |
| `CatchUp.RestIsOwedExactlyWhen` | src/modules/jobs/rollups.processor.ts:53-60 | In any order of finishing, the unfinished owed days are exactly what stays owed if and only if the finished ones are a front of the owed days whose last day finished last |
| `CatchUp.LastNightlyDecides` | src/modules/jobs/rollups.processor.ts:53-60 | The watermark depends on the last nightly day alone, never on history |
| `CatchUp.RollupsProcessor.MarkFinalised` | src/modules/jobs/rollups.processor.ts:53-60 | At whatever time it is asked for afterwards: a finished owed day and those before it are owed no more and the later ones still are, while a day of history changes nothing |
| `CatchUp.RollupsProcessor.StoredRestIsOwed` | src/modules/jobs/rollups.processor.ts:53-60 | The same exact condition on the stored watermark, whatever jobs finished |
| `CatchUp.FirstStartCovers` | src/modules/jobs/catch-up.ts:19-77 | On a first start history and owed days are disjoint and hold every day from the first activity, at most 120 days back, to yesterday |
| `CatchUp.FirstStartIsExact` | src/modules/jobs/catch-up.ts:19-77 | They are exactly those days, in order, if and only if the first activity is at least two days old |

## Left out

- Prisma, Postgres, Redis, BullMQ, rxjs and HTTP: tables are maps or sequences, queries functions on them, and each awaited call one atomic step.
- Hashes, random ids and tokens: opaque values; the payload hash is taken to be injective and random ids never repeat.
- JSON and base64 encoding of cursors, responses and session records: taken as the identity; a mangled cursor is no cursor.
- The time zone database: Africa/Lagos is a constant hour ahead, and a day is its number instead of its ISO date.
- Floats and the rounding of Postgres `numeric`: revenue and credit amounts are reals.
- Overlapping rollup runs of one day: the sweep is claimed for runs with their own stamp only.
- Hourly usage rows and request rows that lost their source: nothing sweeps them; the model only says what they come to (`RollupRuns.CurrentDayAddsUpExactlyWhen`).
- A debit whose events fall into two windows: shares are by window, and so is the claim.
- Destination, cash and finance rollups: further uses of the same merge and upsert.
- Mail and SMS sends: at least once across a crash; only in-app rows are exactly once.
- Campaigns: the DELIVERED and SKIPPED recipient states, the approval step itself, rendering, audience queries and the nudge to the customer app; one worker runs at a time.
- CampaignWorker.CampaignStore.Run: a job cut short promises only what every run keeps.
- SessionGuard: cookies beyond the one candidate a request is entered with, the staff index of a session, permissions and impersonation; promise callbacks run before the clock moves. A sign-in carries the epoch it read, which may be an old one, and its second factor may come with it.
- SessionGuard.BumpShutsOut: the bound is in terms of the slowest load and the slowest `touch`, since nothing in the code limits them.
- The JSON cache key of `cacheKey` and the callers of the cache other than the guard.
- `staff.list` with a search term: its own `OR` replaces the cursor's, so the paging walk does not apply to it.
- Sender ID events, comments, notifications, documents and the queue listing; the SLA due date is a function of `submittedAt`. Upper-casing is modelled on the letters that can spell one of the four statuses.
- SenderIds.SyncAgrees: for a sync that nothing interrupts; a sync on an old reading is covered by the theorems of every run.
- The ledger behind the credit adjustments: that it honours its idempotency key is an assumption; requests on their way are delivered in any order and at any time, or never. Notifications and audit texts are not modelled.
- Turning cell values into text, and quoting by other spreadsheets' rules.
- The name patterns, URL parser and codings of the secret collector, and the rendering of logged objects: parameters.
- `Number` is taken to round exactly, as current engines do, though ECMA-262 lets it drop digits behind the twentieth. IPv6 and `normaliseIp` are not modelled.
- Several secrets that overlap the mark: which of them survive together is not said, only for one of them alone.
- The queue that runs catch-up days two at a time: only the order in which they finish matters here.
- Controllers, DTO validation, masking, geocoding, dashboards, templates, markets, availability, storage, mail transport, zip and the command line tools: plumbing or single-branch facts.
