# Verification of the TV-events pipeline

This project models the stateful parts of the TV-events service and of the `cnlib` and `cndeploy` libraries it
carries, and proves what those parts keep over all inputs and all runs. Where several clients read a shared Redis key
and write it later, the read and the write are separate steps, and the results are over their interleavings
(`ShardCounters`, `InfoOverlap`, `RollOverlap`); where an operation is one step, its row or "Left out" says so.

Each module follows one source file or one component of it. Code that changes state is a class or a method with
loops. Each method is proved against a specification function, and the lemmas beside it say what that function
means. Redis is the fields of a class, integer clocks move between calls, and a remote service (Kinesis, Firehose,
EC2, the database, Kafka) is a function that answers anything its contract allows.

| module | what it covers |
|---|---|
| `RangeCoverage` | the interval sweep that decides whether a time range is fully covered |
| `ReadinessInfo`, `InfoOverlap` | the shard-info record: its text encoding, its parser, calls one after the other and calls that overlap |
| `ShardCounters` | read-then-write counters shared by interleaved cookers |
| `Readiness`, `ReadinessRuns`, `RollOverlap` | the readiness store: counting, reporting, the watermark roll-up, what whole runs keep, and roll-up jobs that overlap |
| `StreamShards` | the paged shard listing |
| `ActiveUsers` | the bucketed sliding window of active users with its cached union |
| `UmpCounts` | the atomic check-and-increment script many clients share |
| `Firehose` | batching, retrying and giving up, with conservation of records |
| `Framing` | the length-prefixed message stream, written and read |
| `Flattening` | flattening of nested request objects |
| `ReverseIndex` | the user-to-zoo hashes and the index that must agree with them |
| `Blacklist`, `Delivery` | the three-tier channel blacklist, the obfuscation it drives and the delivery to topics |
| `SpotPolling` | polling for spot requests |
| `SessionStates` | chunked writes and batched scans that refine one bulk operation, and the session times they store |
| `Text`, `Facts`, `Wrappers` | number and list formats, and small facts shared by the other modules |

## Where the code does not meet the expectation

Each of these is a proved counterexample or one side of a proved equivalence.

- An info record written for no shards reads back as a set that holds the empty id (`ReadinessInfo.InfoRoundTrip`).
- The parsed end of an info record differs from the epoch it is filed under when the start was clamped to zero
  (`ReadinessInfo.EndTsIsBatchEnd`).
- All cookers of a zoo share the info record of an epoch. When two calls overlap, one that AWS told of no shard can put
  its error record over a good one: no interleaving does exactly when at most one client writes the record
  (`InfoOverlap.OverlapLosesGood`, `InfoOverlap.GoodKeptIffOneClient`). Such a call can also return true while the stored
  record is bad (`InfoOverlap.ResultMisleads`).
- Two roll-up jobs that share an epoch and both scan before either writes replace each other's watermark; no watermark
  ever changes exactly when no two workers have an epoch in common (`RollOverlap.OverlapChangesWatermark`,
  `RollOverlap.WatermarksKeptIffApart`).
- A roll-up writes a watermark without a count field for an epoch that has counters of one kind only
  (`ReadinessRuns.WatermarkCompleteIff`), and the next readiness check of that range deletes such a watermark.
- Two cookers on one shard can lose an update (`ShardCounters.SharedShardLosesUpdate`).
- The UMP script leaves a hash without base and without expiry when a call with a base timestamp of zero or less is
  accepted on a missing key, and such a call can pass its own limit (`UmpCounts.AccountKeptIff`,
  `UmpCounts.CallRespectsLimit`, with inputs in `UmpCounts.MishandledCalls`).
- A watermark counts shards that the info record does not list, and the report does not
  (`ReadinessRuns.WatermarkExceedsReportByStrays`).
- A range that ends before it starts counts as complete when one interval spans it (`RangeCoverage.IsRangeComplete`).
- A token that contains `user:` is indexed under its front part only, and a zoo's regenerated index is right exactly
  when none of its keys is like that (`ReverseIndex.RegenerateAgrees`, with a store in `ReverseIndex.UncleanTokenIsCut`).
- Moving a user to another zoo leaves its old index entry behind (`ReverseIndex.SetMeaning`).
- A failed write of the blacklist file can lose the list that was written successfully before; a restart without the
  database answers that list exactly when no later write was torn (`Blacklist.RestartAnswersLastWritten`).
- A debug topic with the name of a main topic puts the channel on the main topic in the open: the main topics are safe
  exactly when debugging is off or the names are apart (`Delivery.MainTopicsSafeIffSeparate`).
- A batch size of zero makes the batched scan yield nothing (`SessionStates.BatchesReadBack`).

## Model

| member | source | states |
|---|---|---|
| `RangeCoverage.IsRangeComplete` | cntools_py3/cnlib/cnlib/cnredis/dp4_redis.py:431-489 | For every list and every pair of bounds the sweep says complete exactly when each second of the range lies in some interval; for a backward range, exactly when one interval spans it |
| `RangeCoverage.CompleteGrows` | cntools_py3/cnlib/cnlib/cnredis/dp4_redis.py:610-614 | The verdict does not depend on the order of the intervals and never turns false when intervals are added, which the early exit relies on |
| `RangeCoverage.SweepOne` | cntools_py3/cnlib/cnlib/cnredis/dp4_redis.py:470-475 | Advancing past an interval that meets the remaining range keeps the part before it covered, through the clamp at the end |
| `RangeCoverage.SweepStops` | cntools_py3/cnlib/cnlib/cnredis/dp4_redis.py:460-480 | Where the sweep breaks off or runs out, the remaining start equals the end exactly when the range is complete: nothing later in the list can close the gap |
| `RangeCoverage.SortByStart` | cntools_py3/cnlib/cnlib/cnredis/dp4_redis.py:438 | The same intervals, ordered by start |
| `ReadinessInfo.InfoRoundTrip` | cntools_py3/cnlib/cnlib/cnredis/dp4_redis.py:1014-1024 | Every written field parses back; the shard set does exactly when it is not empty and no id holds a comma |
| `ReadinessInfo.StartIsClamped` | cntools_py3/cnlib/cnlib/cnredis/dp4_redis.py:1014-1016 | The start written is the batch length before the end, but never negative |
| `ReadinessInfo.EndTsIsBatchEnd` | cntools_py3/cnlib/cnlib/cnredis/dp4_redis.py:1014-1016 | The parsed end is the epoch of the record exactly when the start was not clamped |
| `ReadinessInfo.RecordInfoStep` | cntools_py3/cnlib/cnlib/cnredis/dp4_redis.py:984-1030 | A call that no other overlaps returns true exactly when a good record is stored afterwards, and never makes a good record bad |
| `ReadinessInfo.RecordInfoWrites` | cntools_py3/cnlib/cnlib/cnredis/dp4_redis.py:994-1026 | A good record under sixty seconds old stays as it is, as does any good one when no shard is heard of; every other call stores its own clock and length, the shards it heard of, and the mark exactly when there are none |
| `ReadinessInfo.NeverDowngraded` | cntools_py3/cnlib/cnlib/cnredis/dp4_redis.py:984-1030 | After any sequence of calls that do not overlap, with any clocks and AWS failures, the record is good exactly when it was good before or some call heard of a shard |
| `InfoOverlap.LostExactlyThen` | cntools_py3/cnlib/cnlib/cnredis/dp4_redis.py:989-1026 | With read and write as separate steps, a step replaces a good record by an error one exactly when it ends a call that heard of no shard and had not seen a good record |
| `InfoOverlap.GoodKeptIffOneClient` | cntools_py3/cnlib/cnlib/cnredis/dp4_redis.py:984-1030 | Over all interleavings, from every stored record, a good record stays good exactly when at most one client writes the key |
| `InfoOverlap.OverlapLosesGood` | cntools_py3/cnlib/cnlib/cnredis/dp4_redis.py:989-1026 | Two clients that both read before either writes: a good record is stored and then lost |
| `InfoOverlap.OneClientIsSequential` | cntools_py3/cnlib/cnlib/cnredis/dp4_redis.py:984-1030 | With one client every interleaving is its finished calls one after the other, so the record is good exactly when it was good at first or a finished call heard of a shard |
| `InfoOverlap.ResultTellsStored` | cntools_py3/cnlib/cnlib/cnredis/dp4_redis.py:1006-1030 | The result tells whether a good record is stored exactly when the call wrote or the record is still good |
| `InfoOverlap.ResultMisleads` | cntools_py3/cnlib/cnlib/cnredis/dp4_redis.py:1006-1008 | A run in which the last call returns true over an error record |
| `InfoOverlap.UndisturbedCall` | cntools_py3/cnlib/cnlib/cnredis/dp4_redis.py:984-1030 | A read with its end right behind it is one sequential call |
| `ShardCounters.ConservedIffExclusive` | cntools_py3/cnlib/cnlib/cnredis/dp4_redis.py:1032-1078 | No interleaving of reads and writes loses or invents an amount exactly when no two cookers own the same shard |
| `ShardCounters.SharedShardLosesUpdate` | cntools_py3/cnlib/cnlib/cnredis/dp4_redis.py:1036-1043 | Two cookers on one shard that both read before either writes lose an update |
| `ShardCounters.NextKeepsInvariant` | cntools_py3/cnlib/cnlib/cnredis/dp4_redis.py:1036-1043 | Each single read or write keeps every counter equal to what the finished calls recorded, and each pending read current |
| `ShardCounters.RunKeepsInvariant` | cntools_py3/cnlib/cnlib/cnredis/dp4_redis.py:1032-1078 | The same over every interleaving |
| `ShardCounters.TotalIsRecorded` | cntools_py3/cnlib/cnlib/cnredis/dp4_redis.py:381-383 | A sum over any set of counters is the sum of what was recorded under them |
| `ShardCounters.TotalOfPresent` | cntools_py3/cnlib/cnlib/cnredis/dp4_redis.py:381-383 | Leaving out the shards without a counter does not change a sum |
| `Readiness.ReadinessStore.RecordCount` | cntools_py3/cnlib/cnlib/cnredis/dp4_redis.py:1032-1078 | One counter grows by the amount from what it was or from zero, no other changes, and the new count is returned |
| `Readiness.ReadinessStore.RecordShardInfo` | cntools_py3/cnlib/cnlib/cnredis/dp4_redis.py:984-1030 | Undisturbed, one call leads to the record and the result of the sequential state machine, and no other epoch changes |
| `Readiness.ReadinessStore.ReadShards` | cntools_py3/cnlib/cnlib/cnredis/dp4_redis.py:330-346 | The total of one kind over the listed shards, and exactly the shards without a counter, whatever order they are visited in |
| `Readiness.ReadinessStore.MakeReport` | cntools_py3/cnlib/cnlib/cnredis/dp4_redis.py:295-393 | The report of an epoch: the three sums, the shards missing, and all reporting exactly when none is missing |
| `Readiness.ReadinessStore.CollectOutputMaps` | cntools_py3/cnlib/cnlib/cnredis/dp4_redis.py:831-898 | For every scan order: whether some eligible epoch has a watermark, and otherwise the roll-up of each eligible epoch |
| `Readiness.ReadinessStore.SetReported` | cntools_py3/cnlib/cnlib/cnredis/dp4_redis.py:821-921 | For every scan order the watermarks become those of the order-free specification |
| `Readiness.ReadinessStore.WriteAll` | cntools_py3/cnlib/cnlib/cnredis/dp4_redis.py:901-921 | Every collected watermark is written with the metadata and time stamp, and no other changes |
| `Readiness.BlocksMeaning` | cntools_py3/cnlib/cnlib/cnredis/dp4_redis.py:865-879 | The scan meets an existing watermark exactly when an eligible epoch has one |
| `Readiness.KeysCollected` | cntools_py3/cnlib/cnlib/cnredis/dp4_redis.py:881-898 | After any part of the scan the collected maps are the sums over the eligible keys seen so far |
| `Readiness.CollectOne` | cntools_py3/cnlib/cnlib/cnredis/dp4_redis.py:881-898 | One more key changes the collected sums of its own epoch and of no other |
| `Readiness.CountFieldAdd` | cntools_py3/cnlib/cnlib/cnredis/dp4_redis.py:893-898 | Initializing or incrementing a field is adding one counter to its sum |
| `Readiness.EligibleKeysSuffice` | cntools_py3/cnlib/cnlib/cnredis/dp4_redis.py:846-863 | For an eligible epoch the keys that pass the filters are all of its record and TV counters |
| `Readiness.CollectedIsSpec` | cntools_py3/cnlib/cnlib/cnredis/dp4_redis.py:901-921 | Writing the collected maps gives the specified watermarks |
| `ReadinessRuns.AllOrNone` | cntools_py3/cnlib/cnlib/cnredis/dp4_redis.py:865-921 | All eligible epochs get their watermark or none does; none exactly when there is no eligible epoch or one has a watermark already; existing ones stay |
| `ReadinessRuns.EligibleIff` | cntools_py3/cnlib/cnlib/cnredis/dp4_redis.py:831-863 | An epoch is eligible exactly when it is of the zoo, ends in the range, has an info record that starts before the range ends, and has a record or TV counter |
| `ReadinessRuns.NewWatermarkHolds` | cntools_py3/cnlib/cnlib/cnredis/dp4_redis.py:881-913 | Each added watermark holds the start of the info record, the metadata and time stamp of the call, and the sums of its record and TV counters |
| `ReadinessRuns.RepeatChangesNothing` | cntools_py3/cnlib/cnlib/cnredis/dp4_redis.py:821-921 | Repeating a call with any metadata and clock changes nothing |
| `ReadinessRuns.WatermarksNeverOverwritten` | cntools_py3/cnlib/cnlib/cnredis/dp4_redis.py:821-921 | Over every sequential run of counting, info updates, info removals and roll-ups a written watermark stays as it is |
| `RollOverlap.WatermarksKeptIffApart` | cntools_py3/cnlib/cnlib/cnredis/dp4_redis.py:865-921 | Over all interleavings of roll-up jobs with each other and with counting, from every store, no watermark ever changes exactly when no two workers have an epoch in common |
| `RollOverlap.WatermarksKeptIffOneWorker` | cntools_py3/cnlib/cnlib/cnredis/dp4_redis.py:865-921 | When any worker may run any job, that is exactly when there is at most one worker |
| `RollOverlap.ChangedExactlyThen` | cntools_py3/cnlib/cnlib/cnredis/dp4_redis.py:901-921 | A step changes a watermark exactly when a job writes a different one for an epoch that has one by then |
| `RollOverlap.ScanFindsNone` | cntools_py3/cnlib/cnlib/cnredis/dp4_redis.py:865-879 | What a scan collects has no watermark at that time, so one that is there at the write has come since |
| `RollOverlap.OverlapChangesWatermark` | cntools_py3/cnlib/cnlib/cnredis/dp4_redis.py:868-879 | Any two jobs that share an epoch and both scan before either writes, with a count recorded in between: the first watermark is replaced |
| `RollOverlap.UndisturbedJob` | cntools_py3/cnlib/cnlib/cnredis/dp4_redis.py:821-921 | A scan with its write right behind it is one sequential call |
| `ReadinessRuns.ReportConserves` | cntools_py3/cnlib/cnlib/cnredis/dp4_redis.py:343-384 | After any interleaving of cookers on their own shards the report sums exactly what was recorded for the listed shards, and lists exactly the shards with no records and those with no commercial records |
| `ReadinessRuns.ReportCountsShards` | cntools_py3/cnlib/cnlib/cnredis/dp4_redis.py:379-384 | The reporting shards are those of the info that are not missing, and all report exactly when none is missing |
| `ReadinessRuns.NothingToReport` | cntools_py3/cnlib/cnlib/cnredis/dp4_redis.py:300-304 | Without an info record the report is empty and not all shards report |
| `ReadinessRuns.WatermarkConserves` | cntools_py3/cnlib/cnlib/cnredis/dp4_redis.py:893-921 | After such a run a new watermark carries exactly what was recorded for its epoch by any shard |
| `ReadinessRuns.WatermarkCompleteIff` | cntools_py3/cnlib/cnlib/cnredis/dp4_redis.py:887-898 | A new watermark has both count fields exactly when its epoch has both a record and a TV counter |
| `ReadinessRuns.WatermarkExceedsReportByStrays` | cntools_py3/cnlib/cnlib/cnredis/dp4_redis.py:846-898 | Watermark and report of an epoch differ, in records and in TVs, by exactly the counters of shards outside the info record |
| `StreamShards.GetStreamShards` | cntools_py3/cnlib/cnlib/cnredis/dp4_redis.py:924-961 | For a stream of any length, also a multiple of the page size: exactly the shards without an ending sequence number, or nothing when one of the calls it makes is refused; and it ends |
| `StreamShards.AddPage` | cntools_py3/cnlib/cnlib/cnredis/dp4_redis.py:952-958 | Working through a page extends the listing by exactly that page and leaves the cursor on its last shard |
| `StreamShards.AfterListed` | cntools_py3/cnlib/cnlib/cnredis/dp4_redis.py:943 | With the last listed id as cursor exactly the shards behind it come next |
| `StreamShards.PageAt` | cntools_py3/cnlib/cnlib/cnredis/dp4_redis.py:943-950 | Each page is the next stretch of the stream, full unless it is the last |
| `ActiveUsers.FreshWindow` | cntools_py3/cnlib/cnlib/cnredis/active_redis.py:70-101 | Over every run a fresh union holds each token seen in the last (k-1) buckets of time and none last seen k buckets of time ago or more; expiry never removes a promised token |
| `ActiveUsers.LogIsHits` | cntools_py3/cnlib/cnlib/cnredis/active_redis.py:70-101 | The history that the window results are about is one hit for each set call of the run, with its arguments and the clock at that time |
| `ActiveUsers.FreshIsExact` | cntools_py3/cnlib/cnlib/cnredis/active_redis.py:173-206 | For every bucket size and window the fresh union is exactly the tokens with a hit in a bucket of the window since which that bucket has not gone a whole window without a hit of any token |
| `ActiveUsers.FreshOfShortBuckets` | cntools_py3/cnlib/cnlib/cnredis/active_redis.py:173-206 | When a bucket is no longer than the window, exactly the tokens with a hit in a bucket of the window whose key is still alive, be it through the hits of other tokens |
| `ActiveUsers.FreshIsWholeBuckets` | cntools_py3/cnlib/cnlib/cnredis/active_redis.py:173-206 | When the bucket size divides the window, as by default, exactly the tokens with a hit in a bucket of the window: no such bucket has expired |
| `ActiveUsers.AllowedAreActive` | cntools_py3/cnlib/cnlib/cnredis/active_redis.py:80-89 | At every moment of every run the allowed users of a zoo are among its active users, expiries included |
| `ActiveUsers.QueryComputedAt` | cntools_py3/cnlib/cnlib/cnredis/active_redis.py:129-145 | After every run the answer to a query is the fresh union of a state of that run, computed less than a minute ago |
| `ActiveUsers.CachedIsFresh` | cntools_py3/cnlib/cnlib/cnredis/active_redis.py:197-213 | Whatever is cached after a run is, with its expiry, the fresh union of an earlier state of that run |
| `ActiveUsers.CachedAnswerStays` | cntools_py3/cnlib/cnlib/cnredis/active_redis.py:134-145 | While its key lives every query answers the cached union, whatever hits come, until it is computed anew |
| `ActiveUsers.RecomputeStores` | cntools_py3/cnlib/cnlib/cnredis/active_redis.py:199-213 | Computing a union stores it for sixty seconds, or removes the key when it is empty, and changes nothing else |
| `ActiveUsers.QueryWindow` | cntools_py3/cnlib/cnlib/cnredis/active_redis.py:129-145 | Over every run a query holds each token seen within reach but not in the last minute, and none last seen a minute further back than all buckets |
| `ActiveUsers.RunKeepsInvariant` | cntools_py3/cnlib/cnlib/cnredis/active_redis.py:70-213 | Every run keeps: members come from hits, buckets live a window past their last hit, allowed buckets within active ones, cached unions true to their moment |
| `ActiveUsers.ActiveRedis.Set` | cntools_py3/cnlib/cnlib/cnredis/active_redis.py:70-101 | The token is in the bucket of the current multiple of the bucket size, whose expiry is renewed, and in the allowed one exactly when it is allowed or was there alive before; no other bucket changes; the bucket key is returned |
| `ActiveUsers.ActiveRedis.SetActiveUsers` | cntools_py3/cnlib/cnlib/cnredis/active_redis.py:159-213 | The union is stored with its minute of life, or no key when it is empty, and is returned |
| `ActiveUsers.ActiveRedis.GetUserTokens` | cntools_py3/cnlib/cnlib/cnredis/active_redis.py:129-145 | The cached union while its key lives, else a fresh one that is stored |
| `ActiveUsers.ActiveRedis.GetUserCount` | cntools_py3/cnlib/cnlib/cnredis/active_redis.py:112-127 | The size of exactly the set that the token query gives, with the same effect |
| `UmpCounts.StepKeepsAccount` | cntools_py3/cnlib/cnlib/cnredis/tvc_redis.py:117-140 | A script call or tick keeps count = base + accepted increments exactly when it is not an accepted call with a base timestamp of zero or less on a missing hash |
| `UmpCounts.AccountKeptIff` | cntools_py3/cnlib/cnlib/cnredis/tvc_redis.py:117-140 | Over every interleaving the account holds at every moment exactly when no such call occurs |
| `UmpCounts.PositiveBasesKeepAccount` | cntools_py3/cnlib/cnlib/cnredis/tvc_redis.py:117-140 | Calls with positive base timestamps always keep the account |
| `UmpCounts.CallRespectsLimit` | cntools_py3/cnlib/cnlib/cnredis/tvc_redis.py:122-136 | In every state a refused call changes nothing, and an accepted one leaves the count within its limit exactly when it does not overshoot; in an accounted state only the mishandled call can |
| `UmpCounts.MishandledCalls` | cntools_py3/cnlib/cnlib/cnredis/tvc_redis.py:122-136 | Inputs on a missing hash: one that breaks the account, and one that is accepted and passes its limit |
| `UmpCounts.BaseTsNeverDecreases` | cntools_py3/cnlib/cnlib/cnredis/tvc_redis.py:122-136 | Until the key expires its base timestamp never goes back, whatever the calls |
| `UmpCounts.LimitNeverPassed` | cntools_py3/cnlib/cnlib/cnredis/tvc_redis.py:117-140 | With one limit for all calls and none of them mishandled, increments accepted since the last reset never exceed the limit less the base, whatever bases come |
| `UmpCounts.AdmissionBound` | cntools_py3/cnlib/cnlib/cnredis/tvc_redis.py:117-140 | With one limit and one base, over any interleaving without expiry and without a mishandled call, all accepted increments together are at most the limit less the base count |
| `UmpCounts.TVCRedis.IncrUmpCount` | cntools_py3/cnlib/cnlib/cnredis/tvc_redis.py:106-149 | The script line by line is the step of the protocol on its own host; it returns 1 exactly when the count it starts from and the increment are within the limit, and touches no other host |
| `UmpCounts.ScriptMeaning` | cntools_py3/cnlib/cnlib/cnredis/tvc_redis.py:117-140 | A call is accepted exactly when base, accepted increments and its own are within the limit; what hash and expiry an accepted call leaves, with a stored base as new and with a newer one |
| `Firehose.SendRecords` | cntools_py3/cnlib/cnlib/firehose.py:44-64 | Against any truthful client: acknowledged and pending records together are the input as multisets, every call outside the logged answers was an error, so a normal return means each record was acknowledged exactly once; every batch put to the client is nonempty and within the size; the number of calls is fixed and bounded, and it ends |
| `Firehose.SendBatches` | cntools_py3/cnlib/cnlib/firehose.py:48-64 | Each batch is put to the client until it answers, in the order of the queue, rejected records join the back, and the loop stops for exactly one of its three reasons: nothing left, the retry limit, or a batch whose every attempt was an error |
| `Firehose.OneCourse` | cntools_py3/cnlib/cnlib/firehose.py:44-82 | The configuration, the client and the batches determine the answers and the way it ends: no other course meets the contract |
| `Firehose.AcknowledgedCounts` | cntools_py3/cnlib/cnlib/firehose.py:44-64 | A record is acknowledged as often as the answers hold an entry for it without an error code |
| `Firehose.SentInOrder` | cntools_py3/cnlib/cnlib/firehose.py:48-64 | The batches are put to the client in their order, and the rejected records of each answer behind all of them in the order of the answers |
| `Firehose.StoppedIsBounded` | cntools_py3/cnlib/cnlib/firehose.py:52-62 | The retry-limit exception comes exactly when the limit-th batch with rejected records is answered, so the rounds are at most the first batches plus the limit less one, and the calls at most that many times the attempts |
| `Firehose.QueueConserves` | cntools_py3/cnlib/cnlib/firehose.py:44-64 | At every loop head the input is acknowledged records plus the batches still queued, with multiplicity |
| `Firehose.QueueCounts` | cntools_py3/cnlib/cnlib/firehose.py:52-57 | The queue grows by one batch for each answer with rejected records |
| `Firehose.QueueSendable` | cntools_py3/cnlib/cnlib/firehose.py:52-57 | Everything sent or queued is nonempty and no larger than the batch size |
| `Firehose.PutRecordBatch` | cntools_py3/cnlib/cnlib/firehose.py:66-82 | Calls until the client answers, at most the allowed number of times; gives up exactly when every attempt failed |
| `Firehose.GetRecordsToRetry` | cntools_py3/cnlib/cnlib/firehose.py:98-110 | Exactly the records at the positions whose entries hold an error code that is not empty, in the order of the positions |
| `Firehose.SelectPicks` | cntools_py3/cnlib/cnlib/firehose.py:98-110 | The rejected half of a batch, and the accepted half, position by position of the response |
| `Firehose.SelectPartitions` | cntools_py3/cnlib/cnlib/firehose.py:98-110 | Rejected and accepted records together are the batch |
| `Firehose.BatchRecords` | cntools_py3/cnlib/cnlib/firehose.py:84-96 | The batches are the specified cut of the list |
| `Firehose.BatchesAreRecords` | cntools_py3/cnlib/cnlib/firehose.py:84-96 | Batches concatenate to the list in order, none is empty or too large, and there are ceil(n / size) of them |
| `Framing.RoundTrip` | cntools_py3/cnlib/cnlib/protobuf.py:18-32 | Decoding the concatenated messages of any payloads shorter than 2^32 gives exactly those payloads and ends normally |
| `Framing.MessageBytes` | cntools_py3/cnlib/cnlib/protobuf.py:27-32 | The bytes of a message: delimiter, type, the length in four bytes with the highest first, the payload; none from 2^32 bytes on |
| `Framing.FaultsNamed` | cntools_py3/cnlib/cnlib/protobuf.py:77-93 | What ends decoding behind complete messages, for each malformed beginning of the rest |
| `Framing.DecodeEncode` | cntools_py3/cnlib/cnlib/protobuf.py:58-99 | Decoding goes on behind encoded messages as if they were not there |
| `Framing.DecodeMessage` | cntools_py3/cnlib/cnlib/protobuf.py:58-99 | A message at the front yields its payload and then whatever follows |
| `Framing.EncodeDecode` | cntools_py3/cnlib/cnlib/protobuf.py:58-99 | A blob is the encoding of what it yields exactly when decoding ends without an error and the last payload is not cut off |
| `Framing.LengthRoundTripBack` | cntools_py3/cnlib/cnlib/protobuf.py:29 | Every four bytes are the packed form of the length they unpack to |
| `Framing.GetMessages` | cntools_py3/cnlib/cnlib/protobuf.py:74-99 | The generator yields and ends as specified on every blob, including each malformed one, and it ends |
| `Flattening.FlattenRequestJson` | src/app/event_type.py:35-49 | The result is the last-writer-wins map of the depth-first leaves, keyed by immediate parent and name in lower case, ignored keys dropped at the top only |
| `Flattening.NestedKeys` | src/app/event_type.py:42-48 | A field in an object gets the key of that object and no other in front; ignored keys do not matter below the top |
| `Flattening.TopKeys` | src/app/event_type.py:42-48 | At the top an ignored key leaves out its field or object, and another field keeps its own name |
| `Flattening.LeavesConcat` | src/app/event_type.py:42-48 | The leaves of a dict are those of its fields in order |
| `Flattening.KeysAreLeafKeys` | src/app/event_type.py:35-49 | The keys are exactly the leaf keys |
| `Flattening.LastLeafStays` | src/app/event_type.py:45-48 | A leaf that no later leaf collides with is what its key holds |
| `Flattening.NoLeafLostIff` | src/app/event_type.py:45-48 | No leaf is lost exactly when no two leaves share a key |
| `Flattening.FlatHasNoDicts` | src/app/event_type.py:44-48 | No value of the result is a dict, and every key is lower case |
| `Flattening.FlattenTwice` | src/app/event_type.py:35-49 | Flattening a result again, without prefix and ignored keys and in any order, gives it back |
| `Flattening.LastWinsConcat` | src/app/event_type.py:45 | Updating with the map of later leaves is the map of all leaves |
| `ReverseIndex.RegenerateMeaning` | cntools_py3/cnlib/cnlib/cnredis/mcp_redis.py:149-191 | From any index contents and in any scan order: each registered index becomes exactly the tokens of the keys that target it, unregistered ones only grow, and the status counts the keys of each zoo and lists exactly their tokens |
| `ReverseIndex.RegenerateAgrees` | cntools_py3/cnlib/cnlib/cnredis/mcp_redis.py:149-191 | From any index contents a registered zoo agrees with the hashes afterwards exactly when its own keys are clean; when only user hashes name a target, exactly when none of its users has a token that holds the prefix |
| `ReverseIndex.TokenOfUserKey` | cntools_py3/cnlib/cnlib/cnredis/mcp_redis.py:178 | A user key gives back its token exactly when the token does not itself hold the prefix |
| `ReverseIndex.KeysSpelled` | cntools_py3/cnlib/cnlib/cnredis/mcp_redis.py:55-92 | The names of user hashes, indices and the set of zoos |
| `ReverseIndex.TokenIsPlain` | cntools_py3/cnlib/cnlib/cnredis/mcp_redis.py:178 | Whatever the key, its token never holds the prefix, so no other key can put an unclean token into an index |
| `ReverseIndex.UncleanTokenIsCut` | cntools_py3/cnlib/cnlib/cnredis/mcp_redis.py:178 | A store with such a token: it is indexed under its front part, and the regenerated index disagrees |
| `ReverseIndex.DeleteByIndexMeaning` | cntools_py3/cnlib/cnlib/cnredis/base_redis.py:476-490 | No user targets the zoo afterwards exactly when the index held all that did, and another zoo stays in agreement exactly when the index held none of its users |
| `ReverseIndex.DeleteByIndexAgrees` | cntools_py3/cnlib/cnlib/cnredis/base_redis.py:476-490 | From an agreeing state nobody targets the zoo afterwards and both zoos agree |
| `ReverseIndex.SetMeaning` | cntools_py3/cnlib/cnlib/cnredis/mcp_redis.py:55-82 | Setting a zoo with its index entry keeps the new zoo in agreement, and another exactly when the user did not target it before |
| `ReverseIndex.DeleteMeaning` | cntools_py3/cnlib/cnlib/cnredis/mcp_redis.py:71-73 | Deleting a user hash alone keeps a zoo in agreement exactly when the user did not target it: its index entry stays behind |
| `ReverseIndex.DeleteIndexMeaning` | cntools_py3/cnlib/cnlib/cnredis/mcp_redis.py:90-92 | Deleting an index keeps every other zoo in agreement, and its own exactly when nobody targets it |
| `ReverseIndex.MCPRedis.DeleteByIndex` | cntools_py3/cnlib/cnlib/cnredis/base_redis.py:476-490 | Exactly the hashes of the indexed users and the index itself are gone |
| `ReverseIndex.MCPRedis.ClearIndices` | cntools_py3/cnlib/cnlib/cnredis/mcp_redis.py:161-163 | Exactly the indices of the registered zoos are gone |
| `ReverseIndex.MCPRedis.RegenerateIndices` | cntools_py3/cnlib/cnlib/cnredis/mcp_redis.py:149-191 | Indices and status after the loop are those of visiting the scanned keys one by one from cleared indices |
| `Blacklist.TakenListAnswers` | src/app/blacklist.py:41-118 | Once a startup, a refresh or a lookup takes a list, every later lookup answers membership in it until the next success, and failed refreshes change nothing |
| `Blacklist.NothingKnown` | src/app/blacklist.py:58-111 | With nothing in memory, file and database no channel is listed, a startup leaves an empty list and a refresh changes nothing |
| `Blacklist.WrittenListSurvives` | src/app/blacklist.py:58-69 | When the file write succeeded, this holds across restarts without the database as well |
| `Blacklist.RestartAnswers` | src/app/blacklist.py:137-159 | What a restart without the database answers from after a list was taken, for each way its file write can end |
| `Blacklist.RestartAnswersLastWritten` | src/app/blacklist.py:137-159 | After any run a restart without the database answers the list last written successfully exactly when no later write was torn, and no channel otherwise |
| `Blacklist.RestartAnswersOldFile` | src/app/blacklist.py:137-159 | When the run wrote nothing successfully, the restart answers from the file before it unless a write tore that |
| `Blacklist.FileFollowsWrites` | src/app/blacklist.py:150-159 | The file after any run is that of its writes one after the other, whoever made them |
| `Blacklist.BlacklistCache.Initialize` | src/app/blacklist.py:41-69 | Memory and file after startup, for every database answer and write outcome |
| `Blacklist.BlacklistCache.Refresh` | src/app/blacklist.py:71-84 | True exactly on a nonempty answer, which replaces the list; otherwise nothing changes |
| `Blacklist.BlacklistCache.GetChannelIds` | src/app/blacklist.py:86-111 | Memory first, then the file, then the database, and what is found stays in memory |
| `Blacklist.BlacklistCache.IsBlacklisted` | src/app/blacklist.py:113-118 | Membership of the channel in that list; no channel is never listed and touches nothing |
| `Delivery.OnlyClearOrHidden` | src/app/output.py:126-152 | After any quiet run since a list was taken, each message off the topics served in the open has its channel fields hidden, or is unchanged, not blocked and not on the list |
| `Delivery.MainTopicsSafeIffSeparate` | src/app/output.py:126-152 | The main topics get only such payloads, for every cache, list, payload and failing send, exactly when debugging is off or no debug topic has the name of a main topic |
| `Delivery.EveryTopicServed` | src/app/output.py:149-152 | When no send raises, the debug topics get the output in the open when it must be hidden and debugging is on, then each active main topic its payload in order, hidden exactly when it must be, and nothing else is sent |
| `Delivery.ServedOnceIff` | src/app/output.py:134-152 | Nothing in the open goes to a main topic exactly when nothing is hidden or the topics are separate |
| `Delivery.ObfuscatedIffNotClear` | src/app/obfuscation.py:11-29 | With a list taken, a payload is hidden exactly when it is blocked or its channel is on the list |
| `Delivery.BlockedMeans` | src/app/obfuscation.py:18-22 | A text flag blocks exactly when it spells "true" in any letter case, another one when Python takes it as true |
| `Delivery.ChannelMeans` | src/app/obfuscation.py:17-17 | The channel is the id as text; a missing or null one is no channel |
| `Delivery.HiddenByObfuscation` | src/app/obfuscation.py:32-37 | The three channel fields read OBFUSCATED and every other field is as it was |
| `Delivery.TopicsMean` | src/app/output.py:77-96 | Which switches put which names on the list, for debugging and not, and in which order |
| `Delivery.SharedTopicSeesChannel` | src/app/output.py:135-139 | On any topic that is debug and main at once a blocked payload goes out unchanged, which is neither hidden nor clear |
| `Delivery.SendsOnTopics` | src/app/output.py:99-123 | Every message carries the payload to a listed topic, and all topics are served exactly when no send raises |
| `Delivery.SendsInOrder` | src/app/output.py:108-115 | The messages go to the topics in order up to exactly the first that raises |
| `Delivery.Kafka.Send` | src/app/output.py:99-123 | Sends to the topics in order up to the first that raises, and reports whether one did |
| `Delivery.Kafka.PushChanges` | src/app/output.py:126-152 | What one push puts on the topics and whether it raises, with obfuscation decided by the block flag or else by a blacklist lookup, which a blocked payload does not make |
| `Delivery.Kafka.Deliver` | src/app/output.py:133-152 | Debug topics first and in the open, then the hidden payload on the main topics; a send that raises ends it |
| `SpotPolling.WaitForSpotRequests` | cntools_py3/cndeploy/cndeploy/launch/base.py:528-559 | The three lists are those after exactly the rounds whose test succeeds; denied are exactly the ids some poll reported with too low a price; before the timeout it ends only when nothing is pending; and it ends |
| `SpotPolling.SettleAnswer` | cntools_py3/cndeploy/cndeploy/launch/base.py:549-557 | One answer settles its requests in order, by the status reported |
| `SpotPolling.SettledByStatus` | cntools_py3/cndeploy/cndeploy/launch/base.py:549-557 | An id is denied or fulfilled after an answer exactly when it was before or the answer reports it with that status |
| `SpotPolling.ListsAreReported` | cntools_py3/cndeploy/cndeploy/launch/base.py:545-557 | After any number of rounds the denied ids are those reported with too low a price and the fulfilled ones those reported fulfilled |
| `SpotPolling.InstancesAreReported` | cntools_py3/cndeploy/cndeploy/launch/base.py:555-556 | The instances are, position by position, those reported for the fulfilled ids |
| `SpotPolling.RoundsKeepPartition` | cntools_py3/cndeploy/cndeploy/launch/base.py:545-557 | At every round the fulfilled, denied and pending ids together are the original ids, each as often as it was |
| `SpotPolling.LengthsAddUp` | cntools_py3/cndeploy/cndeploy/launch/base.py:559 | The three returned lengths add up to the number of requests |
| `SpotPolling.EachInExactlyOne` | cntools_py3/cndeploy/cndeploy/launch/base.py:551-557 | With distinct requests each is in exactly one of the three lists |
| `SpotPolling.RoundsAreBounded` | cntools_py3/cndeploy/cndeploy/launch/base.py:543-546 | A call makes at most ceil(timeout / interval) rounds |
| `SessionStates.DAIActiveRedis.SremTvcActivityMembers` | cntools_py3/cnlib/cnlib/cnredis/dai_active_redis.py:128-137 | The set afterwards is that of one bulk removal, for every chunk size; there are ceil(n / chunk) writes, each of one entry up to a chunk |
| `SessionStates.DAIActiveRedis.DeleteSessionStates` | cntools_py3/cnlib/cnlib/cnredis/dai_active_redis.py:174-184 | The same for the hash fields |
| `SessionStates.DAIActiveRedis.HmsetLatestSessionStates` | cntools_py3/cnlib/cnlib/cnredis/dai_active_redis.py:148-172 | The hash afterwards is that of one bulk write of all sessions, in ceil(n / chunk) writes of one entry up to a chunk |
| `SessionStates.SessionRoundTrip` | cntools_py3/cnlib/cnlib/cnredis/dai_active_redis.py:145-163 | The two printed numbers parse back, negative ones included |
| `SessionStates.TimesSpelled` | cntools_py3/cnlib/cnlib/cnredis/dai_active_redis.py:163 | The start comes first |
| `SessionStates.SessionsReadBack` | cntools_py3/cnlib/cnlib/cnredis/dai_active_redis.py:139-163 | Every session just written reads back as written, whatever the hash held before |
| `SessionStates.StatesReadBack` | cntools_py3/cnlib/cnlib/cnredis/dai_active_redis.py:139-172 | Reading all states after a write gives the parsed old ones overridden by the sessions just written, and no others |
| `SessionStates.FieldsConcat` | cntools_py3/cnlib/cnlib/cnredis/dai_active_redis.py:165-172 | Writing two stretches of sessions one after the other is writing them at once |
| `SessionStates.BatchesReadBack` | cntools_py3/cnlib/cnlib/cnredis/dai_active_redis.py:50-55 | Every row has the batch size, and the rows without padding give back the items exactly when the batch size is positive or there are none |
| `SessionStates.Scan` | cntools_py3/cnlib/cnlib/cnredis/dai_active_redis.py:75-81 | The scanned keys in order, nothing lost to batching or padding |
| `Text.IntRoundTrip` | cntools_py3/cnlib/cnlib/cnredis/dai_active_redis.py:145-163 | Every printed integer parses back and holds no separator |
| `Text.IntTextSpelled` | cntools_py3/cnlib/cnlib/cnredis/dai_active_redis.py:163 | Digits in decimal order, the highest first |
| `Text.SplitJoin` | cntools_py3/cnlib/cnlib/cnredis/dp4_redis.py:67 | Splitting joined parts gives them back when there are some and none holds the separator |
| `Text.JoinSpelled` | cntools_py3/cnlib/cnlib/cnredis/dp4_redis.py:1019 | One separator between two parts, none at the ends |

## Left out

- `_get_reports` and `is_ready` (`dp4_redis.py`): the report summary has six fields and is built with five, so the code as written raises at the first complete watermark or report; only the interval check they call is modelled. Before that `_get_reports` deletes each watermark it meets that lacks a start or a count (`dp4_redis.py:529-561`), so the results about kept watermarks are for runs without such a check. `report_all` makes the modelled report for each of the latest epochs.
- The SQL count checks of readiness (`dp4_redis.py:642-781`): queries and one comparison.
- `Readiness.ReadinessStore.SetReported`: one call is one step here; `RollOverlap` separates its scan from its write, but within the scan, and within the reads of one report, no count changes.
- `Blacklist.BlacklistCache.GetChannelIds`: each call runs undisturbed by other threads, and no other process writes the file.
- Expiry of counters, info records and watermarks after days or years: runs are modelled within it.
- Info hashes with missing fields or with a start or length that is not a number, and Redis writes that fail: stored records carry the five fields that are written.
- Zoo names with an underscore, or one a prefix of another: keys are structured, so such names never mix up.
- Scans that yield a key twice or miss one, read replicas that lag behind, and bytes that are not decoded.
- `ReadinessInfo.InfoRoundTrip`: `int()` reads plain decimal forms only; padded, plus-signed or underscored numbers do not occur in written records.
- `ActiveUsers.ActiveRedis.Set`: takes the time from the clock in whole seconds; an explicit `now`, a caller's pipeline, another prefix and fractional seconds are not modelled. Each call sees one reading of the clock, which the expiry of its keys shares.
- `UmpCounts.TVCRedis.IncrUmpCount`: integers are unbounded; Lua's doubles and the 64-bit overflow of `hincrby` are not modelled.
- `Firehose.SendRecords`: needs responses with one entry for each record and a count that agrees with them; the set of error messages and the sleeps are left out.
- `Framing.GetMessages`: bytes rather than Python 2 strings; the message type number is a parameter because its package is not part of this model; the optional self-check of `make_message` is left out.
- `Flattening.FlattenRequestJson`: `str.lower` is a parameter, of which `Flattening.FlattenTwice` and `Flattening.FlatHasNoDicts` need only that lower-casing twice is lower-casing once; the order of the resulting dict is not modelled.
- `ReverseIndex.MCPRedis.RegenerateIndices`: without a subset of targets; the order in which the status lists its users follows the scan. Like `ReverseIndex.MCPRedis.DeleteByIndex` it runs undisturbed by other clients.
- `MCPRedis.delete_from_index`: always takes its failure branch.
- `Blacklist.BlacklistCache.Initialize`: a file write that fails with something other than an operating-system error, and a cache file that parses to something other than a list, are not modelled; neither are counters and refresh times.
- `Delivery.Kafka.PushChanges`: the generated output is an input, so `generate_output_json` is not modelled; nor are topic toggles read anew between two sends. The comparison of the block flag with `true` lower-cases ASCII letters, and no other letter becomes one of those four.
- `SpotPolling.WaitForSpotRequests`: the cancel request to the service is not modelled; polls answer about asked ids only and each at most once, and an answer that breaks this would make `list.remove` raise.
- `SessionStates.DAIActiveRedis.HmsetLatestSessionStates`: sleeps between chunks are left out, and a chunk size below one, which makes the loops raise or never flush, is excluded.
- Redis groups and client construction, Consul, S3, SQS, Redshift, PostgreSQL, mail, alarms, metrics, tracing, command lines: plumbing around libraries that are not here.
- Request checks, schema validation and the operations routes of the service: one branch each.
- `rebuild-inputs/`: an older copy of the same logic.
