# Transit telemetry: archive, windowed analytics, hourly statistics

This project models the data paths of the transit telemetry system that must not
lose, repeat or distort anything, and proves what its documentation promises of
them, over every run.

**The archive.** A Go consumer turns Kafka batches into hourly NDJSON files, fsyncs,
commits offsets, and gzips closed hours; a Python compactor folds closed days into
Parquet and then unlinks the raw files. Both run over one file tree and either may
die at any point. `ArchiveModel` is a step system of every single file operation of
both, with bytes leaving the write buffer one at a time, so that a crash can tear a
line. `ArchiveInvariant` is one inductive invariant over both programs,
`ArchiveFetched` a second one, on what may be in the archive at all;
`ArchiveTheorems` draws the promises from them, and `ArchivePowerLoss` says what an
fsync covers. `ArchiveBatches` is the batching of the consume loop. `ArchiveWriting`,
`ArchiveLoop` and `ArchiveCompaction` are the imperative programs themselves, written
against `ArchiveWorld`: every operation they perform is a step of the system, with any
steps of the other program before it, so what is proved of all schedules holds of them.
The world also scripts which operations fail, and every method accounts for the faults
it meets, so that without a fault it must succeed.

**Windowed analytics.** The analytics consumer cuts the ping stream into windows,
carries the last seconds of each into the next, detects bunched vehicles in every
frame and reconciles the detections with what it has reported before; arrivals are
collapsed to their first ping and reported once. `Pings` and `BunchingFrames` relate
frames to the uncut stream for arbitrary flush points; `Bunching` and
`BunchingEvents` are pairing and detection; `BunchingTracker` the dedup layer and the
upserted documents; `BunchingRuns`, `BunchingKeys`, `BunchingLog`, `BunchingCoverage`,
`BunchingBound`, `BunchingRefinement` and `BunchingStore` the theorems over whole runs;
`BunchingPipeline` the consumer's loop, whose every execution is such a run.
`Arrivals`, `ArrivalRuns`, `ArrivalPipeline` and `ServiceDay` do the same for schedule
deviations.

**Statistics.** `HourlyStats` and `HourlyRun` are the hourly accumulator, its retry
buffer and the order in which `main` drives them; `Percentile` the two p95
implementations; `HistoryBuckets` and `HistoryAggregate` the history chart's
local-day bucketing.

Six promises turn out narrower than documented, and are stated with their exact
conditions:

- The window overlap of 30 s (analytics-engine/src/consumer.py:58-67) is the minimum
  safe value for runs of adjacent poll buckets only, k polls for k observations
  (`DocumentedBoundIsExact`). Detection also links buckets across one skipped poll,
  and those runs need 45 s (`OverlapBoundIsExact`, `DefaultOverlap`).
- The start time in a bunching document's key (analytics-engine/src/db/writer.py:15-28)
  is stable if no vehicle reports twice in a poll bucket (`NaturalKeyIsStable`). When
  one does, and the cut falls between its two pings, an update can carry an earlier
  start and leave two documents (`KeyCanDrift`). Over any run the keys are stable if
  and only if no event that extends a tracked incident starts before it
  (`BunchingKeys.KeyStableIff`).
- Three candidate service days hold the nearest one exactly for scheduled offsets up
  to 35 h 30 min (`ReachIsExact`).
- An arrival is reported once if the stop lasts no longer than tracker retention
  minus overlap (`ArrivalReportedExactlyOnce`); any longer and it can be reported
  twice (`LongerStopReportedTwice`).
- Verification before raw deletion compares counts, so after a crash inside the unlink
  loop it fails as soon as an unlinked hour held a row, and only then
  (`VerificationPassesIffNothingDeleted`).
- A batch is said to be fsynced before its offsets are committed
  (archive-consumer/archive.go:34-35). `Flush` syncs the file of the hour then open and
  nothing else ever syncs, so at the commit a message is covered by an fsync if and only
  if its line is in that hour (`DurableIffInOpenHour`), which is so for the whole batch
  if and only if the hour did not turn while it was written (`AllInOneHourIff`,
  `CrossingBatchIsNotDurable`); and it stays so until the hour is gzipped
  (`DurableUntilFinalized`).

Assumptions. The archive has one writer and a clock that never goes back across
restarts and processes; an hour file is opened less than a day after the clock was
read for it; a crash is the end of a process, after which bytes handed to the
operating system survive (what fsync adds to that is stated apart); message values are
non-empty and hold no newline; gzip and Parquet preserve content; Kafka delivers each
partition in order from its committed offset. Pings arrive in non-decreasing time
order and no vehicle has two at one instant; every flushed frame is processed.
Distances, percentages and rates are real numbers. The local calendar is abstract:
noons 23 to 25 hours apart, and local midnights that drift from multiples of 24 hours
by less than 12.

## Model

| member | source | states |
|---|---|---|
| ArchiveTheorems.CommittedNeverLost | archive-consumer/archive.go:1-108 | In every reachable state of both programs, crashes and restarts, every message below a committed offset is whole, as its own line, in an hour that stands in a plain file, a .gz or its day's Parquet exactly as it was written |
| ArchiveTheorems.CommitSafety | archive-consumer/archive.go:45-107 | In every reachable state, per partition, committed <= ever fetched <= produced; every committed message is archived, and everything archived is a message of the topic that some process had fetched |
| ArchiveTheorems.OnlyFetchedOnDisk | archive-consumer/archive.go:45-107 | Plain files, .gz files and Parquet days hold exactly what was written to their hour, all of it from fetched messages |
| ArchiveFetched.FetchedAlways | archive-consumer/archive.go:65-88 | The archive stays within what was fetched, across crashes, restarts and both programs |
| ArchiveTheorems.CommitStep | archive-consumer/archive.go:100-107 | Offsets move only forward, and every offset passed over is of a message whose line is in the archive |
| ArchiveTheorems.CommitsNeverGoBack | archive-consumer/archive.go:92-108 | Along any run what was committed stays committed |
| ArchiveTheorems.AppendOnly | archive-consumer/writer.go:94-117 | Along any run no hour loses or changes a byte ever written to it |
| ArchiveTheorems.BoundedDuplication | archive-consumer/archive.go:1-4 | A message's line occurs whole at most once plus once per ended process |
| ArchiveTheorems.CommittedNeverRewritten | archive-consumer/archive.go:92-108 | Once committed, a message is never written again, whatever crashes follow |
| ArchiveTheorems.SettledStep | archive-compactor/src/eligibility.py:67-75 | No step of either program adds to, changes or reopens the hours of a day past the gates |
| ArchiveTheorems.SettledDayIsFrozen | archive-compactor/src/eligibility.py:44-80 | Along any run a settled day's hours and its Parquet stay as they are |
| ArchiveTheorems.GatesSettle | archive-compactor/src/eligibility.py:67-75 | Every day the three gates let through, or that is published, is settled |
| ArchiveTheorems.PublishedIsExact | archive-compactor/src/compact.py:150-166 | date=D exists only with exactly the hours of D ever written and, for each, exactly the multiset of rows of its lines |
| ArchiveTheorems.DeletedHoursAreFolded | archive-compactor/src/compact.py:300-310 | At every crash point of the unlink loop an hour no longer in the raw tier has all its rows in Parquet |
| ArchiveTheorems.CountsDifferByDeleted | archive-compactor/src/compact.py:239-257 | The day's Parquet rows are its remaining raw lines plus those already unlinked |
| ArchiveTheorems.VerificationPassesIffNothingDeleted | archive-compactor/src/compact.py:239-257 | Count verification passes if and only if no unlinked hour held a row |
| ArchiveTheorems.GzIsComplete | archive-consumer/writer.go:136-178 | A .gz name never holds partial content, and coexists with a plain file only when both are equal |
| ArchiveTheorems.FinalizationKeepsContent | archive-consumer/writer.go:140-178 | No step of gzipFile, nor a crash in it, changes what a reader finds for an hour |
| ArchiveTheorems.FinalizationConverges | archive-consumer/writer.go:119-134 | Whenever finalizeStale has run through, only the current hour is plain |
| ArchiveTheorems.FinalizationCompletes | archive-consumer/writer.go:119-178 | From any point inside finalizeStale, whatever a crash left behind, it runs through in finitely many of its own steps unless something interrupts it |
| ArchiveInvariant.InvStep | archive-consumer/writer.go:33-178 | Every enabled step of either program keeps the invariant that spans both |
| ArchiveInvariant.InvAlways | archive-consumer/archive.go:36-108 | The invariant holds after every legal schedule |
| ArchiveInvariant.NewHourIsNew | archive-consumer/writer.go:102-113 | Opening an hour never reopens one that was finalised, folded or deleted |
| ArchiveBytes.WholeLineIsHeld | archive-consumer/writer.go:56-59 | A whole line occurs contiguously in the file even behind a torn one |
| ArchiveBytes.WholeLineHasRow | archive-compactor/src/compact.py:60-67 | A whole line has a Parquet row that ends with its value, alone or behind a torn head |
| ArchiveBytes.UntornRows | archive-compactor/src/compact.py:60-67 | Without torn lines the rows are exactly the message values |
| ArchiveLoop.Run | archive-consumer/archive.go:36-90 | Bad sizes change nothing; otherwise the process ends down; on shutdown exactly the full and timed-out batches are archived and committed and no message of the open one is; on an error those before the batch in hand are; it fails only by a fault or a failed fetch |
| ArchiveBatches.BatchesSplit | archive-consumer/archive.go:45-89 | The flushed batches and the open one are what was fetched, in order; the open one is shorter than a batch |
| ArchiveBatches.OpenStaysUncommitted | archive-consumer/archive.go:68-72 | When exactly the flushed batches are committed, each of their messages is archived and none of the open batch is committed |
| ArchiveLoop.FlushBatch | archive-consumer/archive.go:92-108 | It fails only by a fault. On success the lines are in the files verbatim and in order, each in an hour the clock showed during the call, and exactly the batch's offsets are committed; on a write or flush error no offset has moved, on a commit error all of the batch's or none on each partition |
| ArchiveLoop.WriteBatch | archive-consumer/archive.go:95-99 | Each line goes, in order, to the hour it was written in, which the clock showed during the call; nothing else changes; it fails only by a fault |
| ArchiveLoop.WriteOut | archive-consumer/archive.go:94-102 | After write and flush every line is in its hour's file, and durable is the open hour's file alone |
| ArchiveLoop.CommitMessages | archive-consumer/archive.go:103-107 | Success commits the batch's end on every partition; an error, which takes a fault, has committed the first few partitions to the batch's end and left the others |
| ArchiveLoop.NewArchiveWriter | archive-consumer/writer.go:31-45 | Without a fault every plain hour file but the current hour's is gone before the first line |
| ArchiveBatches.BatchEndIsPastLast | archive-consumer/archive.go:103 | What is committed is one past the batch's highest offset on a partition, and what was committed before where it has none |
| ArchiveBatches.BatchEndAppend | archive-consumer/archive.go:103 | Committing two batches in turn is committing them as one |
| ArchiveLoop.NoCrashPointLosesCommitted | archive-consumer/archive.go:1-4 | If both programs die after any operation of any method, every message committed by then is held after the crash and after anything run later |
| ArchivePowerLoss.DurableIffInOpenHour | archive-consumer/writer.go:62-75 | When offsets are about to be committed, fsync covers the open hour whole and nothing else: a message is durable if and only if its line is in the open hour |
| ArchivePowerLoss.DurableUntilFinalized | archive-consumer/writer.go:136-178 | What fsync covers of an hour is covered as long as its plain file stands, and none of it afterwards |
| ArchivePowerLoss.CrossingBatchIsNotDurable | archive-consumer/archive.go:94-107 | A concrete run that commits a batch across the hour has committed a line that no fsync covers |
| ArchiveLoop.AllInOneHourIff | archive-consumer/archive.go:94-102 | A batch's lines are all in the hour then open if and only if its first was written in that hour |
| ArchiveWriting.ArchiveWriter.constructor | archive-consumer/writer.go:33-41 | A process starts with an empty buffer, no open file and the current hour's key |
| ArchiveWriting.ArchiveWriter.Write | archive-consumer/writer.go:47-60 | Exactly one line more, in the hour of a clock reading made during the call |
| ArchiveWriting.ArchiveWriter.Flush | archive-consumer/writer.go:62-75 | On success every byte handed over is in its hour's file |
| ArchiveWriting.ArchiveWriter.Close | archive-consumer/writer.go:77-92 | The buffered bytes reach the file before it is let go; no line is touched |
| ArchiveWriting.ArchiveWriter.Rotate | archive-consumer/writer.go:94-117 | The old hour is complete, the new one open and current; no line is lost or moved |
| ArchiveWriting.ArchiveWriter.FinalizeStale | archive-consumer/writer.go:119-134 | Without a fault no plain file is left but the current hour's; no line is touched |
| ArchiveWriting.ArchiveWriter.GzipFile | archive-consumer/writer.go:136-178 | Without a fault the plain file is gone and the .gz holds exactly its content; with one the process unwinds with every surviving plain file unchanged |
| ArchiveWriting.ArchiveWriter.CompressTmp | archive-consumer/writer.go:153-172 | Without a fault the .gz holds the whole plain file, still there; with one the process unwinds with every surviving plain file unchanged |
| ArchiveCompaction.Compaction.HasPlainNdjson | archive-compactor/src/eligibility.py:135-149 | True if and only if the day has a plain hour file |
| ArchiveCompaction.Compaction.CheckDay | archive-compactor/src/eligibility.py:67-75 | Every day let through began 172800 s ago or more, has no plain file in its 24 hours and no Parquet; a day that was so when the check began is let through unless reading it met a fault |
| ArchiveCompaction.Compaction.EligibleDays | archive-compactor/src/eligibility.py:44-80 | Ascending, without repeats: every day returned is listed and passes; every listed day that passed at the start is returned, but for no more days than faults were met |
| ArchiveCompaction.Compaction.FoldAll | archive-compactor/src/compact.py:158-166 | Without a fault every raw hour of the day is folded exactly; with one nothing is published |
| ArchiveCompaction.Compaction.PublishDay | archive-compactor/src/compact.py:163-178 | The day appears at once, whole, and its rows read back are its raw lines |
| ArchiveCompaction.Compaction.CompactDay | archive-compactor/src/compact.py:124-186 | It fails only by a fault. No files: a no-op; success: published exactly with equal counts; failure: nothing published, or published exactly and not read back |
| ArchiveCompaction.Compaction.CountGz | archive-compactor/src/compact.py:208-223 | The number of raw lines of the day on disk |
| ArchiveCompaction.Compaction.CountParquet | archive-compactor/src/compact.py:226-236 | The number of Parquet rows of the day on disk |
| ArchiveCompaction.Compaction.VerifyCounts | archive-compactor/src/compact.py:239-257 | True if and only if both counts agree |
| ArchiveCompaction.Compaction.DeleteRawDay | archive-compactor/src/compact.py:260-325 | A raw file is gone, in whatever outcome, only if it is of that day, the day is published, keepRawDays is 0 or less or the output keepRawDays * 86400 s old, and the counts agreed; otherwise nothing happens. Then, without a fault, all are gone; disagreeing counts delete nothing; Parquet and other days' files stay in every case |
| ArchiveCompaction.Compaction.UnlinkAll | archive-compactor/src/compact.py:306-310 | Without a fault no raw file of the day is left; other days' files and all Parquet stay even when it stops halfway |
| ArchiveCompaction.Compaction.CompactedDays | archive-compactor/src/main.py:47-61 | Exactly the days with a Parquet directory, ascending |
| ArchiveCompaction.Compaction.RunOnce | archive-compactor/src/main.py:64-101 | A pass ends idle and unpublishes nothing; every failure and every unreadable day is a fault met, or a day whose counts disagree; with no other failure every listed day that passed is published, was unreadable or held no files; without faults every published day past its keepRawDays * 86400 s is swept or disagrees; and no raw file of any other day is gone |
| ArchiveCompaction.Compaction.SweepAll | archive-compactor/src/main.py:86-100 | Every published day in turn: a failure is a fault or disagreeing counts; raw files go only of published days and only once keepRawDays * 86400 s have passed; without faults every such day has no raw file left or disagrees |
| Pings.PingWindowBuffer.Flush | analytics-engine/src/consumer.py:141-161 | Returns everything buffered and keeps exactly the pings of its last overlap |
| Pings.FrameIsSlice | analytics-engine/src/consumer.py:141-161 | Every frame of a run is a contiguous stretch of the stream up to all that has arrived |
| Pings.StartIsCutoff | analytics-engine/src/consumer.py:155-159 | A frame leaves out exactly the pings older than its predecessor's newest minus the overlap |
| Bunching.PairsAreNestedLoops | analytics-engine/src/metrics/bunching.py:127-182 | A pair is listed as close if and only if its two vehicles, the smaller first, were each first seen in that 15 s bucket on that route and direction within 100 m of each other at that distance, not both near a terminal; as far if and only if more than 100 m apart |
| Bunching.PairsOncePerBucket | analytics-engine/src/metrics/bunching.py:138-158 | Each unordered pair at most once a bucket, never a vehicle with itself |
| Bunching.CloseFarAndStaged | analytics-engine/src/metrics/bunching.py:169-182 | Close and far are disjoint, and a meeting in neither is exactly one within 100 m with both vehicles near a terminal |
| BunchingEvents.DetectBunchingEvents | analytics-engine/src/metrics/bunching.py:200-274 | On any table the scan of its sorted rows; when no pair is listed twice in a bucket, exactly the maximal linked runs of enough observations, in order and disjoint, with their counts and attained minimal distances |
| BunchingEvents.DetectRuns | analytics-engine/src/metrics/bunching.py:225-272 | The inner loop cuts one pair's sorted rows, repeated or not, where they are not consecutive; without repeats into exactly its maximal stretches |
| BunchingEvents.SeparatedIndex | analytics-engine/src/metrics/bunching.py:185-197 | Each pair's far buckets, and no other pair's |
| BunchingEvents.MaximalIsLargest | analytics-engine/src/metrics/bunching.py:205-213 | A run whose ends link no further is one that no run of the buckets properly contains, and conversely |
| BunchingEvents.ExtendRun | analytics-engine/src/metrics/bunching.py:231-256 | Every run lies in a maximal one |
| BunchingEvents.MaximalHolds | analytics-engine/src/metrics/bunching.py:231-256 | A run that meets a maximal run lies inside it |
| BunchingEvents.StretchIsMaximal | analytics-engine/src/metrics/bunching.py:231-256 | The stretches of the sorted rows are maximal runs of the buckets |
| BunchingTracker.BunchingEventTracker.ReconcileEvents | analytics-engine/src/consumer.py:182-229 | The loop computes the reconciliation and purges what is stale; every action has the pair, end and observation count of one of the window's events |
| BunchingLog.EveryActionIsAnswer | analytics-engine/src/consumer.py:182-229 | Over any run, every action answers one detection of its own frame: its end, and as its count the number of the pair's close sightings in that frame between the detection's ends; a new one has its start and smallest distance, an update joins it, at most 15 s on, to what was last reported, keeping the smaller start and distance |
| BunchingLog.EveryDetectionIsEmitted | analytics-engine/src/consumer.py:182-229 | No detection of any frame goes unreported: its pair is emitted at least up to its end |
| BunchingLog.DocumentIsLastAction | analytics-engine/src/db/writer.py:106-140 | The documents are exactly those of the last action on each pair and start, with its end, count, smallest distance and kind |
| BunchingLog.DocumentCounts | analytics-engine/src/consumer.py:209-216 | A document's observation count is the number of close sightings of one frame's detection, which ends where the document does and starts no earlier |
| BunchingTracker.BunchingEventTracker.PurgeStale | analytics-engine/src/consumer.py:231-238 | A pair stays tracked if and only if its incident ended within the retention, and then unchanged |
| BunchingTracker.PurgeIsUnnoticed | analytics-engine/src/consumer.py:203-238 | Purging changes no action on any window whose events start a poll or more past the cutoff |
| BunchingTracker.PurgeIsUnnoticedIff | analytics-engine/src/consumer.py:203-238 | And no less: purging is unnoticed by an event, whatever was tracked, if and only if it starts a poll or more past the cutoff |
| BunchingTracker.WindowSpaces | analytics-engine/src/consumer.py:182-229 | A window keeps ends increasing and new incidents clear of earlier ones |
| BunchingTracker.StartsRise | analytics-engine/src/consumer.py:207-226 | If every update carries on its incident, the starts reported for a pair never go back |
| BunchingTracker.BuildBunchingOperations | analytics-engine/src/db/writer.py:106-140 | One upsert an action, keyed by its pair and start, that says its end, count, distance and kind |
| BunchingTracker.UpsertsPersist | analytics-engine/src/db/writer.py:121-140 | The operations leave the store the actions describe |
| BunchingTracker.LastIsStored | analytics-engine/src/db/writer.py:117-119 | A document has the end, count, distance and kind of the last action on its pair and start |
| BunchingTracker.ReplayIsIdempotent | analytics-engine/src/db/writer.py:10-28 | Replaying any log onto the store it left changes nothing |
| BunchingTracker.OneDocumentPerIncident | analytics-engine/src/db/writer.py:15-28 | With stable keys: one document a "new" action, none other, each at its latest end |
| BunchingFrames.FirstInSlice | analytics-engine/src/metrics/bunching.py:138-144 | In a slice that reaches back to a bucket the same pings are first in it as in the whole stream |
| BunchingFrames.CloseInSlice | analytics-engine/src/metrics/bunching.py:127-182 | Such a slice lists a close pair exactly when both of its first pings are inside |
| BunchingFrames.FarInSlice | analytics-engine/src/metrics/bunching.py:127-182 | The same for far pairs |
| BunchingFrames.CloseNeedsBoth | analytics-engine/src/metrics/bunching.py:153-158 | Whatever a frame lists as close was seen between two pings of that frame |
| BunchingRuns.NoIncidentTwice | analytics-engine/src/consumer.py:182-238 | Over any run and cuts the ends emitted for a pair strictly increase and every "new" starts more than a poll after the previous end, across purges |
| BunchingRuns.NothingAhead | analytics-engine/src/consumer.py:141-161 | Before a bucket's last first ping arrives no frame reports the pair in it or later |
| BunchingCoverage.StretchIsReported | analytics-engine/src/consumer.py:29-32 | The frame in which a long enough stretch of linked buckets completes reports an event over all of it |
| BunchingCoverage.HoldsThrough | analytics-engine/src/consumer.py:110-114 | Until a run's next bucket completes, its incident stays tracked with its start |
| BunchingCoverage.UncutRunIsCovered | analytics-engine/src/consumer.py:29-50 | Wherever the stream is cut, a run of the uncut stream of at least the required observations, each that many of which fit into the overlap, is covered, first bucket to last, by one emitted action |
| BunchingBound.SmallerOverlapMisses | analytics-engine/src/consumer.py:58-64 | For every required number of observations and any smaller overlap a concrete stream and cut lose a run entirely |
| BunchingBound.OverlapBoundIsExact | analytics-engine/src/consumer.py:58-67 | Runs of k observations a gap apart are always reported if and only if the overlap spans k - 1 gaps and a poll, for every k |
| BunchingBound.DocumentedBoundIsExact | analytics-engine/src/consumer.py:58-64 | For adjacent buckets and whole seconds that is the documented overlap >= k polls, exactly |
| BunchingBound.DefaultOverlap | analytics-engine/src/consumer.py:64-67 | The default of 30 s and 10 minutes keeps every pair of buckets 15 s apart and not every pair 30 s apart |
| BunchingRefinement.NoEarlierStart | analytics-engine/src/consumer.py:203-212 | With one ping a vehicle and bucket no later frame sees a reported run begin earlier |
| BunchingRefinement.EventIsSound | analytics-engine/src/metrics/bunching.py:200-274 | Then every event of a frame is a run of the uncut stream at its true smallest distance |
| BunchingRefinement.MergedIsUncut | analytics-engine/src/consumer.py:168-180 | Merging a continuation yields a run of the uncut stream at its true smallest distance |
| BunchingRefinement.UpdateKeepsStart | analytics-engine/src/consumer.py:203-216 | An update carries the start of the tracked incident |
| BunchingRefinement.RunKeeps | analytics-engine/src/consumer.py:182-229 | After every window of any run: keys stable, everything emitted true of the uncut stream, everything tracked last emitted |
| BunchingStore.NaturalKeyIsStable | analytics-engine/src/db/writer.py:15-28 | One document a "new" action over the whole run, at its latest end, and replay changes nothing |
| BunchingKeys.KeyStableIff | analytics-engine/src/consumer.py:182-229 | Over any run, with any stream and cuts, the emitted keys are stable if and only if no event that extends a tracked incident starts before it |
| BunchingStore.WidestStretchFits | analytics-engine/src/consumer.py:58-67 | An overlap of k - 1 tolerated gaps and a poll holds every run of k observations, whatever the stream |
| BunchingStore.MaximalIsEmitted | analytics-engine/src/consumer.py:29-50 | Every maximal run of the uncut stream is emitted with exactly its ends |
| BunchingStore.StoreIsUncutDetection | analytics-engine/src/consumer.py:29-50 | After any cutting the store holds exactly the events detection finds in the uncut stream, with their ends and smallest distances |
| BunchingDrift.KeyCanDrift | analytics-engine/src/db/writer.py:18-23 | With two pings of a vehicle in a cut bucket one incident ends up in two documents |
| BunchingPipeline.ProcessWindow | analytics-engine/src/consumer.py:521-578 | Detect, reconcile and upsert one frame; an empty one is skipped |
| BunchingPipeline.TakeWindow | analytics-engine/src/consumer.py:664-705 | One turn of the loop: what arrived is flushed with what was carried, and processed |
| BunchingPipeline.Consume | analytics-engine/src/consumer.py:653-705 | Every execution over a stream and its flush points is a valid run, emitting its log and storing its upserts |
| ServiceDay.Resolve | analytics-engine/src/metrics/schedule_deviation.py:123-136 | The two loops choose the first nearest of the three candidates |
| ServiceDay.DateIsUnique | analytics-engine/src/metrics/schedule_deviation.py:124 | A moment has one local date, so the three candidates are well determined |
| ServiceDay.NearestOfAll | analytics-engine/src/metrics/schedule_deviation.py:101-136 | The choice is nearest over all service days, across clock changes |
| ServiceDay.DeviationBounded | analytics-engine/src/metrics/schedule_deviation.py:119-121 | The deviation never exceeds 12 h 30 min |
| ServiceDay.TrueDayIsChosen | analytics-engine/src/metrics/schedule_deviation.py:119-121 | A service day less than 11 h 30 min off is the one chosen |
| ServiceDay.ResolvedIsIt | analytics-engine/src/metrics/schedule_deviation.py:123-136 | What is resolved is the offset's moment on some service day, noon less 12 hours, with none nearer; within 30 minutes nothing else is |
| ServiceDay.GatePassesIff | analytics-engine/src/consumer.py:602-607 | The gate passes if and only if some service day at all is within 30 minutes |
| ServiceDay.ReachIsExact | analytics-engine/src/metrics/schedule_deviation.py:123-136 | Three candidates are enough for every calendar and moment if and only if the offset is at most 35 h 30 min |
| ServiceDay.FartherOffsetsMiss | analytics-engine/src/metrics/schedule_deviation.py:123-136 | Beyond that a spring clock change hides the nearest day |
| Arrivals.ComputeArrivalDeviations | analytics-engine/src/metrics/schedule_deviation.py:277-325 | Every result is of the first ping of a vehicle stopped at its stop of its trip, due at the listed time of the service day nearest to it; every such ping with a listed time has one; no visit has two |
| Arrivals.CollapseIsFirst | analytics-engine/src/metrics/schedule_deviation.py:261-274 | Collapsing keeps exactly the earliest stopped ping of each visit |
| Arrivals.WindowReports | analytics-engine/src/consumer.py:580-621 | A window reports exactly the results that tell of a first arrival, due at the nearest service day's listed time, no more than 30 minutes off; no visit twice |
| Arrivals.ReportedIffDue | analytics-engine/src/consumer.py:580-621 | A first arrival is reported if and only if on some service day it was due within 30 minutes |
| Arrivals.DeviationResultTracker.KeepNew | analytics-engine/src/consumer.py:256-275 | The loop passes the unseen visits and remembers them; exactly those of the last retention stay remembered |
| Arrivals.FilterKeepsUnseen | analytics-engine/src/consumer.py:256-275 | A result passes if and only if its visit was unseen, which then is remembered at its time |
| ArrivalRuns.ArrivalReportedExactlyOnce | analytics-engine/src/consumer.py:141-275 | A first arrival that on some service day was due within 30 minutes, whose stop lasts at most retention minus overlap, is reported at one flush only, once, at the stream's earliest ping and the nearest day's time, whatever the cuts |
| ArrivalRuns.LongerStopReportedTwice | analytics-engine/src/consumer.py:256-275 | For any longer stop a concrete stream and cut report it twice |
| ArrivalPipeline.TakeWindow | analytics-engine/src/consumer.py:580-621 | One window's arrivals: collapsed, gated at 30 minutes, and passed if unseen |
| ArrivalPipeline.Consume | analytics-engine/src/consumer.py:653-705 | Every execution over a stream and its flush points reports, flush by flush, what a valid run does |
| Percentile.PercentilesAgree | ingestion-service/src/api/routes/routePerformance.ts:22-36 | The Python and the TypeScript percentile agree on every list |
| Percentile.PercentileIsBetweenNeighbours | analytics-engine/src/db/pg_writer.py:48-63 | Of the n - 1 steps through the list k lie below, 100 k <= 95 (n - 1) < 100 (k + 1), and it goes the rest of the 0.95 (n - 1) steps from the k-th value toward the next; in an ascending list it lies between the two |
| Percentile.PercentileIsMonotone | analytics-engine/src/db/pg_writer.py:48-63 | Raising values never lowers it |
| HourlyStats.HourlyAccumulator.Accumulate | analytics-engine/src/db/pg_writer.py:96-115 | Every deviation and "new" action is added to its own route's data |
| HourlyStats.HourlyAccumulator.AddDeviation | analytics-engine/src/db/pg_writer.py:103-111 | One deviation enters the data of its route, or of "unknown", and no other |
| HourlyStats.HourlyAccumulator.SumUp | analytics-engine/src/db/pg_writer.py:159-174 | A row is the mean, p95, distinct vehicles and on-time share of exactly its own observations |
| HourlyStats.RowOfSays | analytics-engine/src/db/pg_writer.py:96-174 | In the observations' own fields: of the route's deviations ("unknown" without one) the mean absolute seconds, the 95th percentile of those in order, the distinct vehicles, 100 times the share within 180 s either way, and the number of new incidents |
| HourlyStats.HourlyAccumulator.Flush | analytics-engine/src/db/pg_writer.py:152-182 | One row a route with data, each saying that of exactly its own, and a clean slate |
| HourlyStats.HourlyAccumulator.MaybeFlush | analytics-engine/src/db/pg_writer.py:117-143 | Flushes under the old hour exactly when the hour has changed |
| HourlyStats.HourlyAccumulator.FlushRemaining | analytics-engine/src/db/pg_writer.py:145-150 | Flushes what is left; None only when nothing is |
| HourlyStats.SortKeepsSum | analytics-engine/src/db/pg_writer.py:159-166 | Summing the sorted values gives the mean of the observations |
| HourlyRun.RetryBuffer.UpsertHourlyStats | analytics-engine/src/db/pg_writer.py:217-272 | All or nothing: on success every key named holds the last row of it and every other key is as it was; on failure nothing has changed and 0 is returned |
| HourlyRun.UpsertedIff | analytics-engine/src/db/pg_writer.py:229-240 | Upserting in turn leaves the one table in which every named key holds its last row and the rest is untouched |
| HourlyRun.RetryBuffer.FlushPending | analytics-engine/src/main.py:109-149 | Whatever fails, each flushed row is pending or in the table, in order; an attempt that succeeds empties the buffer |
| HourlyRun.RetryBuffer.PgUpsert | analytics-engine/src/main.py:151-153 | New rows join the pending ones and are tried at once |
| HourlyRun.UpsertedAgrees | analytics-engine/src/db/pg_writer.py:229-240 | With distinct keys the table agrees with the rows on all of them and is untouched elsewhere |
| HourlyRun.TakeTick | analytics-engine/src/main.py:179-187 | Accumulate, then flush if the clock has moved past the hour, then upsert, or else retry what is pending |
| HourlyRun.OnWindowResult | analytics-engine/src/main.py:179-187 | After every window the rows flushed so far group everything before the current hour, which the accumulator holds |
| HourlyRun.Shutdown | analytics-engine/src/main.py:214-225 | The last hour is flushed too; one success in the final attempts leaves nothing pending |
| HourlyRun.RunEngine | analytics-engine/src/main.py:181-225 | Whatever upserts fail, every deviation and new incident is in exactly one (route, hour) row, each in the table or pending at the end |
| HourlyRun.TableIsGrouping | analytics-engine/src/db/pg_writer.py:217-240 | After a successful last attempt the table is the grouping itself on its keys, and as before elsewhere |
| HourlyRun.EveryRowSays | analytics-engine/src/db/pg_writer.py:96-174 | Every row of a run says that of all deviations and new incidents of its route and hour |
| HourlyRun.IncidentsConserved | analytics-engine/src/db/pg_writer.py:113-115 | bunching_events over all rows sum to the number of "new" actions of all windows |
| HourlyRun.DeviationsConserved | analytics-engine/src/db/pg_writer.py:103-111 | The deviations the rows are over sum to the number of all windows' deviations |
| HistoryBuckets.DayIndexIff | ingestion-service/frontend/charts/history-chart.ts:73-76 | The rounded quotient is the local day if and only if its midnight drifts by less than half a day |
| HistoryBuckets.DayIndexUndoes | ingestion-service/frontend/charts/history-chart.ts:73-80 | localDayIndex undoes dayFromIndex |
| HistoryBuckets.BucketGrid | ingestion-service/frontend/charts/history-chart.ts:105-132 | Exactly the bucket starts of the days from first to last, each at its place in order, with or without data |
| HistoryBuckets.BucketStartIff | ingestion-service/frontend/charts/history-chart.ts:82-97 | A bucket start is exactly the own hour, the start within the own day of the slot of bucketHours that holds the hour, or the midnight of the day that begins the group of round(bucketHours / 24) days that holds the day |
| HistoryBuckets.EveryPointHasBucket | ingestion-service/frontend/charts/history-chart.ts:82-97 | Every point's bucket start is a start of the grid |
| HistoryBuckets.AddPointBalances | ingestion-service/frontend/charts/history-chart.ts:207-225 | Adding a point keeps the weighted sum between the weighted bounds |
| HistoryBuckets.GatherAddsUp | ingestion-service/frontend/charts/history-chart.ts:207-225 | A bucket adds up exactly the points that belong to it: totals, sums weighted by vehicles, hours with and without service, and the extremes of the hours with service |
| HistoryBuckets.FinishIsFair | ingestion-service/frontend/charts/history-chart.ts:291-304 | A bucket with service shows an average between its worst and best hour; one without is a gap |
| HistoryAggregate.DayRange | ingestion-service/frontend/charts/history-chart.ts:266-275 | first and last are the first and last observed local day |
| HistoryAggregate.LayOut | ingestion-service/frontend/charts/history-chart.ts:277-282 | An empty bucket for every slot of the grid, in order |
| HistoryAggregate.AggregateBuckets | ingestion-service/frontend/charts/history-chart.ts:227-306 | No point is dropped: each is in the bucket it belongs to, which tells of exactly those points their totals, vehicle-weighted averages and extremes; vehicles, bunching and hours add up, and every grid bucket is there, in order, with or without points |

## Left out

- Power loss beyond fsync: what an fsync covers is stated, but no step drops the rest, and .gz files, Parquet, renames and directory entries are never counted as covered.
- Redelivery from before the starting offset, rebalances, and more than one writer on the tree.
- The slack of reading the clock for one hour and opening its file a day or more later; the 48-hour gate leaves exactly that much.
- Directory listings are one step; files that appear during a listing are not distinguished from files that appear after it.
- The gzip stream and the Parquet columns: content is kept line by line, promoted columns are not modelled.
- Progress of raw deletion after a crash inside the unlink loop: the remaining files no longer match the count, so they stay until a person acts.
- `compact_min_age_hours`: not used by the gate; the constant of 48 hours is.
- Parquet modification times are parameters; nothing but the grace period reads them.
- The observations of a whole incident: as in the source the count of an update is that of the latest frame alone, so BunchingStore.StoreIsUncutDetection speaks of keys, ends and smallest distances and BunchingLog.DocumentCounts of the counts.
- Trips and routes are never null, and a merge on a null route (which pandas performs) is not modelled; vehicle identifiers are ordered numbers.
- The geometry of displacement and terminal proximity: distance and nearness are arbitrary functions of the positions.
- Backoff, commits, and failed persistence of the analytics consumer: every flushed frame is processed and stored.
- Exceptions inside one window's detection, which skip that window.
- Arrivals.CollapseIsFirst: the order of groups is left open, since no two results share a visit.
- Departure deviations (disabled), enrichment with location and route name, matching counters, alerts and pipeline status.
- GTFS refresh and loading: the timetable and the directions are fixed for a run.
- Scheduled times more than 35 h 30 min into their service day: the arrival theorems are about timetables without them, as beyond that the nearest day can be missed (ServiceDay.ReachIsExact).
- HourlyStats.HourlyAccumulator.SumUp: the on-time share is exact; the rounding to one decimal is not modelled.
- Order of rows within one flush: rows come in no particular order, as their keys are distinct.
- Reconnecting to PostgreSQL: an attempt succeeds or fails as it will; its timer is modelled.
- Floating-point rounding in averages, percentiles and distances.
- HistoryAggregate.AggregateBuckets: the aliasing of one bucket object by the list and the key table is an index into the list; labels, titles and ISO strings of buckets are left out.
- bucketHoursForDays, chart drawing, the poller, decoder, HTTP routes, rate limiter, caches and panels.
