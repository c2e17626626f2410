# A verified model of the edge endpoint

The edge endpoint answers image queries near the camera and escalates some of them to the cloud. This
project models the parts of it whose correctness depends on the order of small steps, on interleavings and
crashes, or on an algorithm with a clear mathematical meaning, and proves what those parts are for.

`dafny verify dfyconfig.toml` checks everything.

## What is modelled

**The escalation queue.** Workers append escalations as lines to files; one reader moves a file, hands its
lines to a consumer, counts the consumed lines in a tracking file and finally unlinks both; a retention sweep
removes what is too old; any process can crash at any point.

- `QueueFiles` is this as a step protocol over shared files, one file-system operation per step.
  `QueueInvariant`, `QueueHistory` and `QueueDelivery` prove what every interleaving keeps, which lines can still
  be delivered and which are lost; `QueueCalm`, `QueueOrder`, `QueueByName` and `QueueRepeats` prove the absence of loss, order
  of one writer and across writers, and the number of repeats. `QueueRewind` shows exactly which sweeps break order and repeats, and `QueueWitness` gives the runs that show
  why the absence of loss needs its assumptions.
- `EscalationSystem` adds the images, the cache of request ids, the consumer, the sweep of images and the
  clock. `EscalationImages`, `EscalationReplay`, `EscalationExpiry`, `EscalationOutcome`, `EscalationLeftover`,
  `EscalationDuplicates`, `EscalationSweepOrder` and `EscalationRewind` prove the life of a line over all runs;
  `EscalationRepeat` is the run that shows what a sweep costs that cannot remove an image.
- `QueueProcesses`, `EscalationProducer`, `EscalationRetry`, `EscalationConsumer`, `EscalationLoop`, `RequestCacheModel`,
  `EscalationRetention` and `EscalationPrune` are the classes and loops of the program. Each is proved to take only steps of the protocol
  (through `WriterRuns`, `ReaderRuns`, `ReaderLift`, `ProducerRuns`, `ConsumerRuns`), or to compute a function whose
  properties are proved beside it (`RequestWindow`). The reader's generator is an object that is resumed.

**Trace analysis.** `TraceIntervals` and `TracedMetrics` prove the sweep over inference intervals and the metrics made
of it; `StableSort`, `TraceRecords` and `TraceMerge` the merging of the records of one trace; `SpanTrees`, `SpanGraph`,
`WaterfallOrder`, `WaterfallSearch` and `WaterfallColours` the stack-based searches behind the waterfall;
`TracedSpans`, `TraceDetail`, `CallRecords` and `RequestTracing` that the waterfall of a request traced in one thread is
the tree of its calls. `TracerThreads` is one tracer in any number of threads, each in a copied context, as a step protocol
over `TracerSpans`; `ThreadedTraces` proves what the waterfall and the metrics make of its traces.

**Inference deployments.** `DeploymentRows` and `EdgeConfig` model the database rows and their reconciliation with a
configuration. `UpdaterProtocol` is the model updater against concurrent requests and the cluster, with its safety in
`UpdaterSafety` and its progress in `UpdaterProgress`; `UpdaterLoop` is the updater's loop, in which anything may
happen between two actions, and `UpdaterTurns` says what its turns did.

**Smaller parts.** `VersionRules` and `ModelRepository` (numbered model directories), `FileNames`, `HistogramNames` and
`ConfidenceHistogram` (a histogram in file names), `TimestampedCaches` and `DetectorMetadata` (a cache that can set
values aside), `LogSeries` and `LoadBuckets` (bucketing of a load-test log), `PodMemory` and `DonutChart` (where the
memory of the pods goes).

`Collections` holds what the modules share.

## What is assumed about the environment

- Appending a line and every other file operation is atomic (a line may be garbled, but it is one line), and what was written outlives a crash of the process.
- Ids and names that the program draws at random are never drawn twice, and a worker's new file name sorts after
  its earlier ones (names begin with a timestamp). Modification times of the request cache are distinct.
- The clock does not go back. Kubernetes starts pods only for deployments that exist. Pod and report names are
  unique in the namespace.
- The absence of loss and the prefix property (`NoLoss`, `PrefixDelivered`) assume in addition what `Calm` in
  `QueueCalm` says: nothing is swept, the reader does not crash between its rename and the creation of the
  tracking file, and an append in flight lands before the final read of its file. `CrashInWindowLoses` and
  `LateAppendLoses` show that the last two cannot be dropped, and `DeliverableIff` says exactly which lines are
  lost without them.
- Order (`InOrder`) assumes that no sweep takes the tracker of a file after the reader chose this file and before it read
  how many lines the tracker counts, if it counts any (`Rewinds` in `QueueFiles`). Any other sweep, of trackers, data files
  or images, and any crash is allowed. `SweepRepeatsIff` says that exactly those sweeps let a consumed line be handed over
  again, and `SweptTrackerRepeats` is a run in which one does. `RepeatsBounded` holds over all runs and counts what such
  sweeps take back. `ReplayIsSkipped` and `ReplayFindsImage` exclude only files that such a sweep made the reader start again.
- The bound on duplicates (`BoundedDuplication`) assumes that when such a sweep takes a tracker, the images of the settled
  lines of the file are gone. The sweep sees to that itself: it goes through the images first, against the same cutoff, and
  the images of a moved file's lines are older than its tracker (`BoundedIfImagesFirst`, `WholeSweepIsRun`). What is assumed
  is that it can list the images and that no removal of an expired image fails; `SettledIsSubmittedAgain` is a run in which
  one did. That a counted line is not submitted again (`CountedForGood`) needs no assumption.
- A request ends, and its root span with it, when its threads have left all their spans (`ThreadedMetricsAddUp`): the
  request waits for the threads that it starts.

## Where the code does less than its comments say

- The comment at `app/escalation_queue/queue_reader.py:57-61` says that no line is missed. A crash between the
  rename and the creation of the tracking file leaves a file that is never chosen again (`CrashInWindowLoses`).
- The same comment allows for reading a line twice. A sweep between the choice of a file (lines 101-109) and the reading
  of its tracker (line 52) makes the reader start the file again: more repeats than crashes, and out of order
  (`SweptTrackerRepeats`).
- The comment at `app/escalation_queue/manage_reader.py:168-174` relies on the cache of ids against duplicates. If the sweep
  (`app/escalation_queue/queue_retention.py:43-53`) failed to remove the image of a settled escalation and then makes the
  reader start its file again, the escalation can be submitted again although its id had been cached
  (`SettledIsSubmittedAgain`); with the image removed it is not (`BoundedDuplication`).
- The comment at `app/profiling/dashboard.py:1002-1004` speaks of spans without an id in the fallback. If the search
  reaches a span without an id it never ends (`EndsIffReachableHaveIds`, `NoIdRunsForever`).
- `app/profiling/data_loader.py:193-197` states the decomposition of the request time without a condition. It holds
  exactly when the waiting time is no longer than the request (`DecompositionIff`, `LongCallBreaksDecomposition`).
- `app/core/app_state.py:69-74` expects a `KeyError` only from the deletion of the suspended value. A `KeyError` of
  the fetch itself leaves the detector uncached and its old value suspended (`RefreshIfNeeded`,
  `KeyErrorLosesMetadata`). A cached None would be lost by the attempt to suspend it (`StaleNoneIsLost`).
- `app/core/edge_inference.py:681-704` deletes all but the latest versions, but to keep none deletes none
  (`KeepsAsManyIff`); and a save that stopped after the configuration of a model without a binary is not retried,
  though the predictor's metadata is missing (`RecheckAfterSave`, `CutShortForGood`).
- `app/core/edge_config_manager.py:75-93` leaves a desired detector marked for deletion if it was active and marked
  at once (`StillMarkedIff`); the updater then deletes its rows (`DesiredLosesItsRows`).

## Model

| member | source | states |
|---|---|---|
| QueueInvariant.InvRun | app/escalation_queue/queue_reader.py:43-129 | over every run of writers, reader, sweep and crashes: counters never pass each other, files hold contiguous pieces of what their writer appended, one tracker at most, the reader's position agrees with it |
| QueueInvariant.FilesOfEveryRun | app/escalation_queue/queue_reader.py:101-109 | in every run there is at most one tracking file, no file exceeds the line limit, and a path created with O_CREAT never existed before |
| QueueHistory.HistoryRun | app/escalation_queue/queue_reader.py:53-63 | over every run a line of a file is recorded as consumed exactly if the file's count of consumed lines covers it, and was handed over exactly if it was seen; only appended lines are handed over |
| QueueDelivery.MovedForGood | app/escalation_queue/queue_reader.py:65-71 | a moved name never returns to the writing directory, and over any continuation its file gains at most one line, only if it was held open at the move |
| QueueDelivery.LostForever | app/escalation_queue/queue_reader.py:101-109 | a line in a file stranded without tracker, or appended after the last read, is never handed over or consumed, whatever follows |
| QueueDelivery.Drain | app/escalation_queue/queue_reader.py:43-129 | left alone, the reader empties the queue: it reads every live file to its end and unlinks it |
| QueueDelivery.DeliverableIff | app/escalation_queue/queue_reader.py:43-75 | from any reached state, a line of an unswept file can still be delivered if and only if it was neither stranded nor late |
| QueueCalm.NoLoss | app/escalation_queue/queue_reader.py:43-75 | at-least-once delivery under the three stated promises: every appended line is in the writing directory, ahead of the tracker, or consumed; unlinked files are fully consumed |
| QueueOrder.InOrder | app/escalation_queue/queue_reader.py:111-129 | as long as no sweep makes the reader start a file again, what is delivered of one writer, adjacent repeats removed, is in the order of writing, whatever is lost on the way |
| QueueOrder.PrefixDelivered | app/escalation_queue/queue_reader.py:51-75 | under the three promises, what is delivered of one writer, repeats removed, is a prefix of what it wrote |
| QueueByName.EarlierFirst | app/escalation_queue/queue_reader.py:118-124 | of two files in the writing directory, whoever wrote them, the one whose name comes first is taken first: over every continuation at whose end it is still there, the other one is not moved for reading and none of its lines is handed over |
| QueueRepeats.RepeatsBounded | app/escalation_queue/queue_reader.py:54-63 | in every run, the number of hand-overs exceeds that of distinct lines by at most the crashes and the lines counted by the trackers that sweeps took from a file chosen and not yet read |
| QueueRewind.ConsumedOnce | app/escalation_queue/queue_reader.py:54-63 | as long as no sweep makes the reader start a file again, a consumed line is never handed over again, whatever crashes |
| QueueRewind.SweepRepeatsIff | app/escalation_queue/queue_reader.py:51-53 | after a sweep of a tracker a consumed line can be handed over again, without another such sweep, if and only if the reader had chosen its file, the tracker counted lines, and the reader had not read it yet |
| QueueRewind.SweptTrackerRepeats | app/escalation_queue/queue_reader.py:51-53 | a run with one crash and one sweep in which two lines are handed over four times and out of order |
| QueueWitness.CrashInWindowLoses | app/escalation_queue/queue_reader.py:111-129 | a run without any sweep in which a crash after the rename loses a queued line for good |
| QueueWitness.LateAppendLoses | app/escalation_queue/queue_reader.py:65-75 | a run without crash, failure or sweep in which an append after the final readline is lost although its writer succeeded |
| WriterRuns.CallIsRun | app/escalation_queue/queue_writer.py:49-96 | a call of the writer, whatever fails in it, is a run of the protocol that keeps its invariant, and its effect is this one |
| WriterRuns.LineOfCall | app/escalation_queue/queue_writer.py:49-96 | the line of a call goes behind the lines of the last file as long as that holds fewer than 200 and resolves, otherwise alone into a new file in the writing directory; a call that fails leaves all lines as they were |
| WriterRuns.PiecesOfCall | app/escalation_queue/queue_writer.py:58-66 | choosing a path, writing to it and counting the line compose to the effect of the whole call |
| QueueProcesses.QueueWriter.WriteEscalation | app/escalation_queue/queue_writer.py:49-66 | writes to the last path if it is neither full nor gone and otherwise to a new one, and succeeds exactly if nothing fails |
| QueueProcesses.QueueWriter.WriteToPath | app/escalation_queue/queue_writer.py:68-96 | appends with O_CREAT only on a new path, and falls back to another new path when the file was moved |
| QueueProcesses.QueueWriter.ResetToNewFile | app/escalation_queue/queue_writer.py:104-108 | the writer continues on the new path with an empty count |
| ReaderRuns.TakenRun | app/escalation_queue/queue_reader.py:93-129 | choosing and opening a file are reader steps that bring the reader closer to an empty queue |
| ReaderRuns.ResumedRun | app/escalation_queue/queue_reader.py:62-75 | resuming after a yield are reader steps that record the yielded line as consumed |
| ReaderRuns.FinalReadRun | app/escalation_queue/queue_reader.py:65-75 | the final read and the deletions that may follow are reader steps |
| ReaderRuns.RunIsCloser | app/escalation_queue/queue_reader.py:43-75 | any steps of the reader bring it closer to an empty queue, so it cannot go on forever without one |
| QueueProcesses.QueueReader.Next | app/escalation_queue/queue_reader.py:33-75 | a resumption is a run of reader steps that records the previous line as consumed and hands over one line, or waits, and waits for a file only if there is none; unless the queue was empty it brings the reader closer to an empty queue |
| QueueProcesses.QueueReader.Wake | app/escalation_queue/queue_reader.py:62-75 | from a suspension up to the loops, by reader steps only |
| QueueProcesses.QueueReader.Proceed | app/escalation_queue/queue_reader.py:43-54 | the loop over files ends with a line handed over, with the end of a file, or with nothing left to read |
| QueueProcesses.QueueReader.ChooseNewFile | app/escalation_queue/queue_reader.py:93-129 | a tracked file before any other and without moving anything; otherwise the file whose name comes first among all in the writing directory, which is moved; none exactly if the queue is empty |
| QueueProcesses.QueueReader.OldestOf | app/escalation_queue/queue_reader.py:118-118 | the least name |
| QueueProcesses.QueueReader.Open | app/escalation_queue/queue_reader.py:43-53 | an orphaned tracker is discarded; otherwise reading starts after the consumed lines |
| QueueProcesses.QueueReader.WriteTracker | app/escalation_queue/queue_reader.py:62-63 | the mark counts exactly the line just yielded |
| QueueProcesses.QueueReader.DeleteFiles | app/escalation_queue/queue_reader.py:73-75 | the data file goes before its tracker |
| QueueProcesses.QueueReader.ReadFinalLine | app/escalation_queue/queue_reader.py:65-75 | a late line is handed over; without one both files are deleted |
| EscalationExpiry.SysRun | app/escalation_queue/manage_reader.py:131-161 | the lifecycle invariant holds in every run of the whole queue: images, cache, consumer, sweep and clock together |
| EscalationExpiry.MissingIsExpired | app/escalation_queue/manage_reader.py:144-149 | an escalation about to be attempted whose image is missing is past the window |
| EscalationImages.ImagesRemove | app/escalation_queue/manage_reader.py:157-161 | removing the image of a settled line takes no image that another line or draft needs |
| EscalationOutcome.LifeOfALine | app/escalation_queue/manage_reader.py:134-161 | in every run each counted line has one outcome, backed by a submission, a record, an expiry or a line with the same request id; its image is gone and its id was cached, unless it did not parse, when it is recorded; unsettled lines have their image unless swept after the window |
| EscalationOutcome.RetentionAgrees | app/escalation_queue/manage_reader.py:144-155 | in every run no failure record of an escalation with a readable time is due to a missing image, none was judged past the window at the time of its expiry check, and a swept image means an escalation past the window |
| EscalationOutcome.ReplayFindsImage | app/escalation_queue/queue_reader.py:54-63 | in every run without a sweep of images, every attempt finds its image, also when the line is replayed after a crash, unless a sweep made the reader start its file again |
| EscalationDuplicates.BoundedDuplication | app/escalation_queue/manage_reader.py:134-161 | as long as a sweep makes the reader start a file again only when the images of its settled lines are gone, acknowledged submissions of one line are at most one plus the crashes between an acknowledgement and the caching of the id |
| EscalationDuplicates.ReplayIsSkipped | app/escalation_queue/manage_reader.py:139-143 | in every run, a line that was settled before a crash is recognised as a duplicate when it comes back, unless a sweep made the reader start its file again |
| EscalationDuplicates.LeftoverIsSkipped | app/escalation_queue/manage_reader.py:139-143 | under the condition of the bound, also in a file started again a settled line is recognised as long as its image is there |
| EscalationLeftover.LeftoverRun | app/escalation_queue/manage_reader.py:157-161 | under that condition, in every run: of a file that the reader has or will come back to, the only settled line whose image is left is the one it takes next, and its id is cached; a line being submitted has not settled |
| EscalationSweepOrder.BoundedIfImagesFirst | app/escalation_queue/queue_retention.py:16-21 | the same bound, whenever the sweep comes: if every sweep that takes a tracker has removed all the images that were too old when it started |
| EscalationSweepOrder.WholeSweepIsRun | app/escalation_queue/queue_retention.py:35-53 | a sweep whose removals succeed, of images, queue files and trackers against one cutoff, is a run of the system that meets this condition and leaves exactly the rest |
| EscalationSweepOrder.SweptThroughStays | app/escalation_queue/queue_retention.py:35-53 | once a sweep has gone through the images, no step of any process brings back one that was too old for it |
| EscalationRewind.CountedForGood | app/escalation_queue/manage_reader.py:139-161 | in every run, whatever is swept and whatever crashes, a line that the reader counted is never submitted again |
| EscalationRepeat.SettledIsNotSkipped | app/escalation_queue/queue_reader.py:51-53 | a run of the whole queue in which a settled line is handed over again and not recognised, after a sweep took its file's tracker and left its image |
| EscalationRepeat.SettledIsSubmittedAgain | app/escalation_queue/queue_reader.py:51-53 | such a run, in which the removal of the expired image must have failed: the line is submitted twice although no crash forgot an acknowledgement, so the condition of the bound cannot be dropped |
| EscalationRetry.ConsumeQueuedEscalation | app/escalation_queue/manage_reader.py:98-128 | every attempt before the last failed retryably, the last one did not, an attempt fails without a client before it looks for the image; the waits are 0, 1, 5, 10 and then always 30 seconds, and only the first attempt has the long connect timeout |
| EscalationRetry.WhichPassItOn | app/escalation_queue/manage_reader.py:88-97 | an answer leaves the decision to those that follow exactly if it is a failure of the client, too many connection attempts, a read timeout or status 429, and the image, if the answer comes that far, is there; every other answer decides |
| ConsumerRuns.HandledRun | app/escalation_queue/manage_reader.py:137-161 | any number of retries, with or without a client and an image, followed by a success or a permanent failure is a run that ends with the line handled under the right outcome |
| ConsumerRuns.RejectedRun | app/escalation_queue/manage_reader.py:137-153 | a line that does not parse is recorded and nothing else changes: no id is cached and no image removed |
| ConsumerRuns.DuplicateRun | app/escalation_queue/manage_reader.py:139-161 | a line whose id is cached is handled without a submission or a record |
| EscalationConsumer.HandleEscalation | app/escalation_queue/manage_reader.py:131-161 | one turn of the consumer is a run of the system; a line that does not parse is recorded, a cached id makes a duplicate, otherwise the first answer that is not retried decides between submitted, recorded and dropped as expired, and without one the turn is still retrying |
| ReaderLift.LiftedResumption | app/escalation_queue/queue_reader.py:43-75 | once the consumer is done with a line, a resumption of the reader that hands over at most one line is a run of the whole queue that takes the old line back and gives the consumer the new one |
| EscalationLoop.OneTurn | app/escalation_queue/manage_reader.py:131-161 | one turn is a run of the whole queue: either the reader waits, at the end of a file or for one, and nothing else changes, or one line is handed over and handled: recorded if it does not parse, skipped if its id is cached, otherwise submitted, dropped as expired or recorded as the first attempt that is not repeated says, with its id cached and its image gone; it goes on unless the line is still being retried, and unless the queue was empty the reader comes closer to that |
| EscalationLoop.ReadFromEscalationQueue | app/escalation_queue/manage_reader.py:131-161 | any number of turns, with time passing, is a run of the whole queue that hands over exactly the lines of its turns, each of which does what one turn does; it stops early only at a line that is still being retried, so if the answers of every turn decide, all turns are taken and every line handed over was submitted, dropped or recorded, or its id was cached |
| ProducerRuns.QueuedRun | app/escalation_queue/queue_utils.py:20-30 | timestamp, image and line in this order are a run of the system, with the image on disk before the line |
| EscalationProducer.WriteEscalationToQueue | app/escalation_queue/queue_utils.py:14-32 | a call is a run of the system and leaves it as it was if the image fails, with the image alone if the line fails, and with both otherwise |
| EscalationProducer.ImageDirectory.WriteImageBytes | app/escalation_queue/queue_writer.py:37-47 | the image is written under a path that no image has, and the number of the writer's next one moves on |
| EscalationRetention.PruneExpiredQueueData | app/escalation_queue/queue_retention.py:27-53 | exactly the files older than the window are removed from every directory; a missing or unreadable directory or a stuck file stops nothing else |
| EscalationRetention.PruneDirectory | app/escalation_queue/queue_retention.py:45-53 | exactly the files of the directory that were written longer ago than the window and can be removed are removed |
| EscalationRetention.SweepIsRun | app/escalation_queue/queue_retention.py:35-51 | a sweep of the images is a run of the system that removes exactly the images written longer ago than the window |
| EscalationRetention.DataSweepIsRun | app/escalation_queue/queue_retention.py:35-51 | a sweep of queue files, whichever have expired, is a run of the system that unlinks exactly them |
| EscalationRetention.TrackerSweepIsRun | app/escalation_queue/queue_retention.py:35-51 | a sweep of tracking files of files moved longer ago than the window is a run of the system that removes exactly them |
| EscalationPrune.PruneImages | app/escalation_queue/queue_retention.py:45-51 | for a directory of the images of a system with their times, what the sweep of it leaves is what the system shows after the run that removes exactly the expired images |
| EscalationPrune.PruneQueue | app/escalation_queue/queue_retention.py:27-53 | for directories that show a system, the sweep over all of them is a run of the system, after which they show it again: an image is gone exactly if it was written longer ago than the window and can be removed; if all images can, the run takes the images before the trackers, as the bound on duplicates asks |
| RequestWindow.IsFifo | app/escalation_queue/request_cache.py:54-77 | any sequence of adds leaves the newest of the old ids and the effective additions, as many as fit; present ids are not refreshed |
| RequestWindow.HoldsNewest | app/escalation_queue/request_cache.py:54-77 | a cache that started empty holds exactly the newest effective additions, at most as many as asked (one if none) |
| RequestWindow.SurvivesWindow | app/escalation_queue/request_cache.py:54-77 | an id just added is still there until as many new ids as fit have followed it |
| RequestCacheModel.RequestCache.Add | app/escalation_queue/request_cache.py:54-77 | the directory behaves as the first-in-first-out window and keeps the times of the other entries |
| RequestCacheModel.RequestCache.OldestEntries | app/escalation_queue/request_cache.py:47-52 | the entries with the smallest modification times, oldest first |
| RequestCacheModel.RequestCache.Evict | app/escalation_queue/request_cache.py:69-73 | exactly the oldest entries go |
| RequestCacheModel.RequestCache.Contains | app/escalation_queue/request_cache.py:79-83 | true exactly for the ids in the window |
| StableSort.SortSorts | app/profiling/data_loader.py:362-362 | sorting rearranges its input into order |
| StableSort.SortIsStable | app/profiling/data_loader.py:362-362 | elements with equal keys keep their order |
| StableSort.SortIsUnique | app/profiling/data_loader.py:362-362 | any list that is sorted and stable is the result of the sort |
| TraceIntervals.CoveredMeans | app/profiling/data_loader.py:154-158 | an instant is covered exactly if some interval is running at it |
| TraceIntervals.Extract | app/profiling/data_loader.py:111-137 | one pass finds the duration of the last request span that has one, and exactly the non-empty intervals of the spans named as one of the two inference calls |
| TraceIntervals.UnionNs | app/profiling/data_loader.py:174-183 | the sweep computes the number of instants at which at least one interval is running |
| TraceIntervals.ComputeEdgePodMs | app/profiling/data_loader.py:151-187 | none unless there is a request and an inference call; otherwise the duration minus the covered time, at least zero |
| TraceIntervals.ComputeInferenceRequestMs | app/profiling/data_loader.py:190-202 | the request duration, for the same traces as the other metric |
| TraceIntervals.UnionFits | app/profiling/data_loader.py:151-187 | calls inside the root span cover no more than the root span |
| TraceIntervals.Decomposition | app/profiling/data_loader.py:190-202 | for calls inside the root span, edge-pod time plus covered time is the request time |
| TraceIntervals.DecompositionIff | app/profiling/data_loader.py:185-202 | in general the decomposition holds exactly when the covered time is no longer than the request |
| TraceIntervals.LongCallBreaksDecomposition | app/profiling/data_loader.py:185-202 | a request of one millisecond with a call of two, for which the two metrics add up to two milliseconds |
| TraceIntervals.UnionAtMostSum | app/profiling/data_loader.py:154-158 | the union is at most the sum of the calls: parallel calls are counted once |
| TraceIntervals.OrderDoesNotMatter | app/profiling/data_loader.py:174-187 | the metric does not depend on the order or repetition of the spans |
| TraceRecords.MergedDetector | app/profiling/data_loader.py:343-348 | the merged record names a detector if any record's id is neither blank nor "unknown"; otherwise it says "unknown" if any does; its metadata are those of the first record with the most spans among the records of that kind |
| TraceRecords.MergedSpans | app/profiling/data_loader.py:340-363 | the merged spans are exactly the first copies under every id, each id once, sorted by start and stable; the other fields are those of the base record |
| TraceRecords.CopiesInOrder | app/profiling/data_loader.py:350-359 | the spans are taken in the order of the records, each exactly if none before it has its id |
| TraceRecords.MergedOnce | app/profiling/data_loader.py:340-363 | merging a merged record changes nothing |
| TraceRecords.MergeTraceRecords | app/profiling/data_loader.py:340-363 | the loops over records and spans compute that merge |
| TraceMerge.OnePerId | app/profiling/data_loader.py:318-337 | one record for every non-empty id that occurs, in order of first appearance |
| TraceMerge.IdsInOrder | app/profiling/data_loader.py:328-332 | the ids are listed at the records where they first appear, in the order of these; empty and missing ids never |
| TraceMerge.GroupInOrder | app/profiling/data_loader.py:328-332 | the group of an id are exactly the records with that id, in their order |
| TraceMerge.AgreesWithDetail | app/profiling/data_loader.py:304-337 | the look-up of one trace finds the record that the merged list holds, and merging first does not change what it finds |
| TraceMerge.MergeIsIdempotent | app/profiling/data_loader.py:318-337 | merging twice is merging once |
| TraceMerge.GroupById | app/profiling/data_loader.py:328-332 | the dictionary holds under each non-empty id its records in order, listed by first appearance |
| TraceMerge.MergeTracesById | app/profiling/data_loader.py:318-337 | computes the merged list of which the laws above are proved |
| TraceMerge.GetTraceDetail | app/profiling/data_loader.py:304-315 | the merge of the records under one id, or none if there is none |
| SpanGraph.ChildrenOfAre | app/profiling/dashboard.py:981-989 | the children of a parent are exactly the spans that name it, each once; orphans are roots |
| SpanGraph.WhoseChild | app/profiling/dashboard.py:980-987 | a span is a child of an id exactly if it names that id as its parent, and a span carries it, and it is not empty; it is a root exactly if it names no such id |
| SpanGraph.ChildrenOfByStart | app/profiling/dashboard.py:988-989 | children are listed by start, and those that start together in the order of the spans |
| WaterfallOrder.OccursIffReachable | app/profiling/dashboard.py:994-1000 | the unfolding of the roots contains exactly the spans reachable from a root |
| WaterfallOrder.UnfoldsIff | app/profiling/dashboard.py:981-1000 | spans with unique ids unfold to finite trees exactly if every reachable span has an id, even with orphans and parent cycles |
| WaterfallSearch.EndsIffUnfolds | app/profiling/dashboard.py:994-1000 | the stack search ends exactly if the roots unfold to finite trees |
| WaterfallSearch.EndsIffReachableHaveIds | app/profiling/dashboard.py:995-1000 | with unique ids, the search ends exactly if it reaches no span without an id |
| WaterfallSearch.NoIdRunsForever | app/profiling/dashboard.py:998-998 | a trace of a single span without an id: the search never ends |
| WaterfallSearch.SearchIsPreorder | app/profiling/dashboard.py:991-1000 | the search computes the recursive preorder, children right under their parent one deeper, one span a turn |
| WaterfallSearch.ReachedOnce | app/profiling/dashboard.py:991-1000 | the search places exactly the reachable spans, each once |
| WaterfallSearch.RowsArePermutation | app/profiling/dashboard.py:991-1008 | the rows are a permutation of the spans: those of the search first, then the others in their order at depth 0 |
| WaterfallSearch.ChildrenByParent | app/profiling/dashboard.py:981-989 | the dictionary lists under every parent its children by start |
| WaterfallSearch.DepthFirst | app/profiling/dashboard.py:994-1000 | the loop with its stack places what the specification says, and ends |
| WaterfallSearch.BuildRows | app/profiling/dashboard.py:981-1008 | with the children listed under every parent, the rows are the preorder of the roots followed by the unreached spans at depth 0 |
| TracedSpans.AllReachable | app/profiling/tracer.py:33-36 | if parents are created before their children, every span is reachable from a root |
| TracedSpans.FallbackAddsNothing | app/profiling/dashboard.py:1005-1008 | for spans with unique ids of which each was created after its parent, the search ends and the fallback loop adds nothing |
| TraceDetail.DetailCanBeDrawnIff | app/profiling/data_loader.py:304-315 | a looked-up trace always has unique ids, so its waterfall can be drawn exactly if no span without an id is reachable |
| CallRecords.WaterfallIsCallTree | app/profiling/dashboard.py:994-1000 | the waterfall of a traced request lists its calls in the order in which they started, each as deep as it was nested |
| RequestTracing.RequestTracer.StartSpan | app/profiling/tracer.py:33-36 | a new span under the given parent, which must be a span of the tracer, or under the root, with an id of its own; ids stay unique and every parent stays before its children |
| RequestTracing.RequestTracer.EndSpan | app/profiling/tracer.py:38-42 | ends the span and changes nothing else |
| RequestTracing.Traced | app/profiling/context.py:46-59 | in one thread, a traced call records itself and all calls below it under the span of its caller, and restores the current span |
| RequestTracing.RequestTracer.Finish | app/profiling/tracer.py:48-52 | ends the root and hands over the spans with their durations |
| RequestTracing.TraceRequest | app/profiling/tracer.py:12-52 | the trace of a request in one thread records its calls as the call-tree theorem needs it, and every span ends within the root |
| TracerThreads.RunKeeps | app/profiling/tracer.py:21-46 | under every interleaving of threads that copy contexts and start and end spans of one tracer, ids stay unique and non-empty, every span has its parent before it in the list and started after it, and a span that has not ended is one that some thread has entered |
| TracerThreads.StartIsBuildAndAdd | app/profiling/tracer.py:21-36 | making a span and appending it with nothing in between is what `StartSpan` does, under the current span of the thread's context |
| TracerThreads.SpawnedSpansHang | app/core/edge_inference.py:314-323 | whatever happens in between, a span that a thread makes while it is in none of its own hangs under the span that its spawner was in when it spawned it; a span made inside another hangs under that |
| ThreadedTraces.TraceIsPlaced | app/core/edge_inference.py:314-323 | the trace of one tracer, whatever its threads did: unique and present ids, parents created before their children, and in whatever order the spans are listed the search ends, places every span, and the fallback loop adds nothing |
| ThreadedTraces.LookedUpIsPlaced | app/profiling/data_loader.py:304-315 | the same of the trace as it is looked up in a file |
| ThreadedTraces.ThreadedMetricsAddUp | app/profiling/data_loader.py:190-202 | if the request ends after its threads left their spans, its two metrics exist exactly if an inference call took time, and then add up to the request, however the threads overlapped |
| TracedMetrics.TracedCallsInside | app/profiling/data_loader.py:111-137 | in a finished trace all inference intervals lie inside the root span |
| TracedMetrics.MetricsAddUp | app/profiling/data_loader.py:190-202 | a finished trace has the two metrics exactly if an inference call took time, and then edge-pod time plus waiting time is the request, however calls nest or overlap |
| TracedMetrics.RecordHasOneRoot | app/profiling/tracer.py:33-36 | in the trace of a request only the root has no parent |
| WaterfallColours.InheritColours | app/profiling/dashboard.py:1013-1024 | exactly the ids below an inference call are coloured, each with the colour of the first such call |
| WaterfallColours.Spread | app/profiling/dashboard.py:1015-1024 | the inner search colours everything below one call that had no colour, keeps the others, and ends for any spans |
| WaterfallColours.BuildWaterfall | app/profiling/dashboard.py:981-1024 | from one index of the children of every parent, the rows of the search and the colours of the first inference call above each span |
| DeploymentRows.ReconciledIsDesired | app/core/edge_config_manager.py:96-111 | a reconciliation run alone makes exactly the desired detectors active |
| DeploymentRows.ReconcileIsIdempotent | app/core/edge_config_manager.py:105-111 | repeating a reconciliation changes nothing |
| DeploymentRows.ReconcileKeepsOthers | app/core/edge_config_manager.py:75-93 | no row disappears, and rows of detectors whose wish did not change stay as they are |
| DeploymentRows.StillMarkedIff | app/core/edge_config_manager.py:75-93 | a desired detector is left marked for deletion exactly if it was active and marked at once |
| UpdaterSafety.DesiredLosesItsRows | app/core/edge_config_manager.py:75-93 | a run in which a detector is marked between the creation of its two rows: a reconciliation that wants it changes nothing, and the updater deletes all its rows |
| DeploymentRows.InActive | app/core/database.py:127-135 | a detector is active exactly if one of its two rows is not marked, and pending exactly if one is, so it can be both |
| EdgeConfig.Database.CreateOrUpdate | app/core/database.py:59-103 | adds the row, or applies the incoming flags to the existing one; in both cases it is not created, and its mark is the incoming one or stays; no other row changes |
| EdgeConfig.Database.MarkPendingDeletion | app/core/database.py:115-125 | marks all rows of the detector and no other |
| EdgeConfig.Database.UpdateCreated | app/core/database.py:86-103 | sets the flag of an existing row; without the row, nothing |
| EdgeConfig.Database.DeleteRecords | app/core/database.py:137-143 | removes all rows of the detector and no other |
| EdgeConfig.Database.GetActive | app/core/database.py:133-135 | the detectors with a row that is not marked |
| EdgeConfig.Database.GetPendingDeletions | app/core/database.py:127-131 | the detectors with a marked row |
| EdgeConfig.ComputeDetectorDiff | app/core/edge_config_manager.py:96-102 | removes only current and adds only new detectors, and together they turn the current set into the desired one |
| EdgeConfig.ApplyDetectorChanges | app/core/edge_config_manager.py:75-93 | marks the rows of the removed detectors, gives the added ones two unmarked rows, and leaves all others as they are, whatever the order |
| EdgeConfig.ReconcileConfig | app/core/edge_config_manager.py:105-111 | afterwards the active detectors are those of the configuration |
| UpdaterSafety.InvRun | app/model_updater/update_models.py:199-259 | what the updater has polled stays true while it relies on it, under every interleaving with the API and the cluster |
| UpdaterSafety.NoOrphanEver | app/model_updater/update_models.py:199-259 | under every interleaving a detector with a deployment or a pod has a row |
| UpdaterSafety.RowsGoLast | app/model_updater/update_models.py:209-230 | the rows of a detector go only in the removal step, when it has neither deployments nor pods |
| UpdaterSafety.RemovedIffInSnapshot | app/model_updater/update_models.py:225-228 | once the pods are gone, rows are removed exactly for the detectors of the snapshot, added again or not |
| UpdaterSafety.ReAddedLosesItsRows | app/model_updater/update_models.py:225-228 | a run in which a detector that is added again during the wait loses its rows |
| UpdaterProgress.CanSettle | app/model_updater/update_models.py:199-259 | without interference, one turn can remove the marked detectors, keep the others, and leave exactly their deployments |
| UpdaterLoop.Updater.IsFullyDeleted | app/core/kubernetes_management.py:237-251 | true only if neither the deployment nor a pod was found, which the updater may then rely on; false only if one of them is there |
| UpdaterLoop.Updater.AllFullyDeleted | app/model_updater/update_models.py:213-220 | true only if every deployment of the snapshot was found fully deleted; false only if one of them, or a pod of it, is there |
| UpdaterLoop.Updater.WaitForPods | app/model_updater/update_models.py:209-223 | polls until everything is gone or the time is up, with anything happening in between; if the time is up, every one of the polls has found a deployment of the snapshot or a pod of it |
| UpdaterLoop.Updater.ProcessDeletions | app/model_updater/update_models.py:200-230 | the deletion phase takes only steps of the protocol; the rows of every detector that was marked when its snapshot was taken are removed, unless every poll found one of their deployments or a pod |
| UpdaterLoop.Updater.CheckDetector | app/model_updater/update_models.py:91-103 | brings one detector up by steps of the protocol: each deployment up to the one at which it fails is there, and the detector is recorded as created exactly if nothing fails |
| UpdaterLoop.Updater.CheckDetectors | app/model_updater/update_models.py:233-252 | the creation phase takes only steps of the protocol, lists the active detectors, and brings each of them up as far as its faults allow, unless in the end a detector is marked or others are active; it goes on to another detector only as long as nothing has changed |
| UpdaterLoop.Updater.RefreshStatus | app/model_updater/update_models.py:261-280 | the status refresh takes only steps of the protocol and records the status of both deployments of every detector that had a row when it started |
| UpdaterLoop.Updater.ManageUpdateModels | app/model_updater/update_models.py:199-280 | any number of turns is a run of the protocol in which every turn goes through its three phases with the effects above, so afterwards no deployment or pod is without a row |
| VersionRules.NumbersIncrease | app/core/edge_inference.py:509-521 | over any run of saves, interrupted saves and cleanups the version numbers are consecutive, so none is used twice |
| VersionRules.KeptKeepsCurrent | app/core/edge_inference.py:681-712 | a cleanup keeps the current version and with it the next number |
| VersionRules.KeepsTheNewest | app/core/edge_inference.py:696-712 | a cleanup leaves as many versions as asked, or all if there are fewer, and those are the newest |
| VersionRules.RecheckAfterSave | app/core/edge_inference.py:524-578 | a check after a save, of the same or of other information, asks for no update exactly if the compared part was written, is the same and is not empty, complete or not |
| VersionRules.CutShortForGood | app/core/edge_inference.py:531-541 | a save of a pipeline alone that stopped after its configuration leaves a version without the predictor's metadata, for which no check asks for an update |
| VersionRules.KeepsAsManyIff | app/core/edge_inference.py:700-704 | a cleanup leaves as many versions as asked, or all if there are fewer, if and only if it was asked to keep any or there is none |
| ModelRepository.ModelDir.CurrentVersion | app/core/edge_inference.py:581-599 | the highest version number, or none |
| ModelRepository.ModelDir.Save | app/core/edge_inference.py:524-545 | a new directory one above the current version, with exactly the files that the save got to; the others stay |
| ModelRepository.ModelDir.ShouldUpdate | app/core/edge_inference.py:553-578 | an update is needed unless the part on disk is non-empty and equal |
| ModelRepository.ModelDir.SortedVersions | app/core/edge_inference.py:696-699 | all version numbers in ascending order |
| ModelRepository.ModelDir.DeleteOld | app/core/edge_inference.py:681-712 | leaves exactly the versions with fewer newer ones than are to be kept |
| HistogramNames.BucketOf | app/metrics/iq_activity.py:74-80 | the bucket that contains the confidence, the last one for 1 |
| HistogramNames.BucketRoundTrip | app/metrics/iq_activity.py:74-96 | the name of a bucket is its two bounds in percent, and the index of the name is the bucket |
| HistogramNames.NameRoundTrip | app/metrics/iq_activity.py:152-163 | a file name, split as the reader splits it, gives back its class and bucket |
| ConfidenceHistogram.Folder.Increment | app/metrics/iq_activity.py:165-177 | exactly the label of this file counts one more |
| ConfidenceHistogram.Folder.Record | app/metrics/iq_activity.py:424-446 | exactly the bucket of the call, and that of its class, count one more |
| ConfidenceHistogram.Folder.Histogram | app/metrics/iq_activity.py:293-337 | the decoded counts are those of all files, per bucket and per class, with malformed names skipped |
| ConfidenceHistogram.RecordAndRead | app/metrics/iq_activity.py:293-337 | the round trip: reading back what any processes recorded counts the calls in every bucket and class, and the buckets add up to the calls |
| ConfidenceHistogram.BucketsAddUp | app/metrics/iq_activity.py:293-337 | the buckets add up to the number of calls |
| ConfidenceHistogram.ClassesAddUp | app/metrics/iq_activity.py:442-446 | in every bucket the classes add up to at most the aggregate, and to all of it if every call had a class |
| TimestampedCaches.TimestampedCache.DelItem | app/core/utils.py:325-328 | value and timestamp go together |
| TimestampedCaches.TimestampedCache.Evict | app/core/utils.py:311-328 | eviction removes the oldest keys with their timestamps and keeps the others |
| TimestampedCaches.TimestampedCache.SetItem | app/core/utils.py:311-323 | the key is cached with its new time, others keep theirs, and a full cache loses its oldest keys |
| TimestampedCaches.TimestampedCache.Suspend | app/core/utils.py:328-340 | fails exactly if the key is not cached or None is cached under it; otherwise the value is set aside; the key is not cached afterwards |
| TimestampedCaches.TimestampedCache.Restore | app/core/utils.py:342-357 | fails exactly if nothing is suspended; otherwise the old value is cached with a new time |
| TimestampedCaches.TimestampedCache.DeleteSuspended | app/core/utils.py:359-369 | fails exactly if nothing is suspended for the key |
| DetectorMetadata.GetDetectorMetadata | app/core/app_state.py:85-99 | a cached value is returned without a fetch, a fetched one is cached, and a failure caches nothing |
| DetectorMetadata.RefreshIfNeeded | app/core/app_state.py:51-81 | a stale value that is not None is replaced by a fetched one, put back with a new time if the fetch failed, and stays suspended exactly if the fetch failed with a KeyError; a stale None is lost without a fetch; no other detector is evicted |
| DetectorMetadata.KeyErrorLosesMetadata | app/core/app_state.py:63-74 | a KeyError of the fetch leaves a stale detector uncached and its value suspended |
| DetectorMetadata.StaleNoneIsLost | app/core/app_state.py:61-61 | a stale None: the refresh fails before its fetch and the detector is not cached |
| LogSeries.CountBySecond | load-testing/parse_load_test_logs.py:119-168 | every second of the window has the number of the requests that happened in it, and of those that failed |
| LogSeries.WindowIs | load-testing/parse_load_test_logs.py:101-107 | the window starts with the first ramp that has a time, or else with the first request, and lasts for the whole seconds until the latest request, at least one |
| LogSeries.TransitionsAre | load-testing/parse_load_test_logs.py:119-125 | every ramp in its order, in effect from the second of its time, or from the first if it has no time or an earlier one |
| LogSeries.ClientsBySecond | load-testing/parse_load_test_logs.py:151-163 | the two-pointer pass gives every second the ramp in effect: the last at or before it, or else the first ramp |
| LogSeries.SumIsWindow | load-testing/parse_load_test_logs.py:119-141 | the requests of all seconds are the request events of the window |
| LoadBuckets.GroupSeconds | load-testing/parse_load_test_logs.py:361-403 | the buckets are the maximal runs of equal load, partition the seconds and add up |
| LoadBuckets.CalculateBuckets | load-testing/parse_load_test_logs.py:346-405 | in addition their requests add up to the request events of the window, and no bucket has more errors than requests |
| LoadBuckets.BucketsOfLog | load-testing/parse_load_test_logs.py:101-107 | a log is refused exactly if it has no request; otherwise its buckets add up to the requests of the window |
| PodMemory.PickActivePods | app/metrics/resource_metrics.py:332-350 | the active pods are exactly the ready ones of which no ready pod of the same model was created later, or as late and is listed before |
| PodMemory.NewestExists | app/metrics/resource_metrics.py:346-349 | a group with a ready pod has an active one |
| PodMemory.AttributeDetectorResources | app/metrics/resource_metrics.py:458-535 | each detector with an active pod has the memory of its active pods slot by slot, loading has the rest, and together they are the memory of all inference pods |
| PodMemory.RamSplits | app/metrics/resource_metrics.py:155-158 | what is reported is that of the inference pods plus that of all others |
| PodMemory.Collect | app/metrics/resource_metrics.py:124-162 | conservation: with the newest ready pods active, detectors, loading and edge endpoint add up to all reported memory, and every active pod has its memory in the slot of its model |
| DonutChart.BuildSlices | app/status_monitor/frontend/src/components/chartUtils.js:72-146 | one slice per detector in order and four others; they add up to the greater of used and accounted plus what is free, which is the total when accounted is at most used and used at most the total |

## Left out

- Appends that are torn into several lines or glued to another line. A line that does not parse, or whose time does not parse, is modelled; that the final read of a file passes over a blank line is not.
- What a queue line contains besides its request id, image and time; JSON and timestamp formats; the text, the truncation and the number limit of failure records.
- The Groundlight SDK, HTTP and the Kubernetes client: their answers are arbitrary choices of the environment. Waits and timeouts are bounds on the number of polls or nothing at all.
- Random ids are numbers that grow; strings that are only compared are numbers, with 0 for the empty string.
- Asynchronous tasks are threads that run in a copied context; that a traced function can raise, which ends its span like a return, is not modelled on its own. The call tree (`WaterfallIsCallTree`) is stated for one thread; for several, siblings are listed by their start as always (`ChildrenOfByStart`), which need not be the order in which they were added.
- `app/profiling/dashboard.py`: the figure and the table, and everything but the order, depth and inherited colours of the spans.
- `app/profiling/data_loader.py`: loading files, percentiles and time series.
- Start-up: resetting the database and creating its tables. Each database method is one atomic step; the API token and the deployment name of a row are left out.
- Saving and re-reading the active configuration file.
- Downloading models and rolling out new versions of an existing deployment; directories in the old model repository format.
- Load-test latencies and percentiles, steady-load ratios, and samples of the processor and the GPU.
- The shares of processor and GPU in the resource metrics, which are percentages with caps; only memory is conserved.
- UpdaterLoop.Updater.ManageUpdateModels: states a finite number of turns of an endless loop, and a crash of the updater only in the protocol.
- EscalationLoop.ReadFromEscalationQueue: states a finite number of turns in which only time passes; what other processes do meanwhile is covered by the protocol.
- QueueProcesses.QueueReader.Next: runs without interference within one resumption; interference within it is covered by the protocol.
- RequestTracing.Traced: runs in one thread, with calls in sequence; what several threads do to one tracer is covered by `TracerThreads`.
- RequestTracing.TraceRequest: the same.
- PodMemory.Collect: the division into slots assumes that pod names and report names do not repeat.
