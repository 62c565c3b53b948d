# logsentry: a verified model of its data structures, channels and run-level limits

logsentry watches a system log, clusters the lines into templates, keeps rate, frequency and
entropy statistics about them, raises alarms, and lets a client trigger a few guarded actions. A
companion synchronises a directory of documents into a graph. This project models the parts of
that code that hold state over time and proves what they promise over whole runs.

| module | models | main results |
|---|---|---|
| `Template`, `TemplateRuns`, `TemplateAnswers` | the template registry with its length index, in-place generalisation and eviction | templates are least general generalisations of their lines; a repeated line founds a new template exactly when it is all literal `<*>`; ids are distinct exactly if founding lines are and the hash separates them |
| `TemplatePersist` | the tables the registry, the histograms and the profiles are stored in | a restart is exact if and only if ids differ and the bound fits, and is then unobservable for ever after; under any bound the first clusters come back; packed keys lose nothing |
| `Rate`, `RateRuns`, `RateTracked` | rate histories over time buckets | a history equals the event log, with the exact condition on jumps, forgetting and lack of space; exactly which templates are tracked after a run |
| `Window` | the sliding window with counts | for ordered events a time filter; in any order a suffix of what was accepted, every push accounted for; exactly which runs leave an entry beyond its time |
| `Stats`, `StatsMeaning`, `Decay`, `Weights`, `Histogram`, `HistogramRuns`, `HistogramSpread`, `Profile` | plain median and MAD, lazily decayed count histograms and profiles | histogram median and MAD equal those of the raw sample; total weight has a closed form; displaced entries are lightest |
| `Framing`, `FramingLines` | line framing over a chunked byte stream | chunking and abandoned reads are invisible; the round trip holds if and only if every line is sendable; exactly when giving the connection away after a read loses bytes |
| `Notify`, `RingChannel`, `Inbound` | the two bounded channels as interleaved steps | no lost wake-up over all interleavings; every item delivered, queued or dropped by the stated rule; a closed channel hands out all it holds and only then ends |
| `RateLimit`, `RateLimitExact`, `RateLimitEdges`, `Actions`, `ActionEffects` | the sliding-log rate limit and the action executor | for any clock and any evictions, a window can hold more executions than configured if and only if an execution still in it was forgotten; when an announced wait is enough; every effect justified, every admitted request acting exactly once, and each preceded by its filter entry, however requests interleave |
| `Engine`, `Damping`, `EngineRuns`, `Scoring`, `EventScores` | scoring, hysteresis, learning phase, cooldown | at most three reports per cooldown; every suppression reported; damping cannot influence learning (a two-run property); from which part of the past each raw value of a score comes; exactly which runs panic |
| `Sync`, `SyncRuns` | the incremental scan of the source directories | equals a scan from scratch if and only if no unchanged file became unreadable; reports count exactly |
| `Terms`, `TermPoints`, `Graph`, `GraphEdges`, `GraphSources` | candidate pairs and the greedy edge builder | the ranking is unique whatever order a hash map is read in; a smaller bound cuts off the end; no request or candidate is forgotten |

Objects the code updates in place are classes here, with one method per operation and a
specification function for the new state; the theorems are about runs of these functions.
Concurrent code is a state machine whose actions are the atomic steps of the code, and theorems
range over all sequences of actions.

Conventions: `f32` and `f64` are real numbers, and the decay `0.5^(n/h)` is `q^n` for a rate `q` in
(0, 1]. Times are natural numbers; saturating operations on 64-bit integers are written out, and so
is the truncation of counts to 32 bits in the rate limit. Hashes are functions without further
assumption except where a theorem names one. Where the code picks one of several equally good
entries of a hash map, the model lets it pick any.

The model follows the code where it does not do what its comments, names or settings suggest:

- `max_templates = 0` does not empty the registry: one cluster stays (`TemplateRuns.RegistryIsBounded`).
- A line of literal `<*>` tokens is not similar to itself and founds a second cluster (`TemplateRuns.WildcardLineFoundsTwice`).
- A jump over more buckets than the history holds leaves the last count as its oldest entry (`RateRuns.LongJumpKeepsAStaleCount`).
- An out-of-order entry can stay in the window past its time (`Window.RunIsFreshUnlessShielded`).
- The rate limit reads the wall clock, before it takes its lock: times can come out of order, and an attempt from the future makes it forget admissions that are recent again afterwards (`RateLimitExact.LimitBreaksExactlyWhen`, `RateLimitExact.JumpBackForgets`).
- The plain reader's connection is handed on after the handshake without what its buffer holds: messages that arrive in one block with the answer are lost (`Framing.HandOverKeepsTheStreamExactlyWhen`).
- The announced waiting time of the rate limit is cut to whole seconds and to 32 bits, and no time is enough if no action is allowed; a client that waits as told can be refused again (`RateLimitEdges.AnnouncedWaitSufficesExactlyWhen`, `RateLimitEdges.AnnouncedWaitFallsShort`).
- Hysteresis holds only the level last reached: a template that was critical can fall below one that was only at warn (`Damping.CriticalForgetsWarn`).
- A file with unchanged size and time is kept although it cannot be read any more (`SyncRuns.SameViewPerKey`).
- With a configured history of zero buckets the engine removes from an empty vector, and panics, at the first event in a later bucket than the first one (`EngineRuns.EnginePanicsExactlyWhen`, `EngineRuns.EmptyHistoryPanics`).

## Model

| member | source | states |
|---|---|---|
| `Template.TokenSimilarity` | core/src/template.rs:364-384 | the loop computes agreement over concrete positions only, zero without any |
| `TemplateRuns.SimilarityMeaning` | core/src/template.rs:364-384 | similarity lies in 0..1, is positive iff some concrete token agrees, and one iff all do |
| `Template.MergeIntoTemplate` | core/src/template.rs:388-394 | the loop yields the template with `<*>` at exactly the positions that disagree |
| `Template.Best` | core/src/template.rs:305-319 | the chosen cluster has the right length, reaches the threshold, and nothing is more similar or equally similar and earlier |
| `Template.BestIsUnique` | core/src/template.rs:305-319 | that description determines the choice |
| `Template.IndexOfIsExact` | core/src/template.rs:325-346 | the length index lists every cluster once, in increasing order, under its length |
| `Template.TemplateEngine.FindBestCluster` | core/src/template.rs:305-319 | looking only at the indexed clusters finds what a scan of all clusters finds |
| `Template.TemplateEngine.EvictLeastRecentlySeen` | core/src/template.rs:325-346 | the earliest of the clusters seen longest ago goes, and index and clusters stay consistent |
| `Template.TemplateEngine.JoinCluster` | core/src/template.rs:255-266 | a known line generalises its cluster, counts and moves its last time; the answer shows the new template |
| `Template.TemplateEngine.FoundCluster` | core/src/template.rs:268-301 | an unknown line gets a cluster of its own, after an eviction at the bound |
| `Template.TemplateEngine.Process` | core/src/template.rs:241-301 | one line: new registry, answer and eviction count, for the empty, known and unknown line |
| `Template.TemplateEngine.Restore` | core/src/template.rs:210-236 | records in any order are sorted, cut to the bound and indexed, skipping empty ones |
| `TemplateRuns.GeneralisationIsLeast` | core/src/template.rs:388-394 | a pattern describes all lines of a log iff it describes their generalisation |
| `TemplateRuns.ClustersSummariseTheirLines` | core/src/template.rs:241-301 | in every run each live template is the least general generalisation of its lines, with their count, first and last time |
| `TemplateRuns.LogsPartitionTheRun` | core/src/template.rs:241-301 | every non-empty line of a run belongs to exactly one live or evicted cluster |
| `TemplateRuns.RegistryIsBounded` | core/src/template.rs:268-292 | never more clusters than the bound or one, and never none after a line |
| `TemplateRuns.RepeatedLineIsNewExactlyWhenAllWildcards` | core/src/template.rs:241-301 | a line repeated at once founds a cluster iff the threshold is positive and it is all `<*>` |
| `TemplateRuns.WildcardLineFoundsTwice` | core/src/template.rs:378-384 | a concrete run in which two clusters get one id |
| `TemplateRuns.FounderStillMatches` | core/src/template.rs:241-319 | in every run the line that founded a live cluster matches some cluster iff it has a concrete token or the threshold is zero |
| `TemplateRuns.PatternsAreFoundedOnce` | core/src/template.rs:241-319 | in every run two live clusters share a founding line only if the threshold is positive and the line all `<*>` |
| `TemplateRuns.FoundersDifferWithoutWildcardLines` | core/src/template.rs:241-319 | founding lines are pairwise different with threshold zero, and in every run without all-`<*>` lines |
| `TemplateRuns.JoinIsInjective` | core/src/template.rs:241-301 | the joined text the id is hashed from determines the tokens |
| `TemplateRuns.IdsAreDistinctWhenHashSeparates` | core/src/template.rs:29-58 | in every run live ids are pairwise different iff founding lines are and the hash separates their texts |
| `TemplateAnswers.SimilarityIsAShare` | core/src/template.rs:364-384 | similarity is the share of concrete positions that agree, by counting positions |
| `TemplateAnswers.LineGoesToTheMostSimilar` | core/src/template.rs:241-346 | a line joins the first most similar cluster of its length and changes no other; otherwise it founds one, at the bound in place of the one seen longest ago |
| `TemplateAnswers.JoinsExactlyWhenSimilarEnough` | core/src/template.rs:305-319 | there is a cluster to join iff one of the same length reaches the threshold |
| `TemplateAnswers.AnswerDescribesItsCluster` | core/src/template.rs:241-301 | in every run the answer to a line gives the template, number, first time and newness of the lines it was put with |
| `TemplateAnswers.TextIsTokensWithSpaces` | core/src/template.rs:241-301 | the text of a line is its tokens with single spaces between them |
| `TemplatePersist.BaselineDb.Save` | core/src/baseline/persist.rs:418-454 | the three tables are cleared and refilled, a later entry replacing one with the same key |
| `TemplatePersist.BaselineDb.Load` | core/src/baseline/persist.rs:375-411 | templates come back in key order, histograms under their unpacked keys, profiles as stored; nothing comes back iff all three tables are empty |
| `TemplatePersist.BaselineDb.LoadTemplates` | core/src/baseline/persist.rs:381-389 | the loop yields the records in key order |
| `TemplatePersist.BaselineDb.LoadHistograms` | core/src/baseline/persist.rs:391-400 | the loop unpacks every key |
| `TemplatePersist.HistogramsComeBack` | core/src/baseline/persist.rs:375-454 | each histogram is loaded under its own key, the last one saved under a key, and no other key appears |
| `TemplatePersist.LastRecordIsStored` | core/src/baseline/persist.rs:418-454 | of the records with one id the last one is stored, and nothing else |
| `TemplatePersist.ProfilesComeBack` | core/src/baseline/persist.rs:375-454 | of the profiles saved under one key the last one comes back, and no other key appears |
| `TemplatePersist.SavedSize` | core/src/baseline/persist.rs:418-454 | the table holds one entry per record iff the ids are pairwise different |
| `TemplatePersist.RestartIsExactWhenIdsDiffer` | core/src/template.rs:184-236 | snapshot, save, load and restore give the same clusters in the same order iff ids differ and the bound admits them |
| `TemplatePersist.RestartKeepsTheFirst` | core/src/template.rs:204-236 | with different ids and any bound, a restart keeps the first clusters that have tokens, as many as the bound admits, unchanged and in order |
| `TemplatePersist.RestartIsInvisible` | core/src/template.rs:184-236 | if founding lines differ and the hash separates them, every line after a restart gets the answer it would have got without |
| `TemplatePersist.PackedKeysAreExact` | core/src/baseline/persist.rs:511-529 | packing a histogram key into 17 bytes is a bijection |
| `Rate.RateTracker.RollOverTo` | core/src/analysis/rate.rs:131-157 | all buckets up to the target are closed, histories filled with zeros, idle templates forgotten |
| `Rate.RateTracker.EnsureCapacity` | core/src/analysis/rate.rs:161-173 | at the bound exactly one template goes, and none was inactive for longer |
| `Rate.RateTracker.Record` | core/src/analysis/rate.rs:80-127 | one event: the new tracker, and the sample and count its score is computed from |
| `Rate.PushZerosIsSuffix` | core/src/analysis/rate.rs:140-147 | the bounded pushes keep the last entries of the unbounded history, though fewer zeros than the gap are pushed |
| `RateRuns.HistoriesHaveFullLength` | core/src/analysis/rate.rs:80-157 | in every run a history has min(buckets since the first event, bound) entries |
| `RateRuns.TrackedIsBounded` | core/src/analysis/rate.rs:161-173 | never more templates than the bound |
| `RateTracked.TrackedExactlyWhen` | core/src/analysis/rate.rs:80-173 | in every run a template is tracked iff one of its events was counted within the idle limit and it was not given up since |
| `RateTracked.RecentTemplatesAreTracked` | core/src/analysis/rate.rs:131-157 | without a template given up, the tracked ones are those with a count in the running or the last idle-limit buckets |
| `RateRuns.RollAgrees` | core/src/analysis/rate.rs:131-157 | a template's history stays equal to the log over a bucket change iff the jump fits the history or the bucket was quiet |
| `RateRuns.StepReflectsExactly` | core/src/analysis/rate.rs:80-157 | one event keeps all histories equal to the log iff it keeps each one, with the condition per template |
| `RateRuns.ExactRunsReflectTheLog` | core/src/analysis/rate.rs:80-157 | so do runs of such events |
| `RateRuns.HistoriesReflectTheLog` | core/src/analysis/rate.rs:80-157 | idle limit at least the history length, harmless jumps and space: entry k is the number of events in its bucket, also after forgetting |
| `RateRuns.HarmfulJumpBreaksHistories` | core/src/analysis/rate.rs:135-149 | with a busy template, the histories stay exact iff the jump is harmless |
| `RateRuns.LongJumpKeepsAStaleCount` | core/src/analysis/rate.rs:135-149 | a concrete run whose history shows a count in the wrong bucket |
| `Window.SlidingWindow.Push` | core/src/analysis/window.rs:66-82 | one push: entries, newest time and drop counters, with exact per-template counts and no zero count |
| `Window.SlidingWindow.EvictExpired` | core/src/analysis/window.rs:85-95 | the expired front goes, and only that |
| `Window.SlidingWindow.EvictOverCapacity` | core/src/analysis/window.rs:98-107 | the oldest entries above the bound go and are counted |
| `Window.SlidingWindow.PopFront` | core/src/analysis/window.rs:85-117 | dropping the front entry keeps the counts exact |
| `Window.EveryPushIsAccountedFor` | core/src/analysis/window.rs:66-117 | in any order: entries are the last accepted ones, within the bound, and pushes = held + expired + dropped |
| `Window.OrderedWindowIsAFilter` | core/src/analysis/window.rs:66-117 | for ordered events the entries are the events within the window, or the last of them up to the bound |
| `Window.OrderedWindowByAge` | core/src/analysis/window.rs:66-107 | for ordered events, an event is held iff it is no older than the window at the newest event and among the last that fit |
| `Window.RemovalsHaveReasons` | core/src/analysis/window.rs:66-107 | a push removes the expired front and then fresh entries only above the bound, each counted under its own reason |
| `Window.FreshUnlessShielded` | core/src/analysis/window.rs:85-95 | after a push all entries are within the window iff none was shielded by a fresher one before it |
| `Window.RunIsFreshUnlessShielded` | core/src/analysis/window.rs:66-107 | in every run, all entries are within the window iff none of the last accepted events came after one that still is |
| `Window.LateEntryOutlivesTheWindow` | core/src/analysis/window.rs:85-95 | a family of runs in which an entry outlives its time |
| `Stats.MedianIgnoresOrder` | core/src/analysis/stats.rs:87-113 | median and MAD depend on the elements only |
| `StatsMeaning.MedianIsTheMiddle` | core/src/analysis/stats.rs:87-110 | the median is the mean of the two middle elements of any sorted rearrangement |
| `StatsMeaning.MedianHalvesTheSample` | core/src/analysis/stats.rs:87-110 | at least half of the sample is not above it, at least half not below it |
| `StatsMeaning.DeviationCoversHalf` | core/src/analysis/stats.rs:87-113 | at least half of the sample lies within the MAD of the median, and at least half at that distance or further |
| `Histogram.CountHistogram.Observe` | core/src/baseline/histogram.rs:56-102 | decay, insertion or collection, and pruning of one observation |
| `Histogram.CountHistogram.ApplyDecay` | core/src/baseline/histogram.rs:66-77 | only a newer bucket fades the bins, by one factor |
| `Histogram.CountHistogram.InsertCount` | core/src/baseline/histogram.rs:80-97 | the own bin, a new bin, or at the bound the highest bin takes the unit |
| `Histogram.CountHistogram.PruneNegligible` | core/src/baseline/histogram.rs:100-102 | exactly the negligible bins go |
| `Histogram.CountHistogram.MedianMad` | core/src/baseline/histogram.rs:113-131 | median and deviation are the weighted medians of the bins and of their distances |
| `Histogram.WeightedMedianOf` | core/src/baseline/histogram.rs:154-175 | the loop over the running sum finds the specified median |
| `HistogramRuns.BinsStayShaped` | core/src/baseline/histogram.rs:56-102 | counts are pairwise different, within the bound, none negligible; the clock is the newest bucket |
| `HistogramRuns.InsertedTotal` | core/src/baseline/histogram.rs:80-97 | an insertion adds one unit of weight, also into the collecting bin |
| `HistogramRuns.LowerBinsCountOnlyThemselves` | core/src/baseline/histogram.rs:80-97 | only the highest bin collects foreign counts |
| `HistogramRuns.WeightHasClosedForm` | core/src/baseline/histogram.rs:56-107 | held plus pruned weight is the sum of q^age over all observations; nothing is lost iff nothing is pruned |
| `HistogramRuns.TrustNeedsObservations` | core/src/baseline/histogram.rs:134-136 | weight w needs at least w observations |
| `HistogramRuns.TrustedExactlyWhen` | core/src/baseline/histogram.rs:134-136 | a histogram is trusted iff the aged weight of its observations, less what was pruned, reaches the minimum |
| `HistogramRuns.OnlyNegligibleIsPruned` | core/src/baseline/histogram.rs:99-102 | pruning drops exactly the bins below a thousandth of an observation |
| `HistogramRuns.MedianHalvesTheWeight` | core/src/baseline/histogram.rs:154-175 | for any positive weights at most half lies above the median and at most half plus 1e-9 below |
| `HistogramSpread.DeviationHalvesTheWeight` | core/src/baseline/histogram.rs:113-175 | for any positive weights at most half lies further from the median than the deviation, and at most half plus 1e-9 closer |
| `HistogramRuns.WeightedMedianIsMedian` | core/src/baseline/histogram.rs:154-175 | for whole weights it is the median of the sample written out |
| `HistogramRuns.CompressedEqualsPlain` | core/src/baseline/histogram.rs:56-131 | a sample of one bucket that fits the bins has exactly the median and MAD of the plain functions |
| `Decay.AgedStep` | core/src/baseline/decay.rs:37-39 | decaying lazily at the next observation equals decaying every observation by its age |
| `Profile.UnitProfile.Observe` | core/src/baseline/profile.rs:51-100 | decay, insertion with eviction, and pruning of one observation |
| `Profile.UnitProfile.ApplyDecay` | core/src/baseline/profile.rs:58-66 | only a newer bucket fades the weights, by one factor |
| `Profile.UnitProfile.InsertTemplate` | core/src/baseline/profile.rs:69-76 | a known template gains a unit, a new one gets an entry after making room |
| `Profile.UnitProfile.EvictLightestIfNeeded` | core/src/baseline/profile.rs:83-95 | at the bound the first of the lightest entries goes |
| `Profile.ProfileStaysShaped` | core/src/baseline/profile.rs:51-100 | templates are pairwise different and within the bound |
| `Profile.TemplateWeightHasClosedForm` | core/src/baseline/profile.rs:51-116 | the weight of each template plus its losses is the sum of q^age over its observations |
| `Profile.DisplacedIsLightest` | core/src/baseline/profile.rs:83-95 | what is displaced weighs no more than anything else, and is the only loss |
| `Framing.FrameReader.ReadFrame` | proto/src/framing.rs:121-154 | an abandoned call loses nothing; a finished one returns the first frame of the stream; the buffer stays within the limit |
| `Framing.ReadAll` | proto/src/framing.rs:121-154 | whatever the chunks and abandoned calls, results are the beginning of the frames of the stream, and all of them with enough patience |
| `Framing.ReadFrame` | proto/src/framing.rs:35-85 | the plain reader agrees with the stream if left alone; dropped, it has swallowed the blocks it took |
| `Framing.DroppedReadLosesItsBlocks` | proto/src/framing.rs:87-107 | dropping the plain reader keeps the stream intact iff it had taken no block |
| `Framing.HandOverKeepsTheStreamExactlyWhen` | proto/src/client.rs:265-286 | after a finished plain read, dropping the buffer keeps the rest of the stream iff the frame ends its block |
| `Framing.ReadAndHandOver` | proto/src/client.rs:265-286 | the first frame, and what is left on the connection that is handed on |
| `Framing.FrameWriter.WriteFrame` | proto/src/framing.rs:161-169 | the line and one newline are appended |
| `Framing.WrittenLinesReadBack` | proto/src/framing.rs:121-169 | written lines read back exactly iff each is newline-free, within the limit and valid text |
| `FramingLines.FramesAreAnswers` | proto/src/framing.rs:121-154 | the frames of any stream are the answers to its lines, an unended rest included, up to the first line over the limit |
| `FramingLines.StreamIsLinesAndRest` | proto/src/framing.rs:121-169 | every stream is made up of newline-free lines and a newline-free rest |
| `FramingLines.LinesAreFound` | proto/src/framing.rs:121-169 | lines and rest are taken apart as they were put together |
| `Framing.SendAndReceive` | proto/src/framing.rs:121-169 | end to end, sendable lines arrive exactly, however the bytes are cut into blocks |
| `RingChannel.RingQueue.Push` | core/src/channel.rs:82-91 | a full ring drops its oldest item and counts it |
| `RingChannel.RingQueue.Pop` | core/src/channel.rs:122-127 | the oldest item comes out |
| `RingChannel.NoLostWakeUp` | core/src/channel.rs:42-135 | over all interleavings of send, close, clone, drop, receive and abandoned receive: a receiver that waits while there is something to see has a notification under way |
| `RingChannel.NotificationWakes` | core/src/channel.rs:82-135 | that notification makes the waiting receiver ready |
| `RingChannel.HandlesStayExact` | core/src/channel.rs:33-51 | the handle counter equals the number of living senders |
| `RingChannel.SleepingReceiverMissesNothing` | core/src/channel.rs:108-135 | with all senders at rest, a sleeping receiver faces an empty open ring with a living sender |
| `RingChannel.EveryItemIsAccountedFor` | core/src/channel.rs:82-135 | items sent = received, dropped or queued, in order, within capacity; the ring holds the last ones |
| `RingChannel.BufferedItemsAreDelivered` | core/src/channel.rs:98-131 | from any state with the receiver outside, closed or not, n receives bring back the n oldest items in order and leave the others |
| `RingChannel.ClosedChannelIsDrained` | core/src/channel.rs:98-135 | a closed channel hands out all its items and then ends |
| `RingChannel.ReceiveEndsWithItemOrForGood` | core/src/channel.rs:108-135 | in every run a receive that ends by itself brings back the oldest item, or finds the channel closed and empty |
| `RingChannel.WokenReceiveLooksAgain` | core/src/channel.rs:108-135 | a woken receive takes an item if there is one, ends if the channel is closed, and waits otherwise |
| `RingChannel.AbandonTakesNothing` | core/src/channel.rs:108-135 | an abandoned receive takes nothing and hands its notification on |
| `RingChannel.SentItemArrives` | core/src/channel.rs:82-91 | an item sent is the newest of the ring and wakes a waiting receiver |
| `RingChannel.ClosingIsFinal` | core/src/channel.rs:102-105 | closing closes for good and wakes a waiting receiver |
| `RingChannel.OpenWhileHandlesAreLeft` | core/src/channel.rs:33-51 | unless a handle closes it, the channel is open while a handle is left |
| `RingChannel.CloneAddsAHandle` | core/src/channel.rs:33-40 | a clone is one more idle handle |
| `RingChannel.DroppingTheLastCloses` | core/src/channel.rs:42-49 | a dropped handle is gone; exactly the last one closes the channel and wakes a waiting receiver |
| `Inbound.InboundQueue.Push` | proto/src/client.rs:457-477 | a full queue gives up its first snapshot, else its oldest message |
| `Inbound.NoLostWakeUp` | proto/src/client.rs:415-484 | over all interleavings: a receiver that waits while there is something to see has an announcement under way |
| `Inbound.AnnouncementWakes` | proto/src/client.rs:415-484 | any outstanding announcement wakes it |
| `Inbound.SleepingReceiverMissesNothing` | proto/src/client.rs:415-441 | with nothing outstanding, a sleeping receiver faces an empty open queue |
| `Inbound.EveryMessageIsAccountedFor` | proto/src/client.rs:415-484 | messages are delivered in order, and every loss was the oldest snapshot, or the oldest message of a full queue without one |
| `Inbound.BufferedMessagesAreDelivered` | proto/src/client.rs:415-441 | from any state with the receiver outside, closed or not, n receives bring back the n oldest messages in order and leave the others |
| `Inbound.ClosedQueueIsDrained` | proto/src/client.rs:415-441 | a closed queue hands out all its messages and then ends |
| `Inbound.ReceiveEndsWithMessageOrForGood` | proto/src/client.rs:415-441 | in every run a receive that ends by itself brings back the oldest message, or finds the queue closed and empty |
| `Inbound.WokenReceiveLooksAgain` | proto/src/client.rs:415-441 | a woken receive takes a message if there is one, ends if the queue is closed, and waits otherwise |
| `Inbound.AbandonTakesNothing` | proto/src/client.rs:415-441 | an abandoned receive takes nothing |
| `Inbound.SentMessageArrives` | proto/src/client.rs:457-477 | a message sent is the newest of the queue and wakes a waiting receiver |
| `Inbound.ClosingIsFinal` | proto/src/client.rs:479-484 | closing closes for good and wakes a waiting receiver |
| `Inbound.OpenUntilClosed` | proto/src/client.rs:415-484 | the queue is open until somebody closes it |
| `Inbound.DropCounterIsExactWhen` | proto/src/client.rs:457-477 | over all runs and for every capacity the drop counter equals the messages given up iff there is room for one or nothing was sent; the code builds the queue with capacity 128 only |
| `RateLimit.RateLimiter.CheckRateLimit` | daemon/src/actions.rs:374-410 | one attempt: who is admitted, what is remembered, which key is given up, how long to wait |
| `RateLimit.RateLimiter.EnsureRoom` | daemon/src/actions.rs:387-397 | a key goes only for a new one at the bound, and no key was used less recently |
| `RateLimit.CheckRemembers` | daemon/src/actions.rs:374-410 | the memory of a key stays complete iff it is not given up while it has recent attempts |
| `RateLimit.AttemptsAreBounded` | daemon/src/actions.rs:399-409 | no key holds more attempts than allowed, so the 32-bit count is exact |
| `RateLimit.AdmissionSeesTheLog` | daemon/src/actions.rs:399-409 | an attempt is admitted iff the full log has fewer admissions in the window than allowed |
| `RateLimit.AdmissionsAreSpaced` | daemon/src/actions.rs:374-410 | over a whole run admission j comes a window after admission j minus the limit |
| `RateLimit.SpareKeysNeverForget` | daemon/src/actions.rs:387-397 | giving up a key is harmless while fewer keys than the bound have recent attempts |
| `RateLimit.RateLimitHolds` | daemon/src/actions.rs:374-410 | no span shorter than the window holds more admissions of a key than allowed, across key eviction |
| `RateLimitExact.LimitBreaksExactlyWhen` | daemon/src/actions.rs:374-410 | after any run, with any clock and evictions: further calls of a key can bring more admissions into a window than allowed iff an admission in it was forgotten by an eviction or by a call from its far future |
| `RateLimitExact.LimitHoldsUnlessForgotten` | daemon/src/actions.rs:374-410 | without that, no window holds more admissions of a key than allowed |
| `RateLimitExact.MemoryIsAccounted` | daemon/src/actions.rs:387-409 | in every run, what is tracked in a window is all of the admissions in it iff none was forgotten, and fewer otherwise |
| `RateLimitExact.DecisionSeesTheLogUnlessForgotten` | daemon/src/actions.rs:399-409 | then an attempt is decided by the full log, in whatever order times come |
| `RateLimitExact.OrderedRunsForgetNothing` | daemon/src/actions.rs:374-410 | with a forward clock and evictions of old attempts only, no recent admission is forgotten |
| `RateLimitExact.JumpBackForgets` | daemon/src/actions.rs:399-409 | the concrete run with a clock that jumps back meets the condition, and its last window holds too many admissions |
| `RateLimitEdges.ForgettingBreaksTheLimit` | daemon/src/actions.rs:387-397 | whenever a key with a recent attempt is given up, some continuation admits it more often than allowed within one window |
| `RateLimitEdges.BackwardClockBreaksTheLimit` | daemon/src/actions.rs:399-409 | a concrete run with a clock that jumps back and too many admissions within one window |
| `RateLimitEdges.AnnouncedWaitSufficesExactlyWhen` | daemon/src/actions.rs:399-409 | after a refusal, the client that waits the announced seconds is admitted iff an action is allowed at all and nothing was cut off; after one second more iff an action is allowed and the seconds fit 32 bits |
| `RateLimitEdges.RefusedClientIsLetInExactlyWhen` | daemon/src/actions.rs:374-410 | in every run, a refused client is admitted at a later time iff some attempt that made it wait has left the window by then; with a forward clock the announced wait is enough under the condition above |
| `RateLimitEdges.AnnouncedWaitFallsShort` | daemon/src/actions.rs:401-406 | a concrete run in which the client is refused again |
| `Actions.ActionExecutor.Execute` | daemon/src/actions.rs:117-194 | one request through allow-list, parameter check, rate limit and dispatch: outcome, effects, limits and audit line |
| `Actions.ActionExecutor.DispatchUnitAction` | daemon/src/actions.rs:200-237 | effects and outcome of restarting or stopping a unit |
| `Actions.ActionExecutor.DispatchTerminateProcess` | daemon/src/actions.rs:244-305 | effects and outcome of terminating a process, with the clamped grace period |
| `Actions.ActionExecutor.DispatchBlockIp` | daemon/src/actions.rs:308-334 | effects and outcome of blocking an address, with the clamped duration |
| `Actions.ActionExecutor.DispatchMuteAnomaly` | daemon/src/actions.rs:338-367 | effects and outcome of muting a template |
| `Actions.RateKeysSeparateTargets` | daemon/src/actions.rs:655-698 | two requests share a rate key iff they are of one kind and concern the same target |
| `Actions.EveryEffectIsJustified` | daemon/src/actions.rs:117-367 | every effect of a run comes from an admitted, allow-listed request for that very target, within the clamped bounds; a dry run has none |
| `Actions.OwnTracesAreFiltered` | daemon/src/actions.rs:217-289 | however the effects of requests interleave, each manager call and signal is preceded by the filter entry of its own request, each later kill after its own signal |
| `Actions.InterleavedEffectsAreJustified` | daemon/src/actions.rs:117-367 | however they interleave, each effect is justified by the very request that causes it |
| `ActionEffects.RequestsActExactlyOnce` | daemon/src/actions.rs:117-367 | in every interleaving an admitted request outside a dry run causes the effect it asks for exactly once, with the asked or nearest allowed duration or time, its filter entry and its later kill, and nothing else; any other request causes nothing |
| `ActionEffects.PlayConserves` | daemon/src/actions.rs:117-367 | what a request has caused and what it has left make up what it had to do, however turns fall |
| `ActionEffects.TraceIsInOrder` | daemon/src/actions.rs:117-367 | without interleaving, effects come in the order of the requests |
| `ActionEffects.OutcomesTellWhatHappened` | daemon/src/actions.rs:117-334 | each answer is given for exactly one reason: lists, parameters, rate limit, dry run, and whether the outside world accepted |
| `ActionEffects.RateWindowInMicroseconds` | daemon/src/actions.rs:374-387 | the rate limit uses the configured minutes, number of actions and bound on keys |
| `ActionEffects.DecimalReadsBack` | daemon/src/actions.rs:682-698 | a number in a target text reads back as itself |
| `Actions.OnlyEligibleRequestsCount` | daemon/src/actions.rs:117-194 | requests refused earlier leave the rate limits untouched |
| `Actions.ExecutionsAreLimited` | daemon/src/actions.rs:117-194 | no kind and target is executed more often than configured in any span shorter than the window |
| `Actions.ExecutionsOverrunExactlyWhen` | daemon/src/actions.rs:117-194 | for any clock and evictions, further requests for a target can get through more often than configured within a window iff an execution in it was forgotten |
| `Engine.Normalize` | core/src/analysis/engine.rs:625-630 | a raw value maps into 0..1, one iff it reaches the reference, zero iff it is not positive |
| `Engine.CombineSignals` | core/src/analysis/engine.rs:637-647 | the product over all signals computes the noisy or |
| `Engine.AnalysisEngine.RollEntropyBucket` | core/src/analysis/engine.rs:464-477 | a finished bucket archives the entropy of the old window, or the code panics, exactly when an empty history counts as full |
| `Engine.AnalysisEngine.ComputeBreakdown` | core/src/analysis/engine.rs:485-556 | the score of a learned event from baseline or fallback, window counts and entropy history |
| `Engine.AnalysisEngine.LevelWithHysteresis` | core/src/analysis/engine.rs:560-593 | the new level, and that only it changes |
| `Engine.AnalysisEngine.LearnFrom` | core/src/analysis/engine.rs:386-412 | an event is counted and learned, without touching levels or reports; a template given up is one the rate tracker may give up |
| `Engine.AnalysisEngine.Decide` | core/src/analysis/engine.rs:420-461 | judging an event touches nothing that was learned |
| `Engine.AnalysisEngine.SkipLearningPhase` | core/src/analysis/engine.rs:359-361 | only the skip flag changes |
| `Engine.AnalysisEngine.Process` | core/src/analysis/engine.rs:385-461 | one event: whether the code panics, and otherwise everything learned, the reporting state, the statistics and the report; a template given up is one of the longest inactive, at the bound |
| `Engine.CountsAgree` | core/src/analysis/window.rs:130-137 | the count table gives the number of entries of a template and of different templates |
| `Scoring.NoisyOrIsProbability` | core/src/analysis/engine.rs:632-647 | the combined score lies in 0..1 without clamping |
| `Scoring.NoSignalIsDiluted` | core/src/analysis/engine.rs:632-647 | the score is at least every single weighted signal |
| `Scoring.NoisyOrIsMonotone` | core/src/analysis/engine.rs:632-647 | the score grows with every signal |
| `Scoring.FullScoreExactlyWhen` | core/src/analysis/engine.rs:632-647 | the score is one iff a single signal of full weight is full |
| `Scoring.ZeroScoreExactlyWhen` | core/src/analysis/engine.rs:632-647 | the score is zero iff every weighted signal is |
| `Scoring.FullScoreOfAnEvent` | core/src/analysis/engine.rs:520-556 | an event scores one iff rate, surprisal, or entropy of a template filling the window reaches its own reference at full weight |
| `Scoring.OnlyRisesCount` | core/src/analysis/engine.rs:520-538 | falling rates and the direction of an entropy change do not matter |
| `Scoring.BystandersAreNotBlamed` | core/src/analysis/engine.rs:527-538 | a template absent from the window gets nothing of an entropy alarm |
| `Scoring.SharesAddUp` | core/src/analysis/engine.rs:533-538 | the window counts of all templates add up to the window |
| `Scoring.ScoreInRange` | core/src/analysis/engine.rs:485-556 | all components and the score of every event lie in 0..1 |
| `EventScores.RateComesFrom` | core/src/analysis/engine.rs:485-500 | the rate of every event is the long-term baseline's answer if it has one, whatever the short-term history holds, else the score of the template's tracked history and count |
| `EventScores.SurprisalComesFrom` | core/src/analysis/engine.rs:502-513 | the surprisal is the profile's answer if it has one, else measured by the template's positions in the window, its length and its number of templates |
| `EventScores.EntropyComesFrom` | core/src/analysis/engine.rs:515-519 | the entropy score compares the window with the last configured bucket ends |
| `EventScores.EntropyHistoryIsTheEndOfTheArchive` | core/src/analysis/engine.rs:464-477 | in every run the entropy history is the end of the archive of the window's entropy at all bucket ends |
| `EventScores.ScoreIsMadeOf` | core/src/analysis/engine.rs:485-556 | the components are the raw values in units of their references, the entropy by its size and the template's share; what the score leaves over is the product of what the weighted components leave over |
| `EventScores.SettingsReachTheParts` | core/src/analysis/engine.rs:243-275 | window, tracker, cooldown and learning phase get the configured times and bounds, and engine and tracker share their buckets |
| `Damping.ReportedExactlyWhen` | core/src/analysis/engine.rs:385-461 | an event is reported iff it is anomalous, learning is over, and it is more severe or a cooldown later than the last report |
| `Damping.LastAlarmIsRemembered` | core/src/analysis/engine.rs:445-450 | the stored time and level are those of the latest report |
| `Damping.AlarmsAreSpaced` | core/src/analysis/engine.rs:604-621 | two consecutive reports are a cooldown apart or strictly escalating |
| `Damping.FloodIsBounded` | core/src/analysis/engine.rs:604-621 | at most three reports follow each other faster than the cooldown, for any clock |
| `Damping.SpanHoldsAtMostThree` | core/src/analysis/engine.rs:604-621 | any span shorter than the cooldown holds at most three reports |
| `Damping.SuppressionsAreReported` | core/src/analysis/engine.rs:437-459 | suppressed = sum over all reports + still pending |
| `Damping.EventsAreAccountedFor` | core/src/analysis/engine.rs:385-461 | processed = quiet + reported + suppressed + suppressed while learning |
| `Damping.LearningIsCounted` | core/src/analysis/engine.rs:418-435 | suppressed while learning = anomalous events before learning is over |
| `Damping.LevelWasEntered` | core/src/analysis/engine.rs:560-593 | every level was entered at its full threshold and every score since reached the lowered one |
| `Damping.LevelIsHighestReached` | core/src/analysis/engine.rs:560-593 | for each of the three levels: an event is at least that severe iff its score reaches a threshold of that or a higher level, or the lowered one of the level it had |
| `Damping.LevelStartsNormal` | core/src/analysis/engine.rs:560-593 | a template without an event is at no level and has no report behind it |
| `Damping.LevelGrowsWithScore` | core/src/analysis/engine.rs:560-593 | a higher score never gives a lower level |
| `Damping.CriticalForgetsWarn` | core/src/analysis/engine.rs:583-590 | exactly which scores put a formerly critical template below one formerly at warn |
| `EngineRuns.EngineIsScoringThenDamping` | core/src/analysis/engine.rs:385-461 | a run that does not panic is the run of its scores through the damping alone, and its reports are those of the damping |
| `EngineRuns.EnginePanicsExactlyWhen` | core/src/analysis/engine.rs:464-477 | a run panics iff the configured history has zero buckets and some event comes in a later bucket than the first |
| `EngineRuns.EmptyHistoryPanics` | core/src/analysis/engine.rs:464-477 | two events in different buckets are enough |
| `EngineRuns.DampingNeverAffectsLearning` | core/src/analysis/engine.rs:379-461 | engines differing in learning phase, cooldown or skipping panic on the same runs, and otherwise, if both rate trackers give up the same template with each event, know the same and score and grade every event alike |
| `EngineRuns.WindowSeesEveryEvent` | core/src/analysis/engine.rs:403-404 | what the events teach includes exactly the window of the whole event sequence |
| `EngineRuns.RatesSeeEveryEvent` | core/src/analysis/engine.rs:403-404 | and its rate tracker |
| `EngineRuns.PartsSeeEveryEvent` | core/src/analysis/engine.rs:403-404 | after every run that does not panic, window and rate tracker of the engine are those of all its events |
| `EngineRuns.EngineHistoriesReflectTheLog` | core/src/analysis/engine.rs:385-412 | after every run that does not panic the engine tracks no more templates than the bound, and its rate histories equal the log of its events under the conditions of the tracker |
| `EngineRuns.EntropyHistoryIsBounded` | core/src/analysis/engine.rs:464-477 | after every run that does not panic the entropy history is within its bound, zero included |
| `Sync.Syncer.ScanOnce` | graphsync/src/sync.rs:124-205 | one scan: the known files and the report |
| `Sync.Syncer.Visit` | graphsync/src/sync.rs:149-198 | one usable file: its record and what it counts as |
| `Sync.ScanIsPerKey` | graphsync/src/sync.rs:124-205 | what happens to a path depends on its own record, metadata and content only |
| `Sync.ReportIsExact` | graphsync/src/sync.rs:134-204 | added, changed and removed count exactly the paths that appeared, changed hash or vanished; files = before + added - removed |
| `Sync.DirtyExactlyWhen` | graphsync/src/sync.rs:40-45 | a scan is not dirty iff paths and everything but root, size and time stayed |
| `Sync.SecondScanIsClean` | graphsync/src/sync.rs:122-205 | scanning unchanged sources again changes nothing and is not dirty |
| `Sync.AnalysisIsKept` | graphsync/src/sync.rs:172-198 | model results survive, the time of change moves with the hash, and a changed file is due again |
| `Sync.KnownExactlyWhen` | graphsync/src/sync.rs:138-204 | a path is known after a scan iff a file with that path was found, is not too large, and is readable or unchanged |
| `Sync.NewFileIsRecorded` | graphsync/src/sync.rs:164-198 | a file seen for the first time is recorded as found, changed now, described by its content and not analysed |
| `Sync.KnownFileIsUpdated` | graphsync/src/sync.rs:149-198 | a known file gets place, size and time as found, and hash and extract of its content if that changed |
| `Sync.SkippedAreTheUnusable` | graphsync/src/sync.rs:134-168 | the report counts exactly the unusable files as skipped and passes on what the directory walk noticed |
| `SyncRuns.SameViewPerKey` | graphsync/src/sync.rs:149-168 | per path, incremental and fresh scan agree unless the file is kept without reading |
| `SyncRuns.IncrementalEqualsScratch` | graphsync/src/sync.rs:122-205 | after any history of scans the next equals one from scratch iff no unchanged known file became unreadable |
| `SyncRuns.LastScanDecides` | graphsync/src/sync.rs:122-205 | two histories followed by the same readable sources end in the same knowledge |
| `Terms.TermCandidates` | graphsync/src/graph.rs:154-186 | the list holds every pair once iff its summed score reaches the minimum and is positive, best first |
| `Terms.CollectDocs` | graphsync/src/graph.rs:155-160 | the files of every term in increasing order |
| `Terms.AddPairs` | graphsync/src/graph.rs:170-176 | a term adds its weight once to every pair of its files |
| `Terms.ScorePairs` | graphsync/src/graph.rs:161-177 | every pair has the sum of the weights of its shared rare terms, and no entry without one |
| `Terms.Rank` | graphsync/src/graph.rs:178-185 | filtering and sorting keeps exactly the pairs at or above the minimum |
| `Terms.RankingIsUnique` | graphsync/src/graph.rs:178-185 | only one list meets the description, whatever order hash maps are read in |
| `Terms.SharedIsSymmetric` | graphsync/src/graph.rs:161-177 | the score of a pair does not depend on its direction |
| `TermPoints.ScoreIsPoints` | graphsync/src/graph.rs:161-177 | a pair scores two points for every shared tag and one for every other shared term that two to the allowed number of files have |
| `TermPoints.CandidatesByPoints` | graphsync/src/graph.rs:152-186 | a pair is listed iff its points are some and enough, with those points; more points come first, then smaller file numbers |
| `Graph.EdgeList.Push` | graphsync/src/graph.rs:75-92 | an edge is refused iff it is a loop, the list is full or the pair is joined |
| `Graph.EdgeList.PushLinks` | graphsync/src/graph.rs:94-101 | every resolved link is offered, file by file |
| `Graph.EdgeList.PushModelEdges` | graphsync/src/graph.rs:103-110 | every resolved model edge is offered, file by file |
| `Graph.EdgeList.PushTermEdges` | graphsync/src/graph.rs:113-127 | the loop with its capacity array offers every candidate in turn |
| `Graph.Build` | graphsync/src/graph.rs:65-127 | links, model edges and candidates are offered in this order |
| `GraphEdges.EdgesAreSimple` | graphsync/src/graph.rs:75-92 | one edge per unordered pair, no loop, at most `max_edges` |
| `GraphEdges.StrongestSourcesComeFirst` | graphsync/src/graph.rs:4-11 | links come before model edges, those before term edges |
| `GraphEdges.SmallerBoundCutsTheEnd` | graphsync/src/graph.rs:4-11 | a smaller `max_edges` gives a prefix of the same list |
| `GraphEdges.LinksAreExtracted` | graphsync/src/graph.rs:94-101 | if the list is not full, a pair has an extracted edge iff some link joins it |
| `GraphSources.EveryEdgeHasASource` | graphsync/src/graph.rs:94-127 | every edge stands for a link, a model edge or a candidate of the files it joins, with relation, confidence and origin saying which |
| `GraphSources.ExtractedExactlyForLinks` | graphsync/src/graph.rs:94-101 | if the list is not full, two files have an extracted edge iff one links to the other |
| `GraphSources.InferredExactlyWhenRelated` | graphsync/src/graph.rs:103-110 | if the list is not full, two files have a model edge iff the model relates them and no link does |
| `GraphSources.RequestsComeInOrder` | graphsync/src/graph.rs:94-110 | edges are asked for file by file, in the order of links and model edges |
| `GraphEdges.TermEdgesAreBounded` | graphsync/src/graph.rs:112-127 | no file gets more term edges than allowed |
| `GraphEdges.CandidateIsTakenExactlyWhen` | graphsync/src/graph.rs:112-127 | a candidate becomes an edge iff by its turn its pair is free, both files have room and the list has |
| `GraphEdges.NoCandidateIsForgotten` | graphsync/src/graph.rs:112-127 | in the end every candidate pair is joined, has an exhausted file, or the list is full |
| `GraphEdges.BuildIsDeterministic` | graphsync/src/graph.rs:65-127 | the edges do not depend on the order hash maps are read in |

## Left out

- Floating-point rounding, NaN and infinities: numbers are reals.
- Logarithms, z-scores, Shannon entropy and surprisal: functions the engine is given.
- The long-term baseline store (`core/src/baseline/store.rs`): a function of all events seen so far.
- Masking, tokenising and extraction by regular expressions: token lists, links and terms are inputs.
- Link resolution and communities of the document graph: resolved targets are inputs, node attributes are not modelled.
- The walk over directories (`graphsync/src/scan.rs`): its result, with each path once, is an input of a scan.
- Calls of the language model and its budget: only its stored results are modelled.
- Transactions, schema versions, and the tables for metadata, units and silenced templates; saving and loading are atomic, and stored histograms and profiles are texts.
- Sockets, D-Bus, `nft`, signals and `/proc`: effects of an action, with the outcome as a parameter.
- Rotation of the audit log, and the text of messages.
- The session after the handshake: the bytes left on the connection are known, what the client makes of them is not modelled.
- Memory orderings: steps are sequentially consistent, and the notification primitive follows its documented rules.
- The wrap-around of 64-bit event and drop counters.
- Restoring baselines or skipping the learning phase in the middle of a run: skipping is a parameter of the run.
- The label that tells which source a rate came from (`rate_source`): the value itself is modelled.
- GUI, terminal interface, metrics export, configuration defaults and command line: no property beyond field copying.
- Window.OrderedWindowIsAFilter: for events in order of time only; for any order `Window.EveryPushIsAccountedFor` and `Window.RunIsFreshUnlessShielded` say what holds instead.
- RateLimit.RateLimitHolds: spans between two admissions, for a forward clock and a key to spare; `RateLimitExact.LimitBreaksExactlyWhen` needs neither and is exact, with `RateLimitEdges.ForgettingBreaksTheLimit` and `RateLimitExact.JumpBackForgets` as instances.
- Actions.ExecutionsAreLimited: under the same two conditions; `Actions.ExecutionsOverrunExactlyWhen` needs neither and is exact.
- SyncRuns.IncrementalEqualsScratch: for files whose content is determined by path, size and time, and whose versions with equal hash have equal extracts, because the code detects changes by nothing else.
- Terms.TermCandidates: for files that list no term twice, as extraction produces them; a term listed twice would count twice.
