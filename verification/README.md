# Verification of pebble-bench's measurements

pebble-bench drives a Pebble key-value store and reports what its LSM tree did. This project models
the parts of it whose answers are easy to get subtly wrong, and proves what those answers mean:

- **L0 geometry** (`Keys`, `Sublevels`, `RangeDepth`, `Reconstruct`, `KeyFraction`, `L0Shape`,
  `L0Report`). From the key ranges of L0's tables, sublevels are rebuilt oldest file first with a
  two-candidate binary search; adjacent sublevels are compared with a binary search and a backward scan; a compaction's
  depth is found by sorting lower and upper bounds independently. Each fast form is tied to a short
  declarative one: longest overlap chain, the files touched and their hull, maximum point cover.
- **Concurrent protocols** (`ReadAccum`, `OpLimit`, `SortedStreams`, `StreamTurns`). Each is a step
  relation with a program counter per thread, one step per atomic operation, and its theorems quantify
  over every finite run, hence over every interleaving.
- **Accounting over traces** (`Compaction`, `CompactionFigures`, `CompactionAdapter`, `Stages`,
  `Histogram`, `Stall`). Trackers are classes whose `Valid()` ties the running aggregates to the ghost history of all calls.
  Histograms have a lock each, so workers record between the ticks of one registry tick; a totals line
  then is no snapshot of one instant, but it misses exactly what is open when the registry tick ends.
- **Arithmetic with bounds** (`Populate`, `Sizes`, `KeyPattern`). Incremental against from-scratch
  population, and the size printer against the size parser.

Each part's figures are stated twice: by the functions the code is proved against, and again over its
inputs (sets of files, tables, calls or actions counted and summed, constants written out), with a lemma
that the two agree.

`Numbers`, `Sequences` and `Text` hold the shared vocabulary: sums, counts, comparison sorts (described
as any sorted permutation, unique where the order is strict), decimal numerals. Keys are byte strings
under lexicographic order, shown once to be a total order. Floating point is modelled over the reals.

Where the code and its comments disagree, the code is followed:

- db/overlap.go:12-13 and db/pebble_v2.go:413-415 say the overlap depth *is* the number of sublevels a
  compaction drained. It is at most that (`Sublevels.DepthAtMostSublevels`); three files that only touch
  end to end have depth two in three sublevels (`Sublevels.DepthCanBeLess`); and the two agree exactly
  when one selected file from each occupied sublevel can be picked so that all of them overlap pairwise
  (`Sublevels.DepthIsSublevelsIffColumn`).
- metrics/reporter.go:1266-1267 says each compaction fills one of the two source counters. An L0 drain
  that also reads an intermediate level fills both, and the weighted ratio can then fall below the
  smallest per-compaction ratio (`Compactions.SecondSourceBreaksMinimum`). It stays at or above it for
  every collection of the drains if and only if each drain filled one counter or had no fan-in
  (`Compactions.DrainMinimumIff`). The upper bound survives (`Compactions.DrainsAtMostMax`). Below L0 it
  is the other way round: the lower bound always holds (`Compactions.BelowL0AtLeastMin`), and a compaction
  whose only input is the output level fills neither counter and can put the weighted ratio above the
  largest (`Compactions.MissingSourceBreaksMaximum`, exactly when is `Compactions.BelowL0MaximumIff`).
- Printing a size of 2^63 bytes or more and parsing it back leaves the range of int64, where Go leaves
  the conversion unspecified; below that the round trip always has a result (`Sizes.PrintThenParse`).

## Model
| member | source | states |
|---|---|---|
| Keys.TotalOrder | db/overlap.go:23-24 | the byte-wise order every sort and search relies on is total, antisymmetric and transitive on keys of any length |
| Keys.LtIsLexicographic | db/overlap.go:23-24 | one key sorts before another exactly when, where they first part, it has ended or has the smaller byte |
| RangeDepth.OverlapDepth | db/overlap.go:19-40 | the result is the maximum, over all keys, of the number of original ranges containing the key, bounds inclusive; mismatched or empty inputs give zero; both slices are only permuted |
| RangeDepth.CoverIsOpenedMinusClosed | db/overlap.go:14-18 | coverage of a key needs no pairing: it is the ranges opened by it less the ranges closed before it |
| RangeDepth.SweepFindsDepth | db/overlap.go:26-38 | sweeping only the starts of independently sorted bounds, duplicates included, attains the maximum over all keys |
| Sublevels.SublevelIsLongestChain | db/pebble_v2.go:564-567 | a file's sublevel is the length, less one, of the longest chain of successively older overlapping files ending at it |
| Sublevels.AssignmentIsLeastLayout | db/pebble_v2.go:564-567 | the numbering puts every older overlapping file strictly lower, and is pointwise least among all numberings that do |
| Sublevels.NoLayoutUsesFewer | db/pebble_v2.go:564-567 | the number of sublevels is the longest chain, and any valid layout needs at least as many |
| Sublevels.DepthAtMostSublevels | db/overlap.go:8-13 | for any selection of L0 files, overlap depth is at most the number of sublevels they occupy |
| Sublevels.DepthIsSublevelsIffColumn | db/pebble_v2.go:410-419 | the depth equals the number of sublevels occupied if and only if the selection contains pairwise overlapping files from all of them |
| Sublevels.DepthCanBeLess | db/overlap.go:8-13 | a concrete L0 of three sublevels whose depth is two |
| Sublevels.PairwiseOverlapShares | db/overlap.go:8-13 | ranges that overlap pairwise share a key |
| Reconstruction.OldestFirst | db/pebble_v2.go:573-582 | the files placed are the listed ones; of any two the earlier has the smaller largest sequence number, on ties the smaller smallest one, then the smaller file number |
| Reconstruction.OldestFirstIgnoresListing | db/pebble_v2.go:573-582 | with unique file numbers, the placing order does not depend on the order tables are listed in |
| Reconstruction.FirstAtOrAfter | db/pebble_v2.go:588-590 | the binary search splits a sublevel exactly at the key |
| Reconstruction.Overlaps | db/pebble_v2.go:587-595 | the two-candidate test holds if and only if some file of the sublevel overlaps the range |
| Reconstruction.TwoCandidates | db/pebble_v2.go:585-595 | in a sorted disjoint sublevel, only the file starting at or after a range and the one before it can be the witness |
| Reconstruction.ChooseSublevel | db/pebble_v2.go:607-613 | the downward scan stops one above the highest sublevel with an overlap |
| Reconstruction.ChosenIsSublevel | db/pebble_v2.go:607-613 | the sublevel the scan chooses is the longest-chain sublevel of the file |
| Reconstruction.PutAt | db/pebble_v2.go:614-623 | the file lands in its sublevel, which stays sorted and disjoint; all other sublevels and figures are untouched |
| Reconstruction.Reconstruct | db/pebble_v2.go:584-624 | after all files: sublevels are sorted and strictly disjoint, hold exactly the files of that chain length, with matching counts and sizes, and lo and hi are the exact hull |
| Reconstruction.RebuiltIsStacked | db/pebble_v2.go:641-644 | every file in sublevel s >= 1 overlaps a file in sublevel s-1 |
| Reconstruction.NoSublevelEmpty | db/pebble_v2.go:614-617 | sublevel numbers have no gaps |
| Reconstruction.RebuiltHoldsAll | db/pebble_v2.go:599-624 | together the sublevels hold exactly the multiset of files placed |
| Reconstruction.StatsConserve | db/pebble_v2.go:622-623 | the per-sublevel file counts and sizes add up to those of all files placed |
| KeyFractions.KeyFraction | db/pebble_v2.go:717-733 | the loop computes the base-256 fraction of the first eight bytes, and the quotient of two differences of them |
| KeyFractions.PositionIsEightBytes | db/pebble_v2.go:718-727 | exactly eight bytes count, with the weights of a big-endian fraction, and missing bytes as zero |
| KeyFractions.PositionMonotone | db/pebble_v2.go:714-716 | lexicographic order on keys of any length implies order of their eight-byte positions |
| KeyFractions.FractionInUnit | db/pebble_v2.go:714-733 | ranges inside the hull have fractions between zero and that of the hull, which is zero or one |
| KeyFractions.CoveredAtMostTotal | db/pebble_v2.go:625-630 | the fractions of one sublevel's disjoint files sum to at most that of the whole L0 range |
| L0Shapes.Descend | db/pebble_v2.go:656-682 | binary search, step-back and backward scan visit exactly the files overlapping p: their count, whether one shares p's start, and the hull of p and all of them |
| L0Shapes.HullIsTight | db/pebble_v2.go:670-682 | the widened range contains p and every file touched, and each of its ends belongs to one of them |
| L0Shapes.MeasureShape | db/pebble_v2.go:645-712 | over all files above sublevel 0: mean fanout times files measured is the number of overlapping pairs one sublevel apart, the maxima are attained, aligned starts are the files starting where one below does, and widening is the mean of the per-file factors |
| L0Shapes.MeasuredFigures | db/pebble_v2.go:645-712 | the running totals of the loops are counts and sums over the set of files above sublevel 0 |
| L0Shapes.TouchingIsMet | db/pebble_v2.go:668-682 | the files the scan visits are those whose ranges have a key in common with p |
| L0Shapes.RestingFilesMeasured | db/pebble_v2.go:683-686 | the skip of files touching nothing is never taken on files that rest on the sublevel below |
| L0Shapes.ShapeInRange | db/pebble_v2.go:705-711 | fanout lies between 1 and its maximum, aligned starts in [0, 1], widening between 1 and its maximum when any was measured |
| L0Reports.V2L0Sublevels | db/pebble_v2.go:568-636 | for any listing of tables: of two with a key in common the one with the smaller largest sequence number lies strictly lower, each directly above one it meets; every sublevel's count, size and span are the sums over its tables, and the shape has the figures of the levels; as many sublevels as the longest overlap chain, fewest of any layout; counts and sizes add up to L0's; spans in [0, 1]; shape in range, with everything above sublevel 0 measured |
| L0Reports.ReportedIsNumbering | db/pebble_v2.go:568-636 | the longest-chain numbering holds exactly the tables of each number in each sublevel, with their number, total size and share of the key range |
| L0Reports.CoveredPermutes | db/pebble_v2.go:625-630 | what a sublevel covers does not depend on the order its files are held in |
| L0Reports.ReportedInRange | db/pebble_v2.go:625-636 | figures taken from the longest-chain reconstruction have every span in [0, 1], count all files, and measure exactly those above sublevel 0 |
| L0Reports.ReportedIsMinimal | db/pebble_v2.go:564-567 | the number of sublevels reported is the longest chain, and no layout does with fewer |
| L0Reports.ReportedConserves | db/pebble_v2.go:622-634 | reported file counts and sizes add up to L0's |
| ReadAccums.ExtremesAreMonotone | metrics/read.go:56-67 | in every interleaving the maximum only rises and the minimum only falls |
| ReadAccums.QuiescentIsExact | metrics/read.go:52-80 | once all calls have returned, count, minimum and maximum are those of the durations recorded, and the total is the int64 that differs from their sum by a multiple of 2^64, so the sum itself whenever it fits |
| ReadAccums.LosingMeansAnotherWon | metrics/read.go:58-66 | a failed compare-and-swap implies another call's swap succeeded since the load |
| ReadAccums.LoopsRunAtMostN | metrics/read.go:56-67 | with N records neither retry loop of any call runs more than N times |
| ReadAccums.EveryRunEnds | metrics/read.go:52-68 | no schedule of N records has more than N(4N+2) atomic steps, so every interleaving terminates |
| OpLimits.AnswersBounded | bench/bench.go:232-243 | at most M-1 calls return true, and no worker is told to stop twice |
| OpLimits.OpsBounded | bench/bench.go:87-105 | operations recorded never exceed M+W-1, at any moment of any interleaving |
| OpLimits.DoneMeansWhy | bench/bench.go:232-243 | the context is done exactly when the deadline fired or some worker reached the limit and left |
| OpLimits.AtMostOneMore | bench/write.go:149-154 | once the context is done, each worker records at most the operation it was performing |
| OpLimits.NoLimitNeverStops | bench/bench.go:232-243 | without a positive limit no call says stop, nothing is counted, and only the deadline ends the run |
| OpLimits.OpsAreSuccesses | bench/read.go:43-57 | a worker records each operation that succeeds and no other, and asks to go on once for each |
| OpLimits.StoppedStays | bench/write.go:184-194 | a worker stopped by a failure or otherwise does nothing more |
| OpLimits.LimitIsReached | bench/bench.go:87-105 | when workers stop only because of the limit, at least M operations completed |
| KeyPatterns.ParseKeyPattern | bench/write.go:80-99 | whatever the text, an accepted pattern has at most 65536 streams, and at least one when random batches are mixed in |
| KeyPatterns.StreamsAsked | bench/write.go:85-95 | asking for n streams yields n exactly when 1 <= n <= 65536 and an error otherwise |
| KeyPatterns.NamedPatterns | bench/write.go:83-90 | without a number, sorted and snapsync mean sixteen streams, and random or nothing means none |
| KeyPatterns.UnknownNames | bench/write.go:81-98 | only the four names are accepted, and only snapsync mixes |
| KeyPatterns.SignedAtoi | bench/write.go:91-94 | the count is a signed decimal within 64 bits and nothing else |
| KeyPatterns.SpaceAndCase | bench/write.go:81-82 | white space around the pattern and the case of its letters make no difference |
| SortedStreams.KeyLayout | bench/write.go:112-124 | the first two bytes are r*65536/streams, the next eight the counter modulo 2^64, and what follows is derived from those ten |
| SortedStreams.KeysRise | bench/write.go:112-124 | keys of one stream strictly increase in their index, whatever the hash tail |
| SortedStreams.StreamsApart | bench/write.go:112-124 | every key of a stream sorts below every key of a later stream |
| SortedStreams.OwnedStreams | bench/write.go:137-140 | the loop collects the worker's arithmetic progression of streams |
| SortedStreams.OwnedByResidue | bench/write.go:137-140 | a worker owns exactly the streams of its residue class, each once |
| SortedStreams.OneOwner | bench/write.go:134-140 | every stream has exactly one owner |
| SortedStreams.KeysCompareAsCounters | bench/write.go:112-124 | within a stream, keys compare as their counters do modulo 2^64 |
| SortedStreams.KeysRepeat | bench/write.go:112-124 | two keys are equal if and only if their streams are and their counters agree modulo 2^64 |
| SortedStreams.LogIsOrdered | bench/write.go:168-181 | over every interleaving and any length of run, each stream has one writer, streams never interleave, and the keys of a stream compare as their ordinals modulo 2^64, so they strictly rise until that stream's own counter wraps |
| SortedStreams.NoKeyTwice | bench/write.go:168-181 | over every run, two emissions have one key if and only if they are of one stream and 2^64 apart or a multiple of it, so never while that stream's counter has not wrapped |
| StreamTurns.BatchesRotate | bench/write.go:168-181 | over every interleaving, the k-th sorted batch of a worker adds only keys of its stream number k modulo the streams it owns, each the next of that stream |
| StreamTurns.TurnsAreEven | bench/write.go:168-181 | the sorted batches begun on any two streams of one worker differ by at most one |
| StreamTurns.BatchesAreFull | bench/write.go:156-181 | batches, sorted or random, have batchSize keys each, and random ones occur only under a mixing pattern |
| Compactions.CompactionTracker.SetLevelBytes | metrics/compaction.go:181-191 | the level sizes become those given, negative ones counting as zero, and no bucket changes |
| Compactions.CompactionTracker.Record | metrics/compaction.go:202-274 | the event joins the history of its own kind's bucket only, whose sums, counts and extremes are then those of its whole history; kinds out of range are ignored |
| Compactions.CompactionTracker.Stats | metrics/compaction.go:279-298 | the copy shows the buckets, with a minimum nothing was observed for as zero |
| Compactions.EventAdded | metrics/compaction.go:215-272 | one event keeps a bucket the summary of its events: sums, and least and greatest ratio, share and depth |
| CompactionFigures.TrackerFigures | metrics/compaction.go:202-274 | at any time each bucket's count, byte sums, ratios, shares and depths are those of the calls of its kind, ratios counting for kinds 0 and 1 with source bytes, shares for kinds 0 and 1 with a known output level, depths where positive |
| CompactionFigures.RatiosReported | metrics/reporter.go:910-916 | the weighted ratio is all fan-in bytes over all source bytes, and the mean the sum of the ratios over the number of calls |
| Compactions.BucketsConserve | metrics/compaction.go:214-219 | over any trace, counts and every sort of bytes are conserved across the buckets |
| Compactions.RatiosInRange | metrics/reporter.go:910-916 | with one non-empty source per compaction, the weighted and the mean fan-in ratio lie between the smallest and the largest observed |
| Compactions.DrainsAtMostMax | metrics/reporter.go:906-916 | for L0 drains the weighted ratio never exceeds the largest observed, whatever else they read |
| Compactions.SecondSourceBreaksMinimum | metrics/reporter.go:1264-1273 | a drain with a second source can put the weighted ratio below the smallest observed |
| Compactions.DrainMinimumIff | metrics/reporter.go:906-916 | for any set of L0 drains, every non-empty bucket built from them keeps the weighted ratio at or above the smallest observed if and only if each drain filled one source counter or had no fan-in |
| Compactions.BelowL0AtLeastMin | metrics/reporter.go:1264-1273 | below L0 the weighted ratio is never under the smallest observed |
| Compactions.BelowL0MaximumIff | metrics/reporter.go:1264-1273 | for any set of compactions below L0, every bucket built from them keeps the weighted ratio at or under the largest observed if and only if each with fan-in also has a source, or none has a source |
| Compactions.MissingSourceBreaksMaximum | metrics/compaction.go:234-254 | a compaction below L0 with no source level can put the weighted ratio above the largest observed |
| CompactionAdapters.RecordCompaction | db/pebble_v2.go:396-446 | exactly one event is recorded: a move if and only if the reason ends in move, else intra-L0 if and only if the output level is 0, else a drain if and only if some L0 input table has bytes, else Lbase+; with the input bytes summed over the tables of L0, of the output level and of the rest, the destination's size, and the most L0 tables having one key; no tracker, no effect |
| CompactionAdapters.SumParts | db/pebble_v1.go:363-389 | each input level plays one part: L0, fan-in or start level |
| CompactionAdapters.DescribedAccounts | db/pebble_v2.go:403-446 | the classification, byte sums and depth, each told over the compaction's own tables, are those of the recorded event |
| CompactionAdapters.PartIsTotal | db/pebble_v2.go:403-425 | the bytes of L0, of the output level and of the rest are sums over the tables of exactly those input levels |
| CompactionAdapters.DescribedEvent | db/pebble_v2.go:403-446 | the parts add up to the input; drains read L0, Lbase+ compactions never did, intra-L0 ones have no fan-in |
| CompactionAdapters.RecordedDepth | db/pebble_v2.go:410-419 | the depth recorded is at most the number of sublevels the L0 input occupies, and equals it exactly on a column; no other depth fits the recorded ranges |
| Stages.BuildStageBreakdown | metrics/stages.go:51-73 | the rows are the bytes of the levels above, at and below the base level, for any base level, and the total is everything written, all modulo 2^64 |
| Stages.RowsPartition | metrics/stages.go:58-70 | every level below L0 falls in exactly one row, base level negative or out of range included |
| Stages.Metrics | db/pebble_v2.go:492-541 | the adapter's total is every level's bytes plus the WAL's, and the base level is the shallowest level below L0 holding tables |
| Stages.StagesOfMetrics | metrics/stages.go:51-73 | for any base level, every row, the total and the residual written out level by level, modulo 2^64 |
| Stages.MetricsOfLevels | db/pebble_v2.go:492-541 | each level's flushed and compacted bytes keep their names, and the total adds blob bytes in version 2 only |
| Stages.ResidualIsBlobBytes | db/pebble_v1.go:450-454 | the residual is zero for every v1 snapshot and the blob bytes for every v2 snapshot, modulo 2^64 |
| Histograms.NamedHistogram.Record | metrics/histogram.go:109-113 | an accepted sample joins the open interval, any other is dropped |
| Histograms.NamedHistogram.Tick | metrics/histogram.go:144-163 | the interval is returned and closed; cumulative is then everything accepted, and the sum of all intervals returned |
| Histograms.HistogramRegistry.Get | metrics/histogram.go:65-75 | names stay duplicate-free and equal to the map's keys; one histogram per name, all from one start time |
| Histograms.HistogramRegistry.Tick | metrics/histogram.go:79-87 | whatever samples arrive between its ticks, each operation is ticked once, in registration order; its interval is exactly what it accepted since its last tick, and what arrives later opens the next |
| Histograms.AfterTicking | metrics/histogram.go:79-87 | stepping through arrivals and ticks leaves each histogram with its interval split at its own tick |
| Histograms.TickConserves | metrics/histogram.go:144-163 | for each operation, what the tick shows and what is then open make up everything accepted |
| Histograms.TickAndMerge | bench/bench.go:120-126 | with workers recording throughout, the merged line holds all that was closed before and its own interval, and with what is still open that is everything accepted |
| Histograms.Session | bench/bench.go:114-143 | over any sequence of fetches, samples and merged lines: each line is the sum of the intervals shown so far, and those and the open ones are exactly the samples sent to each operation |
| Histograms.QuietTickAndMerge | bench/bench.go:168-169 | with no worker left, the merged line is everything accepted, and of the interval everything still open |
| Histograms.RunBenchmark | bench/bench.go:114-169 | over every interleaving of a whole run, the final line holds each admitted sample once, and equals the sum of all intervals shown |
| Histograms.MergedCounts | metrics/histogram.go:91-106 | the merged count is the sum of the operations' counts |
| Stalls.WriteStallTracker.Begin | metrics/stall.go:71-76 | a stall in progress is replaced |
| Stalls.WriteStallTracker.End | metrics/stall.go:79-101 | the stall in progress joins the history, in total and under its reason; an unmatched call changes nothing |
| Stalls.StatsThenRecord | metrics/stall.go:103-116 | whatever calls follow, figures handed out earlier never change |
| Stalls.TrackerFigures | metrics/stall.go:79-101 | at any time count, total, maximum and each reason's count and time are those of the stalls recorded |
| Stalls.LongestIsLongest | metrics/stall.go:91-93 | the maximum is the longest stall recorded |
| Stalls.ReasonsSumToTotals | metrics/stall.go:94-100 | per-reason counts and times sum to the count and total time |
| Stalls.Reasons | metrics/stall.go:39-54 | exactly the map's keys, each once; of any two the one with the longer total time first, and on equal times the one with the lesser name |
| Stalls.ListingIsUnique | metrics/stall.go:39-54 | the order reported does not depend on the map's iteration order |
| Populates.Populate | datagen/populate.go:25-125 | exactly the indices from the existing count up to the reported total are written, in order, or nothing when the target is met |
| Populates.StopsWithinOneBatch | datagen/populate.go:122-124 | the target is met, overshot by less than one batch |
| Populates.FewestBatches | datagen/populate.go:71-125 | the total is the least number of whole batches past the start that meets the target |
| Populates.StopOnTheWay | datagen/populate.go:40-53 | stopping at a smaller target on the way does not change where population ends |
| Populates.ExtendedMatchesScratch | datagen/populate.go:24-25 | extending a dataset ends with the same total and the same contiguous index set as building it in one run |
| Sizes.IntToStr | metrics/collector.go:285-295 | the loop prints the decimal numeral; a negative number prints as nothing |
| Sizes.PrintedNumeral | metrics/collector.go:270-309 | what is printed is the whole units and, below 100, two truncated zero-padded decimals |
| Sizes.PrintedUnits | metrics/collector.go:248-264 | units of 1024, 1048576 and 1073741824 bytes, the largest not above the size |
| Sizes.ParsedUnit | cmd/init.go:118-155 | digits and one of the units, or none, parse to that many bytes when below 2^63 |
| Sizes.ParsedSign | cmd/init.go:118-152 | one sign may precede the digits; no text at all is no bytes |
| Sizes.CutTowardsZero | cmd/init.go:154 | fractions of a byte are dropped on either side of zero |
| Sizes.SpaceAndCase | cmd/init.go:123-124 | white space around a size and the case of its unit make no difference |
| Sizes.ParseOfFormat | cmd/init.go:118-155 | parsing a printed size finds its unit and numeral again |
| Sizes.PrintThenParse | cmd/init.go:118-155 | the value read back is at most b, less than b/100 + 1 below it, exact under 1024, and exists exactly when b < 2^63 |

## Left out
- Pebble itself: its SSTables listing, events and metrics are inputs; an unreadable listing is an empty one.
- HdrHistogram's bucketing: a histogram is the multiset of samples its range admits, the admission test being a parameter.
- SHA-256 and math/rand: the key tail is an arbitrary function of the ten leading bytes, and random values do not appear.
- IEEE rounding: fractions, ratios and printed sizes are real arithmetic.
- recordV1Compaction and recordV2Compaction, and the byte sums of the two Metrics methods, have one model each, as their bodies match but for blob files.
- Clock readings are parameters, and durations are their differences.
- RangeDepth.OverlapDepth: assumes start <= end for every range, as every table has; the sweep has no stated meaning otherwise.
- Reconstruction.Reconstruct: assumes smallest <= largest for every table and non-nil keys, and sizes are unbounded where the code adds int64.
- Compactions.CompactionTracker.Record: byte counters are unbounded where the code adds uint64, so wrap-around past 2^64 bytes is not modelled.
- ReadAccums.QuiescentIsExact: one accumulator is modelled where ReadTracker keeps three independent ones and ignores unknown operations; snapshots taken while recorders are active are not described.
- Histograms.HistogramRegistry.Tick: its calls are sequential, as the registry's lock makes them, and each Record, Get and per-operation tick is atomic under its own lock; the samples recorded in between are its parameter.
- Populates.Populate: assumes positive batch and entry sizes, without which the loop never ends, and unbounded byte totals; batch and commit errors, rates and the printed summary are not modelled.
- Sizes.ParseSize: accepts plain decimals with an optional sign; exponents, hexadecimal, infinities, NaN and underscores, which strconv.ParseFloat also accepts, are rejected here, and only ASCII and Latin-1 white space is trimmed.
- AvgSublevels, AvgPctOfOutput, PerByte, WriteAmp and the per-second rates: single quotients with a zero guard.
- waitForSettle, CLI wiring, YAML loading, option building, VFS wrappers, reports and charts: plumbing around the parts modelled.
