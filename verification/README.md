# Ruptura: a verified model of its decision engines

Ruptura watches workloads and decides when something is wrong. Around its I/O sit small
deterministic engines, and this project models them in Dafny and proves what they keep over
whole runs: that a fast form computes what its slow definition says, that a protocol excludes
two owners, that bounds hold for every history.

| file | what it models |
|---|---|
| `OrderStats.dfy`, `Ring.dfy`, `RunningMedian.dfy`, `MadDetector.dfy` | the two-heap median over a ring window and the MAD anomaly test |
| `Lease.dfy` | operators racing for one versioned Lease |
| `Propagation.dfy` | pressure over an acyclic graph of object groups, and blast radius |
| `Lex.dfy`, `Sorting.dfy`, `CallGraph.dfy`, `CallGraphBuild.dfy` | building the call graph and searching it for callers |
| `Sse.dfy` | the server-sent event printer and the chunked reader |
| `TimeKeys.dfy`, `Retention.dfy`, `Rollups.dfy` | time-ordered keys, range scans, crash-atomic downsampling and what it loses |
| `Saturation.dfy`, `SaturationTrends.dfy`, `Condition.dfy` | memory forecast and what makes a trend, throttling hysteresis |
| `Divergence.dfy`, `DivergenceRuns.dfy`, `DivergenceReadings.dfy` | replica divergence, over whole runs of readings and calls |
| `Tracker.dfy`, `TrackRecord.dfy` | failure record and its summary |
| `Moments.dfy`, `Correlator.dfy`, `Fingerprint.dfy` | running sums, burst correlation and its confidence, cosine matching |
| `Baseline.dfy`, `CounterRates.dfy` | the Welford baseline and its score, counter rates from a pruned history |
| `AlertThrottle.dfy`, `IngestLimiter.dfy`, `SafetyLimiter.dfy` | the alert throttle, the ingest token bucket, the hourly Tier-1 limiter |

Conventions. Floating-point numbers are `real`; times and durations are unbounded `int`
nanoseconds. Code that updates fields is a class with those fields and a ghost log of what it
was given; `Valid()` ties the fields to a function of that log, and lemmas about the function
state what holds over every run. Iteration over a Go map picks keys in any order. The clock,
the `hosts` pattern of the call graph, the JSON decoder of the event reader and the square
root are parameters; a root is any function whose square is its non-negative argument.

The Lease server follows "Concurrency Control and Consistency" in the Kubernetes API
conventions: an update must carry the stored version, and a conflict leaves the object as it is.

Where the code and its promise part, both sides are proved:

- The blast sets miss a source below the threshold whose amplified pressure reaches it
  (`Propagation.WeakSourceMissed`); they are complete exactly when no edge amplifies.
- A compaction pass overwrites the rollup of a bucket that was split by a cutoff or written to
  late, and the values averaged before are lost (`Rollups.SplitBucketForgets`,
  `Rollups.LateForgets`). Which cutoffs split is exact per tier (`Rollups.RawCutoff`,
  `Rollups.HourCutoff`), and so is when a rollup is the mean of its bucket
  (`Rollups.ExactRollup`).
- The Tier-1 limiter can allow `2 max - 1` actions within an hour, not `max`
  (`SafetyLimiter.BoundReached`, `SafetyLimiter.PromiseKept`).
- An ingest rate below one request a second is accepted and blocks everything
  (`IngestLimiter.ServesAnything`).
- Keys of negative times do not sort by time (`TimeKeys.KeyOrder`).
- Operators of different identities exclude each other exactly when every process has a non-empty
  identity of its own (`Lease.ExclusionExactly`, `Lease.TwoOperators`). An identity is the namespace of the pod, so
  the two pods of a rolling update share one (`Lease.SharedNameBreaks`). Stored renewal times
  are cut to the microsecond (`Lease.StoredTimesMayTouch`).
- A MAD multiplier below 1/1.4826 can flag most of a window (`MadDetector.MostFlagged`).

## Model

| member | source | states |
|---|---|---|
| `OrderStats.SortIsSorted` | workdir/internal/failuremodes/band.go:19 | Sorting leaves an ascending arrangement of the same multiset. |
| `OrderStats.AscendingUnique` | workdir/internal/failuremodes/band.go:19 | A multiset has only one ascending arrangement, so every median below is independent of how sorting works. |
| `RunningMedian.RootFirst` | workdir/internal/pipeline/metrics/anomaly_mad.go:44-61 | In a heap no element comes before the root, so the root is the largest of the lower half or the smallest of the upper half. |
| `RunningMedian.Heap.Up` | workdir/internal/pipeline/metrics/anomaly_mad.go:22-29 | Sift-up turns a heap with one misplaced element into a heap of the same multiset. |
| `RunningMedian.Heap.Down` | workdir/internal/pipeline/metrics/anomaly_mad.go:26-29 | Sift-down restores the heap below the root within the first n elements and touches nothing after them. |
| `RunningMedian.Heap.Push` | workdir/internal/pipeline/metrics/anomaly_mad.go:46-60 | A push keeps the heap and adds exactly the pushed value to the multiset. |
| `RunningMedian.Heap.Pop` | workdir/internal/pipeline/metrics/anomaly_mad.go:46-60 | A pop returns the root, removes exactly that value and keeps the heap. |
| `RunningMedian.Estimator.Push` | workdir/internal/pipeline/metrics/anomaly_mad.go:18-31 | After every push both halves are heaps, the lower half lies at or below the upper, sizes differ by 0 or 1, and together they are the multiset of everything pushed. |
| `RunningMedian.MedianOfHalves` | workdir/internal/pipeline/metrics/anomaly_mad.go:33-41 | For any two halves with those properties, the value read from the roots is the median of the sorted sample. |
| `RunningMedian.Estimator.CurrentMedian` | workdir/internal/pipeline/metrics/anomaly_mad.go:33-41 | The streaming median equals the sorted median of all pushed values, and 0 when there are none. |
| `Rings.ReadSlot` | workdir/internal/pipeline/metrics/anomaly_mad.go:105-107 | The slot the reader computes, wrap-around included, is the slot the writer used for that entry. |
| `Rings.PushHolds` | workdir/internal/pipeline/metrics/anomaly_mad.go:88-92 | Writing at the position and advancing it keeps exactly the last cap entries, each in its slot. |
| `Rings.Ring.Push` | workdir/internal/pipeline/metrics/anomaly_mad.go:87-93 | An update appends to the log of which the ring holds the last cap entries. |
| `Rings.Ring.At` | workdir/internal/pipeline/metrics/anomaly_mad.go:105-107 | Reading index i through the wrap-around gives the i-th of the last min(n, cap) values, oldest first. |
| `Rings.SlotIsHeld` | workdir/internal/pipeline/metrics/anomaly_mad.go:145-149 | Each of the first n slots holds one of the last n entries, so the slot-order scan sees nothing else. |
| `Rings.HeldIsInSlot` | workdir/internal/pipeline/metrics/anomaly_mad.go:145-149 | Each of the last n entries is in one of the first n slots, so the slot-order scan misses none. |
| `Rings.Ring.Previous` | workdir/internal/correlator/correlator.go:281-287 | The slot two behind the write position holds the value before the last, across the wrap-around; with fewer than two values there is none. |
| `MadDetector.Detector.constructor` | workdir/internal/pipeline/metrics/anomaly_mad.go:75-84 | A multiplier that is not positive becomes 3. |
| `MadDetector.Detector.Update` | workdir/internal/pipeline/metrics/anomaly_mad.go:87-93 | An update adds one value to the log behind the window. |
| `MadDetector.Detector.WindowMedian` | workdir/internal/pipeline/metrics/anomaly_mad.go:103-109 | The heap-based median of the window is its sorted median. |
| `MadDetector.Detector.WindowDeviation` | workdir/internal/pipeline/metrics/anomaly_mad.go:111-116 | The heap-based median of the distances is their sorted median. |
| `MadDetector.Detector.FloorFor` | workdir/internal/pipeline/metrics/anomaly_mad.go:143-154 | The slot-order scan chooses the bounded floor exactly when the value and the whole window lie in [0, 1]. |
| `MadDetector.Detector.Weigh` | workdir/internal/pipeline/metrics/anomaly_mad.go:118-127 | The scaled test and the floor give the verdict, with the early returns for a tiny spread and a small score. |
| `MadDetector.Detector.IsAnomaly` | workdir/internal/pipeline/metrics/anomaly_mad.go:98-128 | The verdict, the expected value and the score are those of the sorting definition on the last min(n, cap) updates. |
| `MadDetector.BoundedAnomaly` | workdir/internal/pipeline/metrics/anomaly_mad.go:118-152 | With ten values or more and some spread, and all in [0, 1], a value is an anomaly exactly when it is farther from the median than k times 1.4826 MADs and at least 0.02 away. |
| `MadDetector.UnboundedAnomaly` | workdir/internal/pipeline/metrics/anomaly_mad.go:118-154 | When the value or some of the window lies outside [0, 1], exactly when it is that far and at least a fifth of the median away. |
| `MadDetector.NearMedianIsQuiet` | workdir/internal/pipeline/metrics/anomaly_mad.go:139-142 | So, unless all is in [0, 1], nothing strictly within a fifth of the median is ever an anomaly. |
| `MadDetector.QuietAndScore` | workdir/internal/pipeline/metrics/anomaly_mad.go:98-127 | With fewer than ten values or next to no spread nothing is an anomaly; otherwise the expected value is the median and the score the distance in scaled MADs. |
| `OrderStats.MedianHalves` | workdir/internal/pipeline/metrics/anomaly_mad.go:33-41 | At most half of a sample is below its median and at least half not above. |
| `OrderStats.MedianOfMirror` | workdir/internal/pipeline/metrics/anomaly_mad.go:33-41 | Mirroring a sample mirrors its median, so of two middle values neither is preferred. |
| `MadDetector.HalfWithinMad` | workdir/internal/pipeline/metrics/anomaly_mad.go:111-116 | At least half of any window lies within its MAD of its median. |
| `MadDetector.AtMostHalfFlagged` | workdir/internal/pipeline/metrics/anomaly_mad.go:118-127 | When k times 1.4826 is at least 1, as for every k of 1 or more, at most half of a window is flagged against that window. |
| `MadDetector.MostFlagged` | workdir/internal/pipeline/metrics/anomaly_mad.go:118-127 | A smaller k flags eight of eleven values of a concrete window. |
| `MadDetector.FlaggedShare` | workdir/internal/pipeline/metrics/anomaly_mad.go:98-128 | The half bound holds for all windows exactly when k times 1.4826 is at least 1. |
| `Lease.StepKeepsInv` | workdir/operator/ownership.go:38-81 | While processes have names of their own, every step of every claim, clock tick, other write, lost request or deletion keeps the protocol invariant. |
| `Lease.RunKeepsInv` | workdir/operator/ownership.go:38-81 | So the invariant holds after any interleaving of any number of such processes, from any lease left in the cluster. |
| `Lease.MutualExclusion` | workdir/operator/ownership.go:38-81 | When no two processes share an identity and none is empty, over every interleaving and between two deletions, an accepted write after one by another operator is stamped strictly after the earlier stored renewal time plus its duration. |
| `Lease.StoredTimes` | workdir/operator/ownership.go:56-60 | The stored renewal time of a takeover is never before the end of the earlier hold. |
| `Lease.OneHolder` | workdir/operator/ownership.go:8-11 | Where exclusion holds, no instant lies in the holds of two different operators. |
| `Lease.HoldsIffAccepted` | workdir/operator/ownership.go:60-69 | A step answers "holds" exactly when its write was accepted and it hears of that; then the log ends with its write, which is stored. |
| `Lease.LostRace` | workdir/operator/ownership.go:60-69 | A claim whose read is no longer what is stored changes nothing and is answered "another operator", or fails when the lease is gone. |
| `Lease.TurnedAway` | workdir/operator/ownership.go:50-52 | A claim is turned away, and told by whom, exactly by another named operator whose renewal time parses and is not older than its duration, two minutes when it names none. |
| `Lease.RunIsTruthful` | workdir/operator/ownership.go:38-69 | Over every run, whatever the names, whoever was told it holds has its own write in the log, after those of all earlier answers. |
| `Lease.HoldersExclusion` | workdir/operator/ownership.go:8-11 | Of two processes with names of their own that were told they hold, with no deletion in between, the later read the clock strictly after the earlier hold. |
| `Lease.ExclusionExactly` | workdir/operator/ownership.go:38-81 | Among processes with at least two identities, exclusion holds over every run, of the accepted writes and of the operators told that they hold, exactly when each process has an identity of its own and none is empty. |
| `Lease.SharedNameBreaks` | workdir/operator/k8s.go:54-62 | Two processes of one identity, as two pods of a namespace, and a third: a slow claim of the first puts back the hold of the second, and the third takes over inside it. |
| `Lease.TwoOperators` | workdir/operator/ownership.go:50 | Two single-process operators of different identities exclude each other over every run, by what is written and by what they are told, exactly when both identities are non-empty. |
| `Lease.UnnamedExcludesNobody` | workdir/operator/ownership.go:50 | A holder with an empty identity excludes nobody: another operator takes the lease in the same instant. |
| `Lease.DeletionEndsHolds` | workdir/operator/controller.go:107 | Deleting the lease during cleanup ends every hold: another operator takes it at once. |
| `Lease.StoredTimesMayTouch` | workdir/operator/ownership.go:56-60 | Renewal times are stored to the microsecond, so a stored takeover time can equal the end of the earlier hold; it is never before it. |
| `Lease.ApiServer.SendLease` | workdir/operator/ownership.go:45-53 | A write is accepted exactly when what was read, a version or nothing, is still what is stored; then the own hold is stored under a new version, and a refused write changes nothing. |
| `Lease.ClaimInstance` | workdir/operator/ownership.go:38-69 | One claim, with anything happening between its read and its write: turned away by another named, unexpired holder without effect; told it holds, with its hold stored, exactly when the lease is still as read; otherwise answered "another operator" or an error, and nothing is written. |
| `Propagation.LargestContribution` | workdir/internal/collector/infra/propagation.go:89-101 | The edge scan finds the largest contribution into the target, and at least 0. |
| `Propagation.ComputePropPressure` | workdir/internal/collector/infra/propagation.go:78-112 | The pass with its separate effective levels computes the recursive pressure function, which on a well-formed graph solves the documented equation. |
| `Propagation.PressureSolves` | workdir/internal/collector/infra/propagation.go:68-77 | On any well-formed graph the pass solves the documented max/clamp equation at every group. |
| `Propagation.UniqueSolution` | workdir/internal/collector/infra/propagation.go:68-77 | A map solves that equation exactly when it is the result of the pass. |
| `Propagation.PressureIsDocumented` | workdir/internal/collector/infra/propagation.go:66-77 | Written out: each listed group is at the largest, over its edges, of the larger of activation and pressure of the source times the weight times 1 + 0.5 noise of the source, at least 0 and at most 1; the pass computes the only such map. |
| `Propagation.OrderIrrelevant` | workdir/internal/collector/infra/propagation.go:38-53 | Any topological order of the same groups gives the same pressures. |
| `Propagation.CanonicalIsWellFormed` | workdir/internal/collector/infra/propagation.go:26-53 | The fixed order lists every source before its targets, for all nine fixed edges. |
| `Propagation.Superposition` | workdir/internal/collector/infra/propagation.go:78-112 | The pressure of two activations joined by maximum is the maximum of their pressures. |
| `Propagation.PressureIsMaxOfSources` | workdir/internal/collector/infra/propagation.go:114-118 | With non-negative activations, pressure is the pointwise maximum of the single-source runs, and 0 or attained by one of them. |
| `Propagation.NoSelfPressure` | workdir/internal/collector/infra/propagation.go:125-131 | A source alone puts no pressure on itself, so skipping it in the blast set loses nothing. |
| `Propagation.BlastOf` | workdir/internal/collector/infra/propagation.go:125-135 | One source's blast names exactly the other groups its pressure alone brings to the threshold, with their rounded pressures and their count. |
| `Propagation.Round3IsNearest` | workdir/internal/collector/infra/propagation.go:133 | The reported pressure is the nearest multiple of a thousandth. |
| `Propagation.ComputeBlastRadius` | workdir/internal/collector/infra/propagation.go:118-138 | There is an entry exactly for each group at or above the threshold, describing its blast. |
| `Propagation.BlastIsComplete` | workdir/internal/collector/infra/propagation.go:114-138 | When no edge passes on more than its source's level, a listed group is at the threshold exactly when some blast set names it, whatever else is activated. |
| `Propagation.CanonicalBlast` | workdir/internal/collector/infra/propagation.go:26-53 | On the fixed graph with zero noise, a group is at the threshold exactly when some blast set names it. |
| `Propagation.WeakSourceMissed` | workdir/internal/collector/infra/propagation.go:121-124 | With an amplifying edge, a source below the threshold can push its target over it, and no blast set shows it. |
| `Propagation.BlastCompleteness` | workdir/internal/collector/infra/propagation.go:114-138 | The blast sets are complete for every activation, of listed and other groups, exactly when no edge's gain exceeds 1. |
| `Propagation.UnlistedSource` | workdir/internal/collector/infra/propagation.go:78-112 | An activated group outside the order puts no pressure on any listed one. |
| `Lex.Sort` | workdir/internal/callgraph/graph.go:197 | String sorting gives a lexicographically sorted arrangement of the same multiset. |
| `CallGraph.IncomingEdges` | workdir/internal/callgraph/graph.go:185-190 | The incoming index lists x under y exactly when an env edge leads from x to y. |
| `CallGraph.Discover` | workdir/internal/callgraph/graph.go:198-204 | A caller first met while expanding a node is exactly one step further from the target than that node. |
| `CallGraph.Advance` | workdir/internal/callgraph/graph.go:193-205 | Once the callers of a node are found, the next node can be expanded with the search invariant intact. |
| `CallGraph.Complete` | workdir/internal/callgraph/graph.go:193-206 | When the queue is empty the search has found exactly the nodes with a path of env edges to the target. |
| `CallGraph.Callers` | workdir/internal/callgraph/graph.go:184-207 | On any graph, cyclic ones included, it terminates and returns each node other than the target that reaches it, once, in non-decreasing shortest distance. |
| `CallGraphBuild.HostForms` | workdir/internal/callgraph/graph.go:94-105 | How each documented form of host name resolves: short, name.ns, name.ns.svc and longer, and that other domains do not. |
| `CallGraphBuild.SelectsLabels` | workdir/internal/callgraph/graph.go:107-117 | An empty selector selects nothing; any other selects exactly when every pair matches. |
| `CallGraphBuild.Backends` | workdir/internal/callgraph/graph.go:122-130 | A workload is listed under a service key exactly when a service of that key and namespace selects it. |
| `CallGraphBuild.EdgeSet.Add` | workdir/internal/callgraph/graph.go:134-141 | The kept edges are, in order, the first offered under each from, to and source, and no self calls; so the via of the first offer is the one kept. |
| `CallGraphBuild.KeptIsFirst` | workdir/internal/callgraph/graph.go:134-141 | An edge is kept exactly when it is offered, leads to another workload and no edge with its key was offered before. |
| `CallGraphBuild.EdgeSet.AddWorkload` | workdir/internal/callgraph/graph.go:143-155 | A workload offers one edge per variable, host, resolved service and backend, in that order. |
| `CallGraphBuild.AddEntries` | workdir/internal/callgraph/graph.go:157-171 | Entries are kept exactly when a workload backs their service, and each offers an edge per backend. |
| `CallGraphBuild.OfferedIsDeclared` | workdir/internal/callgraph/graph.go:143-171 | An edge is on offer exactly when a declaration says so. |
| `CallGraphBuild.DeclaredMeans` | workdir/internal/callgraph/graph.go:107-171 | A declaration is a variable with a host that names a service, or a route or ingress entry for one, and a workload of the service's namespace that its selector picks. |
| `CallGraphBuild.SortEdges` | workdir/internal/callgraph/graph.go:173-178 | Edges end up ordered by from, then to, as a rearrangement. |
| `CallGraphBuild.SortedRepresents` | workdir/internal/callgraph/graph.go:173-179 | Sorting does not change what the edges represent. |
| `CallGraphBuild.Build` | workdir/internal/callgraph/graph.go:121-180 | The graph holds only declared edges between different ends, one per from, to and source, namely the first declared, with its via; sorted, with every declared key present and the served entries kept in order. |
| `CallGraphBuild.KeyDetermines` | workdir/internal/callgraph/graph.go:135 | Without bars in names, the text key determines from, to and source. |
| `CallGraphBuild.GraphCalls` | workdir/internal/callgraph/graph.go:119-180 | With such names, the graph has an env call from x to y exactly when they differ and some declaration says x calls y. |
| `Sse.DoubleNewline` | workdir/pkg/client/client.go:383-390 | Returns the first position of a blank line, or -1 when there is none. |
| `Sse.SplitLines` | workdir/pkg/client/client.go:392-405 | The index loop yields the lines of a frame, the last with or without a newline. |
| `Sse.AppendFrames` | workdir/pkg/client/client.go:350-356 | The frames of a stream read in two parts are those of the first part, then those of its remainder with the second. |
| `Sse.TruncatedStream` | workdir/pkg/client/client.go:377-379 | A stream cut off anywhere yields a prefix of its frames. |
| `Sse.DecodeFrame` | workdir/pkg/client/client.go:359-375 | A frame delivers its decodable data lines, in order. |
| `Sse.Drain` | workdir/pkg/client/client.go:353-376 | The inner loop delivers every complete frame of the buffer and leaves exactly the remainder. |
| `Sse.ReadStream` | workdir/pkg/client/client.go:341-381 | The delivered events are a function of the concatenated bytes alone, however they were cut into chunks. |
| `Sse.PayloadsArePrintable` | workdir/pkg/client/client.go:360-363 | The reader only ever hands on non-empty payloads without a newline. |
| `Sse.RoundTrip` | workdir/pkg/client/client.go:341-405 | Reading what was printed gives the payloads back exactly when each is non-empty and free of newlines. |
| `Sse.EventWriter.WriteEvent` | workdir/internal/api/handlers_dash.go:83-90 | The output is always the printed form of the payloads written so far. |
| `Sse.PrintAndRead` | workdir/pkg/client/client.go:341-381 | Printed payloads, cut into any chunks, are delivered in order. |
| `TimeKeys.KeyOrder` | workdir/internal/storage/storage.go:235-237 | For two different 64-bit times, the keys sort as the times exactly when the later one is not negative, and they always differ. |
| `TimeKeys.NegativesReversed` | workdir/internal/storage/storage.go:235-237 | Keys of two negative times never sort in time order. |
| `TimeKeys.PadRoundTrip` | workdir/internal/storage/storage.go:332-335 | The padded suffix parses back to the same nanoseconds, negative ones included. |
| `TimeKeys.OrderedKeys` | workdir/internal/storage/storage.go:320-326 | Iteration visits every stored key once, in lexicographic order. |
| `TimeKeys.RangeQuery` | workdir/internal/storage/storage.go:310-346 | Seek and break return exactly the stored keys between the two end keys, in key order, decoded. |
| `TimeKeys.ScanIsRange` | workdir/internal/storage/storage.go:348-394 | On a prefix whose keys all come from non-negative times, the scan returns exactly the points in [from, to], in strictly increasing time. |
| `Retention.HomeOfHome` | workdir/internal/storage/retention.go:160-165 | A point's bucket in a tier is where its key of the tier below rolls up to, so buckets nest. |
| `Retention.MeanOf` | workdir/internal/storage/retention.go:207-216 | The mean loop computes the total over the count. |
| `Retention.PreparedIsSound` | workdir/internal/storage/retention.go:173-179 | The average a transaction is about to write lies between two values put in its bucket. |
| `Retention.StepKeepsInv` | workdir/internal/storage/retention.go:103-205 | Every write, scan, bucket transaction or crash keeps bounds and coverage. |
| `Retention.RunIsSound` | workdir/internal/storage/retention.go:101-205 | Over any interleaving of writes, passes at any cutoffs, repeated transactions and crashes, each stored value lies between the smallest and largest value put in its series and bucket, and every put point has a raw or rollup key covering it. |
| `Retention.Store.PutMetric` | workdir/internal/storage/storage.go:240-244 | A put stores the value at its key and keeps bounds and coverage. |
| `Retention.Store.Group` | workdir/internal/storage/retention.go:112-167 | The read transaction collects exactly the points older than the cutoff, partitioned by rollup key with their values. |
| `Retention.Store.CommitBucket` | workdir/internal/storage/retention.go:181-203 | One transaction writes the exact mean of its sources and deletes them, advancing the pass by one bucket. |
| `Retention.Store.CompactTier` | workdir/internal/storage/retention.go:103-205 | A pass, cut short anywhere by a crash, leaves the store exactly as if the buckets done so far had been replaced by their means. |
| `Retention.Store.Compact` | workdir/internal/storage/retention.go:69-99 | Raw points older than 2 hours, then 5-minute rollups older than 12 hours, are compacted, and bounds and coverage hold. |
| `Retention.CompactedIsPass` | workdir/internal/storage/retention.go:112-203 | A pass that finishes leaves one store whatever the order of its buckets. |
| `Retention.PassIsRun` | workdir/internal/storage/retention.go:112-203 | What a pass leaves, wherever it stops, is a state that scanning and committing one transaction after the other leads to, so what holds over every run holds of it. |
| `Retention.RecentUntouched` | workdir/internal/storage/retention.go:134-136 | No key at or after the cutoff is added, changed or removed. |
| `Retention.ExactMean` | workdir/internal/storage/retention.go:157-200 | A bucket that ends at or below the cutoff rolls up to the exact mean of its stored points, all of which are removed. |
| `Rollups.PassKeepsRollup` | workdir/internal/storage/retention.go:173-192 | Per pass: a stored rollup keeps its value, whatever the source values, exactly when no point older than the cutoff belongs to it. |
| `Rollups.RawCutoff` | workdir/internal/storage/retention.go:71 | A raw pass takes buckets whole, whatever is stored, exactly when its cutoff is a multiple of five minutes. |
| `Rollups.HourCutoff` | workdir/internal/storage/retention.go:72 | Where 5-minute rollups lie on the 5-minute grid, an hour pass takes hours whole exactly when its cutoff is on the hour or less than five minutes before one. |
| `Rollups.ReachableOnGrid` | workdir/internal/storage/retention.go:162 | Every reachable store has its 5-minute rollups on that grid. |
| `Rollups.SplitBucketForgets` | workdir/internal/storage/retention.go:71-72 | In either tier, of two points of one bucket with a cutoff between them, two passes keep only the later value, not their mean. |
| `Rollups.LateForgets` | workdir/internal/receiver/bus.go:25 | In either tier, a point written after the pass that took its bucket replaces the rollup at the next pass, whatever the cutoffs. |
| `Rollups.LastTake` | workdir/internal/storage/retention.go:173-192 | After any writes and finished passes, a stored 5-minute rollup is the mean of what the last pass to take from its bucket took. |
| `Rollups.ExactRollup` | workdir/internal/storage/retention.go:103-205 | Over any run of writes and finished passes of either tier, a 5-minute rollup is the mean of the latest value at every time ever put in its bucket, for all values, exactly when it is stored, the last pass to take from the bucket took every time ever put in it, and nothing was put into it since. |
| `Rollups.ExactWhenPutOnce` | workdir/internal/storage/retention.go:103-205 | When no time of the bucket is put twice, that means: no pass took a proper part of what was stored of the bucket, and nothing was put into it after a pass took it. |
| `Rollups.PutAgain` | workdir/internal/storage/retention.go:103-205 | Without that proviso it does not: a time put, taken, put again and taken again leaves an exact rollup. |
| `Saturation.PairSlopes` | workdir/internal/failuremodes/band.go:10-21 | The nested loops yield the sorted slopes of all pairs with increasing time. |
| `SaturationTrends.SlopesArePairs` | workdir/internal/failuremodes/band.go:10-21 | Those slopes are, as a multiset, the rise per second of every pair of a reading and a later one: any test is passed by as many slopes as pairs. |
| `Saturation.TheilSen` | workdir/internal/failuremodes/saturation.go:152-173 | Returns the median of the sorted slopes and the share of changing pairs that rise. |
| `SaturationTrends.AgreementMeans` | workdir/internal/failuremodes/saturation.go:152-173 | The agreement times the number of changing pairs of readings is the number of rising ones, 0 when nothing changes, and it reaches 0.8 exactly when four fifths of them rise. |
| `Saturation.Average` | workdir/internal/failuremodes/saturation.go:141-147 | The loop computes the mean usage. |
| `SaturationTrends.AverageOfChanged` | workdir/internal/failuremodes/saturation.go:141-147 | Changing one reading moves the mean by its share of the difference. |
| `Saturation.RiseBetween` | workdir/internal/failuremodes/saturation.go:133-147 | The net rise lies between the lowest late less the highest early reading and the highest late less the lowest early one, over the first and last quarters, at least one sample each. |
| `Saturation.LinearRise` | workdir/internal/failuremodes/saturation.go:133-139 | Evenly spaced linear growth rises by one step for every sample beyond an edge. |
| `Saturation.Search` | workdir/internal/failuremodes/saturation.go:118 | The binary search loop follows its recursive form. |
| `Saturation.SearchFindsSplit` | workdir/internal/failuremodes/saturation.go:116-118 | On readings in time order, that search splits the window at the middle time. |
| `Saturation.CheckSustained` | workdir/internal/failuremodes/saturation.go:116-129 | A trend is sustained exactly when both halves hold at least two samples and rise enough. |
| `SaturationTrends.GainsBetween` | workdir/internal/failuremodes/saturation.go:116-139 | A half rises enough when every reading of its last quarter is far enough above every one of its first, and only when some is above some. |
| `SaturationTrends.WhenEstimated` | workdir/internal/failuremodes/saturation.go:89-131 | A window in time order has an estimate exactly when it holds five readings over ten minutes, the median slope is positive, four fifths of the changing pairs rise, and each half of its time holds two readings and gains a fifth of what the slope promises. |
| `Saturation.QuartilesEnclose` | workdir/internal/failuremodes/band.go:23-30 | The quartiles of sorted slopes enclose their median, averaged or not. |
| `Saturation.SlowerIsLater` | workdir/internal/failuremodes/band.go:35-46 | A faster growth rate never fails later, truncation to nanoseconds included. |
| `Saturation.BandBrackets` | workdir/internal/failuremodes/saturation.go:100-107 | Every estimate has early at or before the forecast and, when the late failure is known, the forecast at or before it; confidence is between 0.8 and 1. |
| `Saturation.ForecastIsLast` | workdir/internal/failuremodes/saturation.go:100-107 | The forecast of every estimate is the last whole nanosecond at which usage growing at the median slope has not passed the limit, 0 when it already has; early is that for the third quartile of the slopes and late for the first, or 0 when that is not growth. |
| `Saturation.LinearSustained` | workdir/internal/failuremodes/saturation.go:113-129 | Evenly spaced linear growth of at least four samples is always sustained. |
| `Saturation.LinearForecast` | workdir/internal/failuremodes/saturation.go:89-107 | Evenly spaced, exactly linear growth over at least 5 samples and 10 minutes always gives an estimate with early, forecast and late equal to remaining over slope, and confidence 1. |
| `Saturation.LinearFailure` | workdir/internal/failuremodes/saturation.go:89-107 | For such growth, forecast, early and late are the last nanosecond at which the line through the readings has not passed the limit. |
| `Saturation.TrimmedIsWindow` | workdir/internal/failuremodes/saturation.go:80-87 | Dropping stale and surplus points from the kept window gives the window of the longer history. |
| `Saturation.Detector.CutAt` | workdir/internal/failuremodes/saturation.go:80-86 | The loop and the surplus rule cut exactly the points that are too old or too many. |
| `Saturation.Detector.Record` | workdir/internal/failuremodes/saturation.go:70-87 | The kept points always equal the declarative window: readings with a positive limit since restarts last grew, within the last 120 and 30 minutes. |
| `Saturation.Detector.EstimateFrom` | workdir/internal/failuremodes/saturation.go:89-107 | The estimate is the one defined on the window, with the same early exits. |
| `Saturation.Detector.Observe` | workdir/internal/failuremodes/saturation.go:70-108 | One observation keeps the window in step with the whole history and answers from it, or nothing without a limit. |
| `Condition.Detector.Observe` | workdir/internal/failuremodes/condition.go:45-71 | The field updates follow the step function on the whole trace, and an active condition reports the ratio. |
| `Condition.RememberedStart` | workdir/internal/failuremodes/condition.go:46-62 | The memory holds the start of the longest gap-free run that ends with the last sample. |
| `Condition.ActiveIffRaised` | workdir/internal/failuremodes/condition.go:29-71 | On any trace in time order, the condition is active exactly when a gap-free run at or above the threshold lasted ten minutes and no gap-free run below it lasting five minutes has ended since. |
| `Condition.StaysUp` | workdir/internal/failuremodes/condition.go:29-31 | Once raised, the condition stays up for at least five minutes. |
| `Condition.StaysDown` | workdir/internal/failuremodes/condition.go:29-31 | Once cleared, it stays down for at least ten minutes. |
| `Divergence.MeasureRate` | workdir/internal/failuremodes/release.go:64-80 | The rate of a pod is the upper median of its recent pairwise slopes with their quartiles, and none below five samples. |
| `DivergenceReadings.RateMeans` | workdir/internal/failuremodes/release.go:64-80 | That rate and its quartiles, by their ranks among the slopes of all pairs of samples of the last five minutes; none with fewer than five samples or no two of different times. |
| `DivergenceReadings.KnownMeans` | workdir/internal/failuremodes/release.go:82-96 | A pod is known exactly when it was read under a version, and then by its readings since the version last changed: the first one's time, the last 240 usages, the last capacity. |
| `DivergenceReadings.JudgedMeans` | workdir/internal/failuremodes/divergence.go:28-37 | Over any run, a call judges a pod exactly when at least three pods of its version, itself among them, were first read under it at least six minutes ago and last with a known capacity. |
| `Divergence.ReleaseState.Observe` | workdir/internal/failuremodes/release.go:82-96 | A reading joins the last 240 of its pod; a pod that changed version starts over; no version, no change. The pods stay what all readings and calls so far determine. |
| `Divergence.ReleaseState.MeasureRates` | workdir/internal/failuremodes/divergence.go:40-46 | The rates of a group are those of its rated pods, whatever the map order. |
| `Divergence.ReleaseState.SortedSiblings` | workdir/internal/failuremodes/divergence.go:50-60 | The sorted rates of the other pods do not depend on the map order. |
| `Divergence.ReleaseState.Judge` | workdir/internal/failuremodes/divergence.go:47-79 | One pod is marked, cleared or reported as its verdict among the group's rates says. |
| `Divergence.ReleaseState.Divergence` | workdir/internal/failuremodes/divergence.go:27-86 | A call changes only the marks, each to its pod's verdict, and returns a most urgent report if there is any; the pods stay what all readings and calls so far determine. |
| `Divergence.MinorityOutgrows` | workdir/internal/failuremodes/divergence.go:49-69 | Whatever the rates, at most half of the rated pods exceed three times the median of their siblings. |
| `Divergence.MinorityMarked` | workdir/internal/failuremodes/divergence.go:36-72 | So after one call at most half of the rated pods of a judged version are marked. |
| `Divergence.OutgrowsMeans` | workdir/internal/failuremodes/divergence.go:49-69 | A rated pod outgrows its siblings exactly when at least two are rated, it grows by more than 0.75 MiB a minute, and more than half of them grow less than a third as fast. |
| `DivergenceReadings.StandsOutMeans` | workdir/internal/failuremodes/divergence.go:40-69 | In terms of readings: a pod that can be compared stands out exactly when three of its version are rated, it grows by more than 0.75 MiB a minute, more than half of the others less than a third as fast, and it has room left. |
| `DivergenceRuns.MarkMeans` | workdir/internal/failuremodes/divergence.go:56-73 | Over any run of readings and calls, a pod's mark is the time of the call that began the unbroken stretch of judged calls in which it has stood out ever since, without changing its version. |
| `DivergenceRuns.ReportedIff` | workdir/internal/failuremodes/divergence.go:27-86 | With calls in time order, a pod is reported exactly by a call in which it stands out and would be full within two hours, when that stretch began at least five minutes earlier. |
| `DivergenceRuns.FirstCallIsSilent` | workdir/internal/failuremodes/divergence.go:70-76 | The call that first marks a pod never reports it. |
| `DivergenceRuns.ReportTells` | workdir/internal/failuremodes/divergence.go:73-80 | A report names the last nanosecond before the pod is full at its rate and at the quartiles, the share in use, its version and rate, how many siblings are rated and their upper median. |
| `Divergence.ReportBrackets` | workdir/internal/failuremodes/divergence.go:73-79 | A report lies within the horizon, with early at or before the forecast and a known late one not before it. |
| `Tracker.Tracker.RecordOutcome` | workdir/internal/failuremodes/trackrecord.go:36-53 | A failure closes the pending forecast of its workload and adds its lead, 0 without a forecast; the last 2048 are kept. |
| `Tracker.Tracker.RecordFailure` | workdir/internal/failuremodes/tracker.go:70-80 | A failure joins the last 64 of its workload and the outcomes. |
| `Tracker.Tracker.ObserveRestarts` | workdir/internal/failuremodes/tracker.go:98-106 | Everything kept stays what the whole list of calls determines: one failure per observed growth of a known pod's restart count. |
| `Tracker.Tracker.NoteForecast` | workdir/internal/failuremodes/trackrecord.go:26-34 | Only the first note since the last failure is remembered. |
| `Tracker.Tracker.Sight` | workdir/internal/failuremodes/tracker.go:151-162 | A sighting by condition, event, back-off or termination is remembered for pruning and leaves failures, forecasts and outcomes alone. |
| `Tracker.Tracker.Prune` | workdir/internal/failuremodes/tracker.go:240-248 | A pod is forgotten exactly when no restart count, condition, event or back-off showed it since the cutoff; failures, forecasts and outcomes stay. |
| `Tracker.PruneForgets` | workdir/internal/failuremodes/tracker.go:240-248 | A known pod is forgotten exactly when, since it became known, its last restart count, its last condition and all its events and back-offs are older than the cutoff. |
| `Tracker.WarningIsEarliest` | workdir/internal/failuremodes/trackrecord.go:26-46 | The warning credited to a failure is the earliest forecast noted since the workload's previous failure, and nothing when there is none. |
| `TrackRecord.FailureMeans` | workdir/internal/failuremodes/tracker.go:57-66 | A call is a failure exactly when it counts more restarts of the pod than its last count, unless the pod was forgotten since. |
| `TrackRecord.OutcomesMean` | workdir/internal/failuremodes/trackrecord.go:36-53 | There is one outcome per failure, in order, with its time and how long before it the first forecast since the workload's previous failure was noted, 0 without one. |
| `TrackRecord.FailureTimesMean` | workdir/internal/failuremodes/tracker.go:70-76 | The failure times of a workload are those of its failures, in order. |
| `Tracker.Summarize` | workdir/internal/failuremodes/trackrecord.go:69-91 | The loop counts the failures of the period and those announced at least five minutes ahead, and takes the upper median of the latter's leads. |
| `Tracker.SummaryBounds` | workdir/internal/failuremodes/trackrecord.go:69-91 | Warnings are among the failures, and the median lead is the lead of one of them, of at least five minutes, or 0 without any. |
| `TrackRecord.SummaryMeans` | workdir/internal/failuremodes/trackrecord.go:69-91 | The counts are those of the failures of the period and of those forecast at least five minutes ahead; at most half of the latter's leads are below the median and more than half not above it. |
| `Tracker.NextOutcomes` | workdir/internal/failuremodes/trackrecord.go:36-53 | With each call the kept outcomes are the last 2048 of the full list of outcomes. |
| `Tracker.NextFailures` | workdir/internal/failuremodes/tracker.go:70-76 | With each call the kept failure times are the last 64 of the workload's full list. |
| `Moments.SumsAreSound` | workdir/internal/correlator/correlator.go:296-303 | The running sums of any list of pairs satisfy the sum-of-squares inequalities, for every linear combination of the two values. |
| `Moments.CorrelationInequality` | workdir/internal/correlator/correlator.go:305-308 | Both radicands are non-negative and the squared numerator is at most their product. |
| `Moments.ProductInequality` | workdir/internal/analyzer/fingerprint.go:58-69 | The squared scalar product is at most the product of the squared norms. |
| `Correlator.PearsonTracker.Update` | workdir/internal/correlator/correlator.go:296-303 | The running sums are those of all pairs added. |
| `Correlator.PearsonTracker.Corr` | workdir/internal/correlator/correlator.go:305-313 | The correlation lies in [-1, 1] after any updates, for any square root. |
| `Correlator.LineCorrelates` | workdir/internal/correlator/correlator.go:305-313 | Pairs on a line correlate with 1 or -1, the sign of its slope, and with 0 when it is flat or x hardly varies. |
| `Correlator.ConfidenceInUnit` | workdir/internal/correlator/correlator.go:153-173 | With a correlation in [-1, 1] or none, a drop and a time difference within the window, confidence is in [0, 1]. |
| `Correlator.ConfidenceOrder` | workdir/internal/correlator/correlator.go:153-173 | Confidence falls strictly with the time difference, grows strictly with the drop up to 50 points and not beyond, and grows with the size of the correlation. |
| `Correlator.ConfidenceEnds` | workdir/internal/correlator/correlator.go:153-173 | Time, drop and correlation are worth a third each from their worst to their best value, signs do not matter, and an unknown correlation counts as one half. |
| `Correlator.TrackedIsBounded` | workdir/internal/correlator/correlator.go:165-170 | Whatever trackers exist, the correlations used for confidence are in [-1, 1]. |
| `Correlator.EventsInUnit` | workdir/internal/correlator/correlator.go:138-147 | Every event of a drop has a confidence in [0, 1]. |
| `Correlator.OneEventPerMark` | workdir/internal/correlator/correlator.go:128-150 | Each event marks one pending burst for good, so no burst gives a second event. |
| `Correlator.MatchedMeans` | workdir/internal/correlator/correlator.go:128-150 | A drop marks exactly the bursts that were marked or started within two minutes of it, and changes nothing else of them. |
| `Correlator.SiftedCounts` | workdir/internal/correlator/correlator.go:175-184 | Eviction loses no mark: matched bursts are pending or evicted. |
| `Correlator.Engine.ObserveBurst` | workdir/internal/correlator/correlator.go:107-113 | The burst is added and exactly the bursts older than twice the window are dropped, in order. |
| `Correlator.Engine.Record` | workdir/internal/correlator/correlator.go:90-99 | The last 300 scores of a host are kept. |
| `Correlator.Engine.ObserveHealth` | workdir/internal/correlator/correlator.go:90-126 | A drop of at least ten points from the previous score matches the pending bursts, with the correlations of the engine's own trackers, and every event is in [0, 1]; anything else changes only the history. |
| `Correlator.Engine.MatchPending` | workdir/internal/correlator/correlator.go:128-150 | The loop marks exactly the unmatched bursts within two minutes and produces their events, in order. |
| `Correlator.Engine.Store` | workdir/internal/correlator/correlator.go:33-42 | The ring keeps the last 1000 events. |
| `Fingerprint.CosineSimilarity` | workdir/internal/analyzer/fingerprint.go:58-69 | The loop computes the similarity of the three sums, and it lies in [-1, 1]. |
| `Fingerprint.SimilarityBound` | workdir/internal/analyzer/fingerprint.go:58-69 | Similarity of any two vectors of equal length lies in [-1, 1]. |
| `Fingerprint.SimilarityIsSymmetric` | workdir/internal/analyzer/fingerprint.go:58-69 | It does not depend on the order of the two vectors. |
| `Fingerprint.SelfSimilarity` | workdir/internal/analyzer/fingerprint.go:58-69 | A vector that is not negligible has similarity exactly 1 to itself. |
| `Fingerprint.SimilarityMeans` | workdir/internal/analyzer/fingerprint.go:58-69 | The square of the similarity times both squared norms is the squared scalar product, and the signs agree. |
| `Fingerprint.SimilarityOfScaled` | workdir/internal/analyzer/fingerprint.go:58-69 | Scaling a vector by a positive factor does not change it, as long as the vector is not negligible. |
| `Fingerprint.OrthogonalSimilarity` | workdir/internal/analyzer/fingerprint.go:58-69 | Orthogonal vectors have similarity 0. |
| `Fingerprint.PenaltySimilarity` | workdir/internal/analyzer/fingerprint.go:31-69 | Vectors of penalties, none negative, have no negative similarity. |
| `Fingerprint.Match` | workdir/internal/analyzer/fingerprint.go:105-128 | The match is the first of the workload's most similar fingerprints, and there is none exactly when none reaches 0.85. |
| `Baseline.Shift` | workdir/internal/analyzer/analyzer.go:547-553 | Squared deviations from two centres differ by a term in the sum and the count alone. |
| `Baseline.WelfordStep` | workdir/internal/analyzer/analyzer.go:548-552 | One update turns an exact mean and sum of squared deviations into exact ones of the longer list. |
| `Baseline.StatsMeaning` | workdir/internal/analyzer/analyzer.go:537-553 | After any updates the mean is the arithmetic mean and M2 the sum of squared deviations from it, hence not negative. |
| `Baseline.WorkloadState.AddValue` | workdir/internal/analyzer/analyzer.go:547-553 | One signal's maps follow the update; other signals keep theirs. |
| `Baseline.WorkloadState.UpdateBaseline` | workdir/internal/analyzer/analyzer.go:540-557 | Each listed signal gains exactly its value, whatever the map order; the baseline is ready from 96 updates on. |
| `Baseline.WorkloadState.AdaptiveScore` | workdir/internal/analyzer/analyzer.go:568-585 | The score is that of the whole list of values seen, and the raw value until there are enough. |
| `Baseline.ScoreLaws` | workdir/internal/analyzer/analyzer.go:559-585 | With a baseline the score is in [0, 1], does not fall as the raw value grows, is 0 up to the mean, 1 exactly from three deviations above it, and below 1 within 0.15 of it. |
| `CounterRates.SinceResetMeaning` | workdir/internal/pipeline/metrics/anomaly_engine.go:198-202 | The samples since the last reset are the end of the trace, never fall and start right after a fall. |
| `CounterRates.NewestMeaning` | workdir/internal/pipeline/metrics/anomaly_engine.go:204-211 | The base found is the newest sample of at least the given age, and none is found only when none is old enough. |
| `CounterRates.PrunedAlike` | workdir/internal/pipeline/metrics/anomaly_engine.go:204-209 | What was pruned never changes the newest old sample. |
| `CounterRates.Oldest` | workdir/internal/pipeline/metrics/anomaly_engine.go:204-207 | The loop stops at the last sample that is old enough, or the first. |
| `CounterRates.Counters.Extend` | workdir/internal/pipeline/metrics/anomaly_engine.go:197-215 | Appending, pruning and answering from the pruned history gives the rate of everything since the reset. |
| `CounterRates.Counters.Rate` | workdir/internal/pipeline/metrics/anomaly_engine.go:189-216 | A sample not newer than the last is refused without effect; any other is answered as its whole accepted trace would be. |
| `CounterRates.RateIsNonNegative` | workdir/internal/pipeline/metrics/anomaly_engine.go:211-215 | A rate is never negative. |
| `CounterRates.SteadyRate` | workdir/internal/pipeline/metrics/anomaly_engine.go:197-215 | A counter that grows by r a second is answered r once five minutes are covered, and nothing before. |
| `AlertThrottle.Throttle.Allow` | workdir/internal/pipeline/metrics/anomaly_engine.go:143-153 | An alert is let through exactly when it extends what its key has published. |
| `AlertThrottle.ThreeSpanCooldown` | workdir/internal/pipeline/metrics/anomaly_engine.go:131-153 | Any three consecutive publications of a key span at least five minutes. |
| `AlertThrottle.NothingLost` | workdir/internal/pipeline/metrics/anomaly_engine.go:131-153 | For every alert, one at least as severe was published less than five minutes before it, or it was itself. |
| `IngestLimiter.RateLimiter.constructor` | workdir/internal/ingest/engine.go:130-138 | A positive setting is both rate and capacity; any other gives 1000. |
| `IngestLimiter.RateLimiter.Allow` | workdir/internal/ingest/engine.go:140-152 | Each call is answered as the run of all calls so far says. |
| `IngestLimiter.AfterInRange` | workdir/internal/ingest/engine.go:143-151 | The tokens stay between 0 and the capacity. |
| `IngestLimiter.EverySpanBound` | workdir/internal/ingest/engine.go:140-152 | Over any run with a clock that does not go back, any span of calls gets at most the capacity plus the rate times its length. |
| `IngestLimiter.RefusalIsJustified` | workdir/internal/ingest/engine.go:140-152 | A call is refused only when, with it allowed, some span up to it would get more than the capacity plus the rate times its length. |
| `IngestLimiter.ServesAnything` | workdir/internal/ingest/engine.go:131-151 | A server ever serves a call exactly when its rate is at least one a second; smaller accepted settings block everything. |
| `SafetyLimiter.Limiter.constructor` | workdir/internal/actions/safety/safety.go:23-28 | A limit of 0 becomes 6. |
| `SafetyLimiter.Limiter.Allow` | workdir/internal/actions/safety/safety.go:30-49 | Other tiers always pass; a Tier-1 call is answered as its host's history of calls and resets says. |
| `SafetyLimiter.Limiter.Reset` | workdir/internal/actions/safety/safety.go:51-53 | A reset forgets its host's window and no other. |
| `SafetyLimiter.WithinHour` | workdir/internal/actions/safety/safety.go:40-48 | Calls within an hour open at most one new window. |
| `SafetyLimiter.EveryHourBound` | workdir/internal/actions/safety/safety.go:30-53 | Over any history of calls and resets, the calls of any hour without a reset get at most 2 max - 1 actions. |
| `SafetyLimiter.BoundReached` | workdir/internal/actions/safety/safety.go:40-48 | That many are reached, within a nanosecond. |
| `SafetyLimiter.PromiseKept` | workdir/internal/actions/safety/safety.go:18-48 | No more than the maximum per hour holds for all histories exactly when the maximum is one. |
| `SafetyLimiter.NothingAllowed` | workdir/internal/actions/safety/safety.go:44-48 | A negative limit lets no Tier-1 action through. |

## Left out

- Floating-point rounding, NaN, infinities and overflow of `time.Duration` and `time.Time`.
- Locks: every method is one atomic step. The limiter and the lease read the clock inside that order, as if it never goes back.
- HTTP, gRPC, OTLP, Kafka, NATS, Kubernetes watches, TLS, JSON, Badger's transactions and TTL expiry.
- Cancellation of the event stream by its context, and read errors other than as the end of the stream.
- `Lease.StepKeepsInv`: all processes read one clock that does not go back, and each runs one claim at a time.
- `Lease.ClaimInstance`: a failed read other than "not found" is left to the abandoned claims of the state machine; labels and metadata are not modelled, and neither is the once-per-holder log of skipped instances.
- `Rings.Ring.Previous`: the source answers 0 for no previous value and its caller checks the count first; the correlator itself is modelled on the held scores and events (`Correlator.Engine.Record`, `Correlator.Engine.Store`), not on its slots.
- `MadDetector.Detector.IsAnomaly`: the per-metric map of detectors and its lock are not modelled.
- `CallGraphBuild.SortEdges`: edges with equal from and to keep the order of insertion sort, where `sort.Slice` may choose another; nothing proved depends on it.
- `TimeKeys.RangeQuery`: stored values always decode; the three copies of the scan are one method.
- `Retention.Store.CompactTier`: keys are tier, series and time instead of text, the three families (metrics, KPIs, infra signals) are one, and values and timestamps always decode; expiry is ignored.
- `Rollups.ExactRollup`: passes run to their end, as in `Retention.Store.CompactTier`, and a run is a list of whole operations; an hour's rollup as a mean of means is not stated.
- `Retention.Store.Compact`: one family's two passes, with no write in between; other interleavings are covered by `Retention.RunIsSound`.
- `Condition.Detector.Observe`: the zero time stands for "none" in the source, so a sample stamped with it would be forgotten there.
- `DivergenceRuns.MarkMeans`: the zero time stands for "no mark" in the source, so a call at that time would leave none.
- `Divergence.ReleaseState.Divergence`: the mode and the constant confidence of the estimate; release regression, profiles and pruning of the release state.
- `Tracker.Tracker.ObserveRestarts`: the usage estimate of `Observe` is modelled in `Saturation.dfy`; versions, recorder callbacks and restoring saved failures or outcomes are not modelled.
- `Tracker.Tracker.Prune`: the pruning of release states and pod versions.
- `Tracker.Tracker.Sight`: what a sighting says, the throttling ratio (`Condition.dfy`), the event reason and the OOM flag.
- `Correlator.Engine.ObserveBurst`: the two clock readings of one call are one.
- `Correlator.Engine.ObserveHealth`: only the health score, the one KPI that is matched; event IDs are random and left out.
- `Correlator.PearsonTracker.Corr`: nothing in the source feeds the engine's trackers; the bound holds for any updates.
- `Fingerprint.Match`: recording, debouncing and rounding of the reported similarity.
- `Baseline.WorkloadState.AdaptiveScore`: the rest of the analyzer's update, its states and its texts.
- `AlertThrottle.Throttle.Allow`: severities other than critical are one.
- The other detectors (z-score, seasonal, Holt-Winters, ARIMA), the infrastructure registry, alert rules, narratives, CLI and UI.
