# MemoryLatencyAnalyzer: a verified model

The analyzer measures memory latency on one Linux machine: a producer and a
forked consumer bounce flags in shared memory, chains of pointers are chased
through cached and flushed lines, and the resulting samples are filtered,
averaged and summarized. This project models the logic behind those numbers and
proves what the measurements rely on.

**The cross-process ping-pong** (`PingPong`, `PingPongTheorems`, `PingPongTso`,
`PingPongTsoTheorems`, `PingPongTsoProgress`, `Interference`, `CrossProcessRun`). Two processes
with program counters share the four flags. A schedule is an arbitrary sequence
of choices: either process performs its next load or store, a bounded wait
expires, the consumer cannot pin itself, or reaping fails. Each value in a flag
carries the number of the request it belongs to (a ticket), which the program
itself never sees; so "an answer to an earlier request" can be stated. All
results hold for every schedule, every warmup length and every iteration count.
The `PingPongTso` modules repeat the protocol with a store buffer per process
(x86-TSO, own stores forwarded), prove that every such run is a run of the
sequentially consistent machine, and carry safety, accounting, shutdown and
progress over. `CrossProcessRun` writes `measure_cross_process`,
`wait_for_value`, `consumer_loop` and `wait_or_kill` as the structured loops they
are, updating the shared block in place, while the other process may do anything
between two accesses; every execution is shown to be a run of the machine, and
every failed wait to be one that polled in vain.

**The pointer rings** (`Modular`, `Rings`, `Traces`, `LatencyMeasurement`). The
buffer is an array of links that the benchmarks rewrite in place. A ghost trace
records each load, and a ghost set of lines is an ideal cache that keeps no more
than what was loaded or stored since it was last flushed and may evict anything
at any time.

**The statistics** (`Samples`, `Medians`, `Statistics`, `Outliers`, `Blocks`,
`Classification`, `EvaluationRun`). Samples are exact reals; the standard
deviation appears as the variance under its root. `std::sort` is the function
`Sort`; `SortedIsUnique` shows that any correct sort computes it.

**The CPU lists and the score scan** (`CpuLists`, `Scores`). Two independently
written parsers, compared for an arbitrary string-to-int conversion, and the
counting and ranking of 256 candidate slots.

## Where the code does less than expected

Three properties one would expect are not true of the code on all inputs. The
code is modelled as it is, an input is given, and the exact condition is proved.

- The runner-up score is the best of the other slots if and only if some other
  slot scores at least as much as slot 0 (`RunnerUpIsExact`). The scan starts both
  candidates at slot 0, so a strict maximum there is compared with itself: five
  attempts that find slot 0 cached and nothing else are no success
  (`SlotZeroIsNeverRead`). Success is what the guess deserves if and only if slot
  0 is no clear winner (`SuccessIff`).
- Two disjoint classes can still be misclassified, as 10 against 11 and 100 are
  (`DisjointClassesMayOverlapTheMidpoint`). All classes in [a, b] are told apart
  from all classes in [c, d] if and only if the gap c - b is positive and at least
  as wide as either range (`SeparatedIff`).
- The reported robust mean can leave the majority. Three samples at 0 and two at
  1000 have the robust mean 400 (`GuardLetsOutliersThrough`): a majority at one
  value has a median absolute deviation of 0, which switches the filter off for
  every threshold (`MajorityAtOneValue`), and then any mean is possible
  (`MeanCanBeAnything`). The mean is guaranteed to stay near any majority if and
  only if the filter is on or there are at most two samples
  (`MeanGuaranteedIff`). The robust median always stays
  (`MetricsResistOutliers`).

The two CPU-list parsers agree on every text with `std::stoi` (`ParsersAgree`).
For an arbitrary conversion they do so if and only if it fails on the empty
string (`ParsersAgreeIff`).

## Model

| member | source | states |
|---|---|---|
| PingPong.ExecKeepsInv | MemoryLatencyAnalyzer_linux/src/shared_memory_measurer.cpp:81-264 | every load, store, timeout and failure keeps the protocol invariant: the current request is nowhere, in the request flag, in the consumer's hands, or answered in the response flag, and never in two places |
| PingPong.RunKeepsInv | MemoryLatencyAnalyzer_linux/src/shared_memory_measurer.cpp:81-264 | the invariant survives any schedule |
| PingPongTheorems.HandshakeSafety | MemoryLatencyAnalyzer_linux/src/shared_memory_measurer.cpp:89-104 | in every reachable state request and response are never both up, the consumer's clear erases exactly the request it is answering, its response overwrites no unread one, a post finds both flags down, and the producer acknowledges only the answer to its current request |
| PingPongTheorems.EveryRunIsAHandshake | MemoryLatencyAnalyzer_linux/src/shared_memory_measurer.cpp:213-260 | the posts, services and acknowledgements of any run are an initial part of post 1, serve 1, acknowledge 1, post 2, ...: nothing is lost, repeated or answered late |
| PingPongTheorems.SampleAccounting | MemoryLatencyAnalyzer_linux/src/shared_memory_measurer.cpp:202-260 | at every step served is acknowledged or one more, the samples are exactly the measured requests in order, none from the warmup, and none exists unless the consumer became ready |
| PingPongTheorems.OutcomeIsHonest | MemoryLatencyAnalyzer_linux/src/shared_memory_measurer.cpp:262-281 | success holds exactly when a measured request was acknowledged; then 1 <= iterations <= requested, with equality exactly when the message is empty; failure always has a message, the message tells in which phase the last request was posted, and "No successful shared-memory samples" is unreachable |
| PingPongTheorems.StopIsRaisedOnce | MemoryLatencyAnalyzer_linux/src/shared_memory_measurer.cpp:262-263 | only the producer's one store raises stop, and nothing lowers it |
| PingPongTheorems.StopStep | MemoryLatencyAnalyzer_linux/src/shared_memory_measurer.cpp:48-79 | once stop is up every choice keeps it up, and each own step of the consumer lowers a rank of its program counter |
| PingPongTheorems.ShutdownIsBounded | MemoryLatencyAnalyzer_linux/src/shared_memory_measurer.cpp:81-105 | after stop the consumer serves at most one more request and is gone within four of its own steps, whatever else happens |
| PingPongTheorems.SomeoneIsProductive | MemoryLatencyAnalyzer_linux/src/shared_memory_measurer.cpp:48-79 | until the producer is done, some process has an action that lowers the progress measure |
| PingPongTheorems.FairRunsComplete | MemoryLatencyAnalyzer_linux/src/shared_memory_measurer.cpp:202-264 | without timeouts or failures, every schedule of 9 * (warmup + iterations) + 14 rounds in which both processes act completes all handshakes, records every sample and ends both processes |
| PingPongTso.TsoStep | MemoryLatencyAnalyzer_linux/src/shared_memory_measurer.cpp:53-54 | one step of the machine with store buffers, drains included, is matched by steps of the sequentially consistent machine |
| PingPongTso.TsoRefinesSc | MemoryLatencyAnalyzer_linux/src/shared_memory_measurer.cpp:100-103 | every run with FIFO store buffers and forwarding maps to a run of the sequentially consistent machine, from the initial state and for any schedule |
| PingPongTsoTheorems.TsoHandshakeSafety | MemoryLatencyAnalyzer_linux/src/shared_memory_measurer.cpp:230-257 | the handshake safety read off the real memory and the queued stores of both processes: a post about to reach memory is the current one and finds both flags down, a clear of the response finds it up with no other under way, a clear of the request erases the one being answered, a response overwrites none, and only the current answer is acknowledged |
| PingPongTsoTheorems.TsoRunIsAHandshake | MemoryLatencyAnalyzer_linux/src/shared_memory_measurer.cpp:213-260 | with store buffers, too, the events of any run are an initial part of post 1, serve 1, acknowledge 1, post 2, ... |
| PingPongTsoTheorems.TsoOutcomeIsHonest | MemoryLatencyAnalyzer_linux/src/shared_memory_measurer.cpp:262-281 | success, iteration count and message are as honest with store buffers as without |
| PingPongTsoTheorems.TsoStopIsRaisedOnce | MemoryLatencyAnalyzer_linux/src/shared_memory_measurer.cpp:262-263 | stop reaches memory only from the producer's buffer, last of all its stores, and stays |
| PingPongTsoTheorems.TsoShutdownIsBounded | MemoryLatencyAnalyzer_linux/src/shared_memory_measurer.cpp:81-105 | once stop has reached memory the consumer serves at most one more request and is gone within four of its own steps, whenever its stores drain |
| PingPongTsoProgress.TsoFairRunsComplete | MemoryLatencyAnalyzer_linux/src/shared_memory_measurer.cpp:202-264 | without timeouts or failures, every schedule of 20 * (warmup + iterations) + 22 rounds in which both processes act and both buffers drain completes all handshakes, records every sample and ends both processes |
| PingPongTsoTheorems.TsoSampleAccounting | MemoryLatencyAnalyzer_linux/src/shared_memory_measurer.cpp:213-260 | the accounting of served, acknowledged and sampled requests holds with store buffers too |
| CrossProcessRun.SharedControl.WaitForValue | MemoryLatencyAnalyzer_linux/src/shared_memory_measurer.cpp:48-79 | for each of its three uses: a wait fails only if the waiter was killed, read stop up (only the consumer can), or loaded the flag and found it down in every one of its polls, at positions of the history that show it; a flag that is up at the first poll is seen; the producer's wait succeeds within five polls when the consumer acts before each of them |
| CrossProcessRun.SharedControl.WarmUp | MemoryLatencyAnalyzer_linux/src/shared_memory_measurer.cpp:213-232 | the warmup loop, whatever the consumer does between its accesses, is a run of the machine and records no sample; it fails only after a wait for the last posted request has found the response down in all of its polls |
| CrossProcessRun.SharedControl.Measure | MemoryLatencyAnalyzer_linux/src/shared_memory_measurer.cpp:234-260 | the measured loop is a run of the machine and returns the samples the machine records; it fails, with the measurement error, only after such an exhausted wait |
| CrossProcessRun.SharedControl.ShutDown | MemoryLatencyAnalyzer_linux/src/shared_memory_measurer.cpp:107-124 | stop is raised and the child is gone unless a system call fails; it is killed only after every look has found it running; the samples and the error stay |
| CrossProcessRun.SharedControl.ConsumerLoop | MemoryLatencyAnalyzer_linux/src/shared_memory_measurer.cpp:81-105 | the consumer loop, whatever the producer does between its accesses, is a run of the machine; each round serves one request, and it leaves only killed, unpinned, having read stop up, or after a wait that found the request down in all of its polls |
| CrossProcessRun.MeasureCrossProcess | MemoryLatencyAnalyzer_linux/src/shared_memory_measurer.cpp:128-282 | the whole call: exactly which arguments and set-ups are rejected, and how; otherwise a result some run of the two processes leads to, where an error message comes with a wait exhausted in that run; and success with every requested iteration and an empty message whenever the consumer acts in 7 * (warmup + iterations) + 5 slices and every wait has five polls |
| Interference.SliceHelps | MemoryLatencyAnalyzer_linux/src/shared_memory_measurer.cpp:81-105 | while the producer waits, every slice in which the consumer acts brings the flag it waits for nearer, until it is up |
| Interference.ForeignIff | MemoryLatencyAnalyzer_linux/src/shared_memory_measurer.cpp:48-124 | between two accesses of a process the other one may do anything but that process's own steps, waits, pin or reaping |
| Interference.ForeignSliceStays | MemoryLatencyAnalyzer_linux/src/shared_memory_measurer.cpp:48-124 | a plan of such actions is played as it is |
| Rings.RandomFollow | MemoryLatencyAnalyzer_linux/src/latency_measurer.cpp:139-154 | k links from order[s] lead to order[(s + k) mod n], for every permutation, s and k |
| Rings.RandomRingIsOneCycle | MemoryLatencyAnalyzer_linux/src/latency_measurer.cpp:139-154 | whatever the shuffle, each node reaches each other in fewer than n links, and itself exactly at the multiples of n |
| Rings.StrideFollow | MemoryLatencyAnalyzer_linux/src/latency_measurer.cpp:156-166 | k links from i lead to (i + k * d) mod n, also for strides beyond the buffer |
| Rings.StrideRingIsPermutation | MemoryLatencyAnalyzer_linux/src/latency_measurer.cpp:156-166 | no two nodes of the stride ring share a successor |
| Rings.StrideCycleLength | MemoryLatencyAnalyzer_linux/src/latency_measurer.cpp:156-166 | a chase is back where it started exactly after the multiples of n / gcd(n, d) |
| Rings.StrideOrbits | MemoryLatencyAnalyzer_linux/src/latency_measurer.cpp:156-166 | one node reaches another exactly when they agree modulo gcd(n, d) |
| Rings.StrideCycles | MemoryLatencyAnalyzer_linux/src/latency_measurer.cpp:156-166 | the ring has exactly gcd(n, d) cycles, and each has n / gcd(n, d) nodes |
| Traces.NodeCount | MemoryLatencyAnalyzer_linux/src/latency_measurer.cpp:25-31 | the buffer has at least 524288 nodes and fills the requested size, or the minimum, up to less than a line |
| Traces.WholeLines | MemoryLatencyAnalyzer_linux/src/latency_measurer.cpp:293-299 | a requested stride becomes a positive whole number of lines, less than a line below it, and the ring's step is exactly that many lines |
| Traces.MissTraceAt | MemoryLatencyAnalyzer_linux/src/latency_measurer.cpp:230-243 | load j of forced-miss batch b reads the node at position (b + j) mod n of the order |
| Traces.StrideBatchesAt | MemoryLatencyAnalyzer_linux/src/latency_measurer.cpp:312-319 | load j of stride batch b from x reads node (x + (b + j) * d) mod n, and the load that moves on reads the batch's first node again |
| Traces.HitReads | MemoryLatencyAnalyzer_linux/src/latency_measurer.cpp:185-201 | a hit trace is node 0, 128 times a batch |
| Traces.WarmupReads | MemoryLatencyAnalyzer_linux/src/latency_measurer.cpp:293-304 | load j of warmup batch b of a stride reads node (b + j) * d mod n, with d the whole lines of the requested stride, at least one |
| Traces.RoundReads | MemoryLatencyAnalyzer_linux/src/latency_measurer.cpp:310-320 | load j of batch b of round r reads node (r + (b + j) * d) mod n, at its place after the warmup and the earlier rounds |
| Traces.StrideSlice | MemoryLatencyAnalyzer_linux/src/latency_measurer.cpp:293-319 | the loads of a stride call are those of its strides one after the other, each of the same number |
| Traces.CallReads | MemoryLatencyAnalyzer_linux/src/latency_measurer.cpp:178-331 | which of these traces each call consists of, and that rejected and store calls read nothing |
| Traces.FlushedIsRead | MemoryLatencyAnalyzer_linux/src/latency_measurer.cpp:168-176 | the window that is flushed is exactly the sequence of nodes the next chase reads, and these are pairwise distinct |
| LatencyMeasurement.OneMoreLoad | MemoryLatencyAnalyzer_linux/src/latency_measurer.cpp:87-110 | a load misses if its line was neither cached at the start nor read since, under any evictions |
| LatencyMeasurement.AllMiss | MemoryLatencyAnalyzer_linux/src/latency_measurer.cpp:231-243 | a chase over distinct flushed lines misses on every load |
| LatencyMeasurement.LatencyMeasurer.constructor | MemoryLatencyAnalyzer_linux/src/latency_measurer.cpp:14-69 | every node starts as its own successor |
| LatencyMeasurement.LatencyMeasurer.BuildSelfLoop | MemoryLatencyAnalyzer_linux/src/latency_measurer.cpp:135-137 | only the link of node 0 changes, to itself, and only its line may enter the cache |
| LatencyMeasurement.LatencyMeasurer.BuildRandomRing | MemoryLatencyAnalyzer_linux/src/latency_measurer.cpp:139-154 | the links form the ring of the shuffled order, whatever they were before |
| LatencyMeasurement.LatencyMeasurer.BuildStrideRing | MemoryLatencyAnalyzer_linux/src/latency_measurer.cpp:156-166 | the links form the stride ring, whatever they were before |
| LatencyMeasurement.LatencyMeasurer.FlushRandomPath | MemoryLatencyAnalyzer_linux/src/latency_measurer.cpp:168-176 | exactly the lines of the window leave the cache |
| LatencyMeasurement.LatencyMeasurer.TimedPointerChase | MemoryLatencyAnalyzer_linux/src/latency_measurer.cpp:81-110 | the chase reads the chain from its start, each link a valid node; first touches of uncached lines miss; the sample times the steps is the elapsed cycles less the overhead, or 0 |
| LatencyMeasurement.LatencyMeasurer.TimedStoreBatch | MemoryLatencyAnalyzer_linux/src/latency_measurer.cpp:115-133 | the first 16 links, or as many as there are steps, become self-loops and no other link changes; the sample times the steps is the elapsed cycles less the overhead, or 0 |
| LatencyMeasurement.LatencyMeasurer.MeasureHit | MemoryLatencyAnalyzer_linux/src/latency_measurer.cpp:178-208 | every load reads node 0; exactly the bad arguments throw; the summary counts all rounds * iterations timed batches, its mean is their net cycles per step, its extremes enclose each of them, and a steady c cycles a step give exactly c |
| LatencyMeasurement.LatencyMeasurer.MeasureForcedMiss | MemoryLatencyAnalyzer_linux/src/latency_measurer.cpp:210-251 | every load of the call misses, although successive batches share 127 nodes; the trace depends only on the arguments; exactly the bad arguments throw; the summary counts all rounds * iterations timed batches, its mean is their net cycles per step, its extremes enclose each of them, and a steady c cycles a step give exactly c |
| LatencyMeasurement.LatencyMeasurer.MeasureStore | MemoryLatencyAnalyzer_linux/src/latency_measurer.cpp:253-279 | reads no link and leaves the first 16 links, and only those, as self-loops; exactly the bad arguments throw; the summary counts all rounds * iterations timed batches, its mean is their net cycles per step, its extremes enclose each of them, and a steady c cycles a step give exactly c |
| LatencyMeasurement.LatencyMeasurer.MeasureStrides | MemoryLatencyAnalyzer_linux/src/latency_measurer.cpp:281-331 | one result per stride, in the order of the strides; the trace depends only on the arguments; exactly the bad arguments throw; the summary counts all rounds * iterations timed batches, its mean is their net cycles per step, its extremes enclose each of them, and a steady c cycles a step give exactly c |
| LatencyMeasurement.LatencyMeasurer.PerformAll | MemoryLatencyAnalyzer_linux/src/latency_measurer.cpp:178-331 | history independence: after any sequence of calls every link is a valid node and each call has read the nodes its own arguments determine |
| Samples.SortedIsUnique | MemoryLatencyAnalyzer_linux/src/statistics.cpp:27-28 | an ascending arrangement of given values is unique |
| Samples.OrderStatistic | MemoryLatencyAnalyzer_linux/src/statistics.cpp:27-28 | the k-th smallest sample is at most v exactly when more than k samples are |
| Samples.SortMonotone | MemoryLatencyAnalyzer_linux/src/statistics.cpp:27-28 | raising samples raises every order statistic |
| Samples.MeanIsCentre | MemoryLatencyAnalyzer_linux/src/evaluation_lab.cpp:23-49 | the squares about any centre are those about the mean plus n times the squared distance |
| Medians.MedianInMajority | MemoryLatencyAnalyzer_linux/src/evaluation_lab.cpp:51-60 | an interval that holds more than half of the samples holds the median, whatever the others are |
| Medians.MedianMinimizes | MemoryLatencyAnalyzer_linux/src/evaluation_lab.cpp:51-60 | no centre has a smaller sum of distances than the median, for both parities |
| Medians.MeanNearMedian | MemoryLatencyAnalyzer_linux/src/statistics.cpp:22-52 | n * (mean - median)^2 is at most the sum of squares about the mean |
| Statistics.QuantileMonotone | MemoryLatencyAnalyzer_linux/src/statistics.cpp:9-20 | a larger q never gives a smaller quantile |
| Statistics.QuantileRises | MemoryLatencyAnalyzer_linux/src/statistics.cpp:9-20 | raising samples never lowers a quantile |
| Statistics.QuantileHalfIsMedian | MemoryLatencyAnalyzer_linux/src/statistics.cpp:9-20 | the half quantile of the sorted samples is the evaluation lab's median, for both parities and the empty list |
| Statistics.SummarizeImpl | MemoryLatencyAnalyzer_linux/src/statistics.cpp:22-54 | the accumulation loops compute the specified summary, of zeros for no samples |
| Statistics.QuantileIsLinear | MemoryLatencyAnalyzer_linux/src/statistics.cpp:13-19 | between two neighbouring samples the quantile moves along the straight line between them |
| Statistics.QuantileOfProgression | MemoryLatencyAnalyzer_linux/src/statistics.cpp:9-20 | on a + b * i, i < n, the q quantile is a + b * (n - 1) * q |
| Statistics.SummaryOfProgression | MemoryLatencyAnalyzer_linux/src/statistics.cpp:22-54 | of such samples in any order the summary reports their count, a, a + b * (n - 1), and the points 0.5, 0.95 and 0.99 of the way |
| Statistics.SummaryExtremes | MemoryLatencyAnalyzer_linux/src/statistics.cpp:27-39 | the extremes are samples and bound all of them, the mean times the count is the sum, and the count is the number of samples |
| Statistics.SummaryOrder | MemoryLatencyAnalyzer_linux/src/statistics.cpp:22-54 | min <= median <= p95 <= p99 <= max and min <= mean <= max |
| Statistics.SummaryIgnoresOrder | MemoryLatencyAnalyzer_linux/src/statistics.cpp:22-54 | every field is the same for every permutation of the samples |
| Statistics.SummaryRises | MemoryLatencyAnalyzer_linux/src/statistics.cpp:22-54 | raising samples lowers none of min, mean, median, p95, p99 and max |
| Statistics.SummarySpread | MemoryLatencyAnalyzer_linux/src/statistics.cpp:22-54 | the mean is within a standard deviation of the median; squares <= n * (max - mean) * (mean - min) <= n * (max - min)^2 / 4 |
| Statistics.VarianceOfSquares | MemoryLatencyAnalyzer_linux/src/statistics.cpp:41-51 | the sum of squares in those bounds is n - 1 times the reported variance |
| Outliers.RemoveMadOutliers | MemoryLatencyAnalyzer_linux/src/evaluation_lab.cpp:348-380 | the two loops and three guards compute the specified filter |
| Outliers.KeptIff | MemoryLatencyAnalyzer_linux/src/evaluation_lab.cpp:351-377 | on five samples or more, a positive threshold and a MAD above 1e-12, a sample survives exactly if it is within threshold * 1.4826 * MAD of the median |
| Outliers.KeepsAllIff | MemoryLatencyAnalyzer_linux/src/evaluation_lab.cpp:351-364 | below five samples, without a positive threshold, or with a MAD of at most 1e-12 everything survives |
| Outliers.FarIsRejected | MemoryLatencyAnalyzer_linux/src/evaluation_lab.cpp:351-377 | under the same guard, with a majority in [lo, hi], no sample farther than threshold * 1.4826 * (hi - lo) outside survives |
| Outliers.OutlierResistance | MemoryLatencyAnalyzer_linux/src/evaluation_lab.cpp:348-380 | if more than half of the samples lie in [lo, hi], so does the median, the MAD is at most hi - lo, and unless a guard returns the input every kept value is within threshold * 1.4826 * (hi - lo) of it, whatever the other samples are |
| Outliers.KeepsAtLeastHalf | MemoryLatencyAnalyzer_linux/src/evaluation_lab.cpp:348-380 | with threshold * 1.4826 >= 1 at least half of the samples survive |
| Outliers.KeepsInOrder | MemoryLatencyAnalyzer_linux/src/evaluation_lab.cpp:369-377 | the result lists, in input order, exactly the samples within reach of the median |
| Outliers.FilteredCentre | MemoryLatencyAnalyzer_linux/src/evaluation_lab.cpp:382-401 | mean and median of what is kept lie within threshold * 1.4826 * MAD of the original median |
| Outliers.ComputeRobustMetrics | MemoryLatencyAnalyzer_linux/src/evaluation_lab.cpp:382-401 | kept + rejected = input, with the centre and variance of what is kept |
| Outliers.MetricsVariance | MemoryLatencyAnalyzer_linux/src/evaluation_lab.cpp:382-401 | the counts are those of input, kept and rejected, and the variance times one less than the kept samples is their squares about the reported mean |
| Outliers.LowMiddleIsKept | MemoryLatencyAnalyzer_linux/src/evaluation_lab.cpp:348-380 | with threshold * 1.4826 >= 1 the lower median always survives the filter |
| Outliers.MetricsResistOutliers | MemoryLatencyAnalyzer_linux/src/evaluation_lab.cpp:382-401 | with threshold * 1.4826 >= 1, the default included, the reported median stays within threshold * 1.4826 * (hi - lo) of any majority interval [lo, hi] and at least half of the samples are kept; the reported mean stays there, too, when the filter is on |
| Outliers.MajorityAtOneValue | MemoryLatencyAnalyzer_linux/src/evaluation_lab.cpp:348-364 | a majority at one value switches the filter off for every threshold |
| Outliers.MeanCanBeAnything | MemoryLatencyAnalyzer_linux/src/evaluation_lab.cpp:348-401 | for three samples or more, a majority at one value is compatible with every reported mean |
| Outliers.GuardLetsOutliersThrough | MemoryLatencyAnalyzer_linux/src/evaluation_lab.cpp:348-401 | a concrete list with its majority at 0 and the reported mean 400 |
| Outliers.MeanGuaranteedIff | MemoryLatencyAnalyzer_linux/src/evaluation_lab.cpp:348-401 | the reported mean of n samples is near every majority interval exactly when the filter is on or n is at most 2 |
| Blocks.ComputeAverages | MemoryLatencyAnalyzer_linux/src/evaluation_lab.cpp:324-346 | the nested loops compute the means of the consecutive complete windows |
| Blocks.BlockCount | MemoryLatencyAnalyzer_linux/src/evaluation_lab.cpp:329-330 | there are floor(n / window) blocks |
| Blocks.BlockAt | MemoryLatencyAnalyzer_linux/src/evaluation_lab.cpp:335-343 | window times block j is the sum of the samples from j * window up to (j + 1) * window |
| Blocks.BlocksKeepSum | MemoryLatencyAnalyzer_linux/src/evaluation_lab.cpp:324-346 | window times the sum of the blocks is the sum of the samples in complete windows |
| Blocks.BlocksContract | MemoryLatencyAnalyzer_linux/src/evaluation_lab.cpp:324-346 | about any centre, window times the blocks' squares is at most the squares of those samples |
| Blocks.BlocksCompose | MemoryLatencyAnalyzer_linux/src/evaluation_lab.cpp:324-346 | averaging by a and then by b is averaging by a * b, for every length |
| Classification.ClassificationErrorRate | MemoryLatencyAnalyzer_linux/src/evaluation_lab.cpp:424-456 | the counting loops compute the specified rate, which lies in [0, 100] and is 100 for an empty class |
| Classification.ErrorRateIsShare | MemoryLatencyAnalyzer_linux/src/evaluation_lab.cpp:424-456 | the rate is 100 for an empty class and otherwise the percentage of fixed samples above, and random samples not above, the midpoint of the two robust means at threshold 3.5 |
| Classification.WideGapSeparates | MemoryLatencyAnalyzer_linux/src/evaluation_lab.cpp:435-446 | a positive gap at least as wide as either class gives the rate 0 |
| Classification.SeparatedIff | MemoryLatencyAnalyzer_linux/src/evaluation_lab.cpp:435-456 | all non-empty classes in [a, b] and [c, d] have the error rate 0 exactly when b < c and c - b is at least b - a and at least d - c |
| Classification.DisjointClassesMayOverlapTheMidpoint | MemoryLatencyAnalyzer_linux/src/evaluation_lab.cpp:435-446 | a concrete pair of disjoint classes with an error |
| EvaluationRun.AlignSamples | MemoryLatencyAnalyzer_linux/src/evaluation_lab.cpp:312-322 | the longest prefix of the first list no longer than the second |
| EvaluationRun.Accumulate | MemoryLatencyAnalyzer_linux/src/evaluation_lab.cpp:553-626 | block j of round k is the mean of window j of that round's random trace, or of its fixed trace, whose last eight samples in round 0 are the re-collected ones if it is longer; one median per round, of its own blocks; and the injected capture fault is always recovered |
| EvaluationRun.BlocksCollected | MemoryLatencyAnalyzer_linux/src/evaluation_lab.cpp:553-626 | runs * floor(trace / window) blocks on either side, and one median per round or none if the trace is shorter than the window |
| EvaluationRun.LossCount | MemoryLatencyAnalyzer_linux/src/evaluation_lab.cpp:628-641 | requested minus aligned pairs is in [0, runs) |
| EvaluationRun.Run | MemoryLatencyAnalyzer_linux/src/evaluation_lab.cpp:522-714 | exactly which arguments are refused; otherwise the blocks and medians in terms of the captures, their metrics and error rate, the loss as the percentage of requested pairs that is missing, within [0, 100], and a recovery rate of 100 |
| EvaluationRun.RunKeepsTotals | MemoryLatencyAnalyzer_linux/src/evaluation_lab.cpp:553-626 | over all rounds, for the fixed as for the random traces, the accumulated blocks conserve the total of the samples behind them and are no noisier about any centre |
| EvaluationRun.WholeWindowsUseAll | MemoryLatencyAnalyzer_linux/src/evaluation_lab.cpp:324-346 | if the window divides the trace length, the samples behind the blocks are all samples |
| CpuLists.ParseWithGetline | MemoryLatencyAnalyzer_linux/src/cpu_info.cpp:32-59 | for any conversion, the getline loop computes the token-wise meaning of the text, or nothing when a token fails |
| CpuLists.ParseWithFind | MemoryLatencyAnalyzer_linux/src/numa_support.cpp:17-50 | for any conversion, the find loop computes the same meaning but refuses empty tokens |
| CpuLists.ParsersAgreeIff | MemoryLatencyAnalyzer_linux/src/cpu_info.cpp:32-59 | the two agree on every text exactly when the conversion fails on the empty string |
| CpuLists.ParsersAgree | MemoryLatencyAnalyzer_linux/src/numa_support.cpp:17-50 | with stoi's behaviour they agree on every text, malformed ones included |
| CpuLists.StoiOfDecimal | MemoryLatencyAnalyzer_linux/src/cpu_info.cpp:42-47 | converting the decimal form of a number gives the number back |
| CpuLists.StoiReads | MemoryLatencyAnalyzer_linux/src/cpu_info.cpp:42-47 | white space, a sign, a number and anything that does not continue it convert to the signed number exactly if it is an int |
| CpuLists.StoiRejects | MemoryLatencyAnalyzer_linux/src/cpu_info.cpp:42-47 | without a digit after white space and sign the conversion fails |
| CpuLists.StoiShifts | MemoryLatencyAnalyzer_linux/src/cpu_info.cpp:42-47 | one more digit multiplies by ten |
| CpuLists.TokensOfJoin | MemoryLatencyAnalyzer_linux/src/numa_support.cpp:20-25 | whatever the tokens, empty ones included, their comma-joined text is cut into them again, but for an empty last one |
| CpuLists.TrailingComma | MemoryLatencyAnalyzer_linux/src/cpu_info.cpp:37 | a comma at the end changes nothing |
| CpuLists.BadTokenEmptiesList | MemoryLatencyAnalyzer_linux/src/numa_support.cpp:27-44 | a descending range, or a token the conversion rejects, empties the list in both parsers |
| CpuLists.RangeAt | MemoryLatencyAnalyzer_linux/src/cpu_info.cpp:50-52 | a range holds every number from its first to its last, once and in order |
| CpuLists.ListsRoundTrip | MemoryLatencyAnalyzer_linux/src/cpu_info.cpp:32-59 | both parsers read every comma-joined list of numbers and ascending ranges back as the concatenated ranges |
| Scores.MixingIsBijective | MemoryLatencyAnalyzer_linux/src/spectre_v1.cpp:124-126 | the mixed index visits every slot exactly once a pass |
| Scores.CandidateScores.ScoreReload | MemoryLatencyAnalyzer_linux/src/spectre_v1.cpp:122-141 | one pass adds one to exactly the slots whose own step was fast |
| Scores.TallyCountsSteps | MemoryLatencyAnalyzer_linux/src/spectre_v1.cpp:122-141 | slot (i * 167 + 13) & 255 counts the passes in which step i was fast |
| Scores.AnalyzeScores | MemoryLatencyAnalyzer_linux/src/spectre_v1.cpp:143-200 | the guess is the first maximum, and what the second score, confidence and success then are |
| Scores.AnalysisIs | MemoryLatencyAnalyzer_linux/src/spectre_v1.cpp:165-197 | confidence times attempts is the gap of the two scores; success is score >= 2 * second + 5, score >= 5 and attempts < 40 * (score + 1) |
| Scores.RunnerUpIsExact | MemoryLatencyAnalyzer_linux/src/spectre_v1.cpp:147-163 | the second score is the best of the other slots exactly when some other slot scores at least as much as slot 0 |
| Scores.SuccessIff | MemoryLatencyAnalyzer_linux/src/spectre_v1.cpp:190-197 | success holds exactly when some slot other than 0 is a clear winner (enough evidence, and at least twice every other score plus five); it is what the guess deserves exactly when slot 0 is no clear winner |
| Scores.SlotZeroIsNeverRead | MemoryLatencyAnalyzer_linux/src/spectre_v1.cpp:143-200 | five attempts that find slot 0 cached and nothing else leave it a clear winner without success |
| Scores.ReadByteWithThreshold | MemoryLatencyAnalyzer_linux/src/spectre_v1.cpp:202-228 | every score counts the attempts that found its slot, the guess has the most, scores are within [0, attempts] and confidence in [0, 1]; the conditions for an exact second score and for success hold of these counts |

## Left out

- Time stamps: the cycles of a timed batch, a warmup batch excepted, are handed in as a clock; reading the counter, fences and how the overhead is measured are not modelled.
- CrossProcessRun.MeasureCrossProcess: the samples are recorded as the requests they time, and their summary is not computed.
- Wait limits: the spin count, the deadline and the sleep are one nondeterministic choice at the loop's load in the state machine, and a number of polls in the programs.
- CrossProcessRun.SharedControl.ConsumerLoop: the endless loop is followed for any finite number of rounds; of the two programs one runs as written while the other acts through the state machine.
- Memory orders weaker than x86-TSO: reorderings that C++11 allows beyond store buffering are not modelled.
- System calls (`shm_open`, `mmap`, `fork`, `waitpid`, `kill`, affinity, libnuma): each is an outcome handed in from outside; exceptions from `reserve` and the releases of the shared block are left out.
- LatencyMeasurement.LatencyMeasurer.constructor: failures of NUMA and `mmap` allocation, and the second pass that repeats some of the self-loops.
- The Mersenne Twister: the shuffle is an arbitrary permutation fixed when the object is built.
- Cache geometry and prefetching: the cache is a set of lines with arbitrary evictions.
- Floating point: rounding, `long double` precision, NaN and infinities; samples are exact reals, and the conversion from 64-bit counts is not modelled.
- Square roots: the standard deviations are kept as variances.
- Outliers.ComputeRobustMetrics: reports the variance under the standard deviation.
- Machine integers: sums and products of counts are unbounded, and a CPU range that ends at the largest int, where the loop counter of both parsers overflows, is read as the mathematical range.
- CpuLists.Stoi: models the decimal conversion of the C locale on plain characters.
- Statistics.SummarizeImpl: `std::sort` in place on a copy is the function `Sort`, and the standard deviation is the variance under its root.
- Trace collection: traces are arbitrary lists of the requested length.
- EvaluationRun.Run: signal-to-noise ratio, Welch's t test, repeatability, the control matrix and the report are left out.
- The speculative side of `spectre_v1.cpp`: victim, training, threshold calibration and the retry of uncertain bytes; only counting and ranking are modelled, and the fast reloads are given.
- The assertions on zero variance in `tests/evaluation_test.cpp` (lines 35-46) disagree with the code, which returns 0; neither function is part of this model.
- Bandwidth, timer, capability detection, the reporter, the command line and the operational and defensive catalogues: I/O or straight-line counters that would add only easy members.
