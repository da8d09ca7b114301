# Verification of NyxNet's stateful core

This project models the parts of NyxNet whose behaviour is hard to see from any single function, and proves what
they do over every input, every run or every interleaving. Each module follows one component of the program:

- `PacketScheduler`, `Bandwidth`, `Simulator`: the conformance suite's network simulator. Four priority queues
  behind a bandwidth check, then the whole simulator as a machine in which any number of senders and delivery
  loops interleave with start, stop, reset, partitions and limit changes.
- `ConnectionMonitor`: the CLI's health loop and its reconnection tasks, which share two locked cells. Each
  critical section is one step. The health loop holds the quality lock for its whole section, so its two writes
  are one step.
- `Regression`, `Analyzer`: the performance analyzer's regression, trend labels, forecasts, window and baseline.
- `FileTransfer`: chunking and the resumable, bounded-retry send loop against an arbitrary network.
- `PropertyTester`: counting random runs and greedy shrinking of counterexamples.
- `LatencyStats`, `ErrorWindows` (over `Intervals`): percentiles, histogram, spike windows and time buckets.
- `Prober`: nonce matching and smoothed RTT and bandwidth estimates.
- `Settings`, `SettingsSync`: the SETTINGS codec and the event loop that broadcasts settings to peers.
- `Throughput`: protocol overhead and efficiency.
- `PathScheduler`: the smooth weighted round-robin scheduler of multipath streams.
- `DelayFunction`, `Cmix`: the Wesolowski delay function, the RSA accumulator and the batcher built on them.
- `Common`: an option type and sums over maps.

Objects that the program updates in place are classes whose methods are proved equal to value-level step
functions; the theorems are about those step functions over whole runs. Floating-point numbers are exact reals,
instants are reals, hash maps are maps, random draws and network replies are arbitrary.

## What the proofs found

- The reconnection attempt counter never goes beyond 1. The status `Failed` is reachable exactly when reconnection
  is enabled with `max_attempts == 1`. The exponential backoff has only two values before jitter: the capped initial
  delay for a task that reads attempt 1, and the capped quotient of initial delay and multiplier for a task that reads
  0 because a success has reset the counter in between, which can happen whenever tasks are started at all (with
  overflow checks such a task panics instead). A delay above the capped initial one is reachable exactly for a
  multiplier from 0 to below 1 with room below the cap.
- Once one configured attempt is used up and nothing is in progress, a later reconnection is possible exactly when some
  task is alive that has not given up. Both cases occur; without such a task reconnection has stopped for good,
  whatever the later health checks say. The in-progress flag can be left set with no task alive exactly when at least
  two attempts are enabled; from then on it stays set until the first successful health check.
- The simulator's bandwidth limit holds in all runs with at most `k` queued packets exactly if `k` is at most 1 or the
  limit is below one byte. In general the usage of a window is at most `k` times the limit; this is attained when the
  limit is some packet's megabits, and for any other limit of at least zero it is approached within `k` bytes. `reset`
  keeps the queues. The total `packets_sent` and the duration are never set, so every recorded loss rate is 1 and the
  throughput stays 0.
- The documentation of the settings synchroniser says that inbound frames are published on the watch channel. They
  are not: they change only the loop's private copy. Handling a well-formed one also marks a
  waiting local change as seen. The broadcast is stale exactly from a step that swallows a change in this way until
  the next local change.
- The u32 shrinker proposes values below the generator's minimum exactly for `min + 1 < value < 2 * min`, and the
  returned counterexample itself can lie below it exactly for a minimum of at least 3 and an original at least 2 above
  it. The byte-vector shrinker proposes vectors below the minimum length in all but three cases: no minimum, nothing to
  shrink, or a single byte that is the minimum. It repeats a vector exactly if that vector starts with zero, fails,
  and none of its other candidates fails; with more attempts than the length of the original and one, it spends its
  whole budget exactly if it reaches such a vector.
- Time buckets of whole seconds omit the final partial bucket, with the last error in it, exactly when the errors span
  at least one bucket. With fractional sizes truncation makes more buckets, which may cover all errors.
- The overhead estimate exceeds the bytes sent exactly for transfers below 72 bytes. Over any run that sends anything
  the unsigned subtraction in the efficiency underflows exactly if 13 times the bytes sent, plus what truncation took
  away, is below 960 times the number of transfers.
- A delay proof verifies exactly when at least one squaring is done or the input is below the modulus. The batch
  verifier takes the number of squarings and the accumulator value from the batch and compares neither with its own. An
  accumulator witness verifies later exactly if the accumulator is back at the value it was issued for, which can
  fail; raised to the elements added since it always verifies.
- In the path scheduler the credits of all paths sum to minus the credits that removed paths took with them. Still no
  history of updates, removals and selections can overflow a 32-bit field, and what a path pays by being selected
  follows what its weight earns up to less than two of the largest total weights per path.

## Model

Handlers that are a single assignment (such as `RecordSend`, `StopRunning` or `OnRegister`) are proved equal to their
steps of the specification and have no row of their own.

| member | source | states |
|---|---|---|
| `PacketScheduler.QueuesRefineList` | nyx-conformance/src/network_simulator.rs:509-542 | for every sequence of schedules and pops the four queues give the same outcomes as one arrival-ordered list from which the earliest packet of the highest present priority is removed |
| `PacketScheduler.PutRefines` | nyx-conformance/src/network_simulator.rs:509-521 | admitting a packet keeps the queues equal to the arrival list split by priority, whether it is accepted or rejected |
| `PacketScheduler.TakeRefines` | nyx-conformance/src/network_simulator.rs:523-542 | a pop returns the packet the reference list removes and keeps the two representations equal |
| `PacketScheduler.SourceIsNext` | nyx-conformance/src/network_simulator.rs:525-541 | the first non-empty queue in the scan is the one of the earliest packet of the highest priority, and there is none exactly if nothing is queued |
| `PacketScheduler.FifoWithinPriority` | nyx-conformance/src/network_simulator.rs:516-541 | per priority, deliveries followed by what is queued equal the initial queue followed by the admissions: first in first out, no loss, no duplicate |
| `PacketScheduler.CreateRepresents` | nyx-conformance/src/network_simulator.rs:490-507 | a new scheduler represents the empty arrival list |
| `PacketScheduler.NextIndex` | nyx-conformance/src/network_simulator.rs:525-541 | in the reference list the chosen index has the highest priority present and is the earliest of that priority |
| `PacketScheduler.BandwidthTracker.CanSend` | nyx-conformance/src/network_simulator.rs:546-553 | rolls the window if it has run out and answers whether the packet fits; charges nothing |
| `PacketScheduler.BandwidthTracker.UpdateWindow` | nyx-conformance/src/network_simulator.rs:561-567 | opens a new empty window exactly when the old one has run out |
| `PacketScheduler.Scheduler.SchedulePacket` | nyx-conformance/src/network_simulator.rs:509-521 | the mutable scheduler performs the admission step of the specification, and its answer tells acceptance from rejection |
| `PacketScheduler.Scheduler.GetNextPacket` | nyx-conformance/src/network_simulator.rs:523-542 | the scan over priorities performs the pop step of the specification |
| `Bandwidth.UsageBound` | nyx-conformance/src/network_simulator.rs:509-568 | with a fixed limit and never more than `k` packets queued, window usage plus queued megabits stays within `k` limits over every run, and at zero for a limit below zero |
| `Bandwidth.FreshUsageBound` | nyx-conformance/src/network_simulator.rs:490-568 | from a new scheduler the usage is at least zero and, for a limit of at least zero, at most `k` limits, so within the limit for `k == 1`; for a limit below zero it stays zero |
| `Bandwidth.BoundAttained` | nyx-conformance/src/network_simulator.rs:511-535 | for every `k` and every packet that fits alone there is a run within one window whose usage is `k` times the packet, so exactly `k` limits if the packet's megabits are the limit |
| `Bandwidth.BoundTight` | nyx-conformance/src/network_simulator.rs:490-568 | for every `k` and every limit of at least zero some run from a new scheduler comes within `k` bytes of `k` limits |
| `Bandwidth.LimitHoldsIff` | nyx-conformance/src/network_simulator.rs:509-568 | the usage stays within the limit in every run that never queues more than `k` packets if and only if `k <= 1` or the limit is below one byte |
| `Bandwidth.TakeConserves` | nyx-conformance/src/network_simulator.rs:533-537 | popping moves megabits from the backlog to the usage and changes nothing else of their sum |
| `Bandwidth.UsageCountsWindow` | nyx-conformance/src/network_simulator.rs:509-568 | in every run the usage is exactly eight bits per byte delivered since the window in force was opened, and that window was opened by the first packet to arrive at least a second after the window before it was opened |
| `Simulator.Conservation` | nyx-conformance/src/network_simulator.rs:302-398 | in every interleaving each packet that entered is in exactly one of lost, rejected, admitted or in progress, each admitted one in exactly one of counted, in hand or queued, also relative to the last reset; the result counters are exact |
| `Simulator.ReceivedBalance` | nyx-conformance/src/network_simulator.rs:330-398 | received plus in hand plus queued equals admitted since the last reset plus the backlog at that reset, and per-node `packets_sent` sums to `packets_lost` |
| `Simulator.QuiescentOutcomes` | nyx-conformance/src/network_simulator.rs:302-361 | once nothing is in progress the multiset of sends is the disjoint sum of lost, rejected and received |
| `Simulator.StepConserves` | nyx-conformance/src/network_simulator.rs:302-398 | every single step keeps the conservation law |
| `Simulator.StepKeepsExact` | nyx-conformance/src/network_simulator.rs:344-398 | every step keeps the counters equal to the losses and deliveries since the last reset, with loss rate 1 and throughput 0 |
| `Simulator.LossKeepsExact` | nyx-conformance/src/network_simulator.rs:451-471 | recording a loss keeps the per-node packet and byte counters exact and their sum equal to the losses |
| `Simulator.NetworkSimulator.SimulateNetworkPartition` | nyx-conformance/src/network_simulator.rs:284-300 | two or more nodes are split into two non-empty halves in order, differing by at most one; fewer change nothing |
| `Simulator.NetworkSimulator.PartitionCheck` | nyx-conformance/src/network_simulator.rs:408-425 | true exactly if some complete partition has the two nodes on opposite sides |
| `Simulator.NetworkSimulator.RecordPacketLoss` | nyx-conformance/src/network_simulator.rs:451-471 | performs the loss section of the specification |
| `Simulator.NetworkSimulator.SendPacket` | nyx-conformance/src/network_simulator.rs:303-327 | nothing happens when not running, a dropped or partitioned packet is only recorded as lost, any other is only scheduled |
| `Simulator.NetworkSimulator.DeliverNext` | nyx-conformance/src/network_simulator.rs:344-354 | after its flag check a loop turn pops the next packet and counts it, or does nothing, even if the flag was cleared in between |
| `Simulator.StopEndsDelivery` | nyx-conformance/src/network_simulator.rs:343-367 | after a stop, until the next start, at most one more packet is delivered per loop already past its flag check, in every interleaving |
| `Simulator.PartitionSymmetric` | nyx-conformance/src/network_simulator.rs:408-425 | partitions cut both ways |
| `Simulator.SplitSeparates` | nyx-conformance/src/network_simulator.rs:284-300 | splitting a list of different nodes separates two of them exactly if one is before the split and the other after it |
| `Simulator.PartitionIsolates` | nyx-conformance/src/network_simulator.rs:302-327 | while a separating partition stands, no packet from the one node to the other is admitted |
| `Simulator.NoLossWithoutCause` | nyx-conformance/src/network_simulator.rs:302-425 | from the start or a reset on, as long as no draw drops a packet and no complete partition is set up, nothing is lost |
| `Simulator.LossesHaveCauses` | nyx-conformance/src/network_simulator.rs:302-425 | in every interleaving the packets lost and being lost are exactly as many as the decisions at which the draw dropped the packet or a partition set up since the last reset stood between its ends |
| `Simulator.LimitIsLastSet` | nyx-conformance/src/network_simulator.rs:275-282 | the limit in force is the one set last |
| `Simulator.AdmittedIffWithinLimit` | nyx-conformance/src/network_simulator.rs:509-553 | a packet is admitted, and otherwise rejected, exactly if its bits and the usage of a window younger than a second stay within the limit set last |
| `Simulator.DeliveryReachable` | nyx-conformance/src/network_simulator.rs:302-361 | every packet that fits the limit alone can be delivered by a fresh started simulator |
| `ConnectionMonitor.AttemptIsAFlag` | nyx-cli/src/connection_monitor.rs:241-284 | in every interleaving the attempt stays within the maximum; with at least two attempts it is 1 exactly while in progress and 0 otherwise, and `Failed` is never reached |
| `ConnectionMonitor.AlwaysSafe` | nyx-cli/src/connection_monitor.rs:201-466 | the joint invariant of cells and tasks holds in every reachable state |
| `ConnectionMonitor.FailedOnlyWithOneAttempt` | nyx-cli/src/connection_monitor.rs:427-442 | status `Failed` is reachable if and only if reconnection is enabled with exactly one attempt |
| `ConnectionMonitor.BackoffTakesTwoValues` | nyx-cli/src/connection_monitor.rs:365-388 | every task that computes a delay has read attempt 1 or 0; its delay before jitter is the capped initial delay, or the capped quotient of initial delay and multiplier |
| `ConnectionMonitor.ZeroReadIfEnabled` | nyx-cli/src/connection_monitor.rs:241-247 | a task that has read attempt 0 is reachable if and only if reconnection is enabled with at least one attempt |
| `ConnectionMonitor.LongerDelayIff` | nyx-cli/src/connection_monitor.rs:373-387 | a delay above the capped initial one is reachable if and only if, in addition, the multiplier is from 0 to below 1 and the cap leaves room |
| `ConnectionMonitor.ExhaustionReachable` | nyx-cli/src/connection_monitor.rs:427-442 | with one attempt a run gives up with no task left, and can never resume |
| `ConnectionMonitor.ResumesIffTaskLeft` | nyx-cli/src/connection_monitor.rs:241-284 | once the attempts are used up with nothing in progress, some continuation starts a reconnection if and only if it is enabled with at least one attempt and some live task has not given up |
| `ConnectionMonitor.SpentForever` | nyx-cli/src/connection_monitor.rs:241-284 | without such a task the reconnection state never changes again in any continuation |
| `ConnectionMonitor.ResumableReachable` | nyx-cli/src/connection_monitor.rs:364-442 | with one attempt a run gives up while another task is alive, and can resume |
| `ConnectionMonitor.NeverAbandoned` | nyx-cli/src/connection_monitor.rs:364-463 | if successors can always be spawned, or fewer than two attempts are configured, some live task still carries the reconnection whenever it is in progress |
| `ConnectionMonitor.AbandonedOnlyWithTwoAttempts` | nyx-cli/src/connection_monitor.rs:443-463 | a state with the flag set and no task alive is reachable if and only if reconnection is enabled with at least two attempts |
| `ConnectionMonitor.AbandonedUntilSuccess` | nyx-cli/src/connection_monitor.rs:241-284 | from such a state nothing changes in the reconnection state before the first successful check |
| `ConnectionMonitor.SuccessReleases` | nyx-cli/src/connection_monitor.rs:241-247 | and exactly that check clears the flag |
| `ConnectionMonitor.AlwaysScored` | nyx-cli/src/connection_monitor.rs:212-270 | the counters are the successful and failed checks of the run, the stability times the number of checks is a hundred times the successful ones, and both rates stay in range |
| `ConnectionMonitor.LossRateIsShare` | nyx-cli/src/connection_monitor.rs:257-268 | in every run the loss rate is the share of failed checks at the last failed check, and zero if there was none |
| `ConnectionMonitor.StatusAfterSuccess` | nyx-cli/src/connection_monitor.rs:212-238 | a successful check leaves Healthy exactly with at most 5% of all checks failed and an average latency below 100 ms, otherwise Degraded exactly with at most 20% and below 500 ms, otherwise Unstable |
| `ConnectionMonitor.StatusAfterStep` | nyx-cli/src/connection_monitor.rs:257-438 | the status that every other kind of step leaves |
| `ConnectionMonitor.LatencyWithinSamples` | nyx-cli/src/connection_monitor.rs:218-223 | in every run the average latency lies within the latencies measured, and is zero before the first |
| `ConnectionMonitor.StoredDelay` | nyx-cli/src/connection_monitor.rs:373-387 | the stored delay is the capped delay in whole milliseconds rounded down, with jitter of a value from 0.8 to 1.2 times it, and zero if it is negative |
| `ConnectionMonitor.DelayKept` | nyx-cli/src/connection_monitor.rs:240-253 | the stored delay is the initial delay from a reset on, 500 from the start on, until a task stores one |
| `ConnectionMonitor.SharedCells.HealthCheckSucceeded` | nyx-cli/src/connection_monitor.rs:212-253 | performs the success section of the health loop |
| `ConnectionMonitor.SharedCells.HealthCheckFailed` | nyx-cli/src/connection_monitor.rs:257-285 | performs the failure section and tells whether a task is spawned |
| `ConnectionMonitor.SharedCells.ComputeDelay` | nyx-cli/src/connection_monitor.rs:372-388 | performs a reconnection task's delay section |
| `ConnectionMonitor.SharedCells.ProbeRefused` | nyx-cli/src/connection_monitor.rs:423-434 | after a failed probe a task gives up exactly when its attempt reaches the maximum |
| `Regression.DenominatorClosedForm` | nyx-cli/src/performance_analyzer.rs:961-968 | twelve times the denominator is `n^2 (n^2 - 1)` |
| `Regression.TwoValuesAreRegular` | nyx-cli/src/performance_analyzer.rs:957-968 | from two values on the denominator is positive |
| `Regression.NormalEquations` | nyx-cli/src/performance_analyzer.rs:968-969 | the computed slope and intercept solve the normal equations |
| `Regression.LeastSquares` | nyx-cli/src/performance_analyzer.rs:956-973 | no line has a smaller sum of squared residuals, and only the computed line attains the minimum |
| `Regression.ForecastExactOnLines` | nyx-cli/src/performance_analyzer.rs:956-973 | on data `a + b*i` slope and intercept are `b` and `a` and the forecast is `a + b*(n + steps - 1)` |
| `Regression.ForecastOnBestLine` | nyx-cli/src/performance_analyzer.rs:956-973 | for every series the forecast lies on the line of least squared residuals; without a line it is the only value, or zero |
| `Regression.ChebyshevSum` | nyx-cli/src/performance_analyzer.rs:492-498 | a non-decreasing series has a non-negative slope numerator, positive unless it is constant |
| `Regression.MonotoneSlope` | nyx-cli/src/performance_analyzer.rs:492-498 | a non-decreasing series has slope at least 0, and above 0 exactly if it rises at all |
| `Regression.MonotoneNeverDegrading` | nyx-cli/src/performance_analyzer.rs:481-515 | a non-decreasing series is never labelled Degrading |
| `Regression.ReverseNegatesSlope` | nyx-cli/src/performance_analyzer.rs:492-498 | reversing a series negates its slope |
| `Regression.ReverseSwapsTrend` | nyx-cli/src/performance_analyzer.rs:481-515 | reversing swaps Improving and Degrading and keeps Stable and Volatile |
| `Regression.LabelMeans` | nyx-cli/src/performance_analyzer.rs:481-515 | for three or more values: Volatile exactly if the mean is not zero and the mean squared deviation exceeds 0.09 times its square; otherwise Improving, Degrading or Stable exactly as the slope of the line of least residuals is at least 0.01, at most -0.01 or between |
| `Regression.ShortSeriesStable` | nyx-cli/src/performance_analyzer.rs:488-490 | fewer than three values are Stable |
| `Regression.LineLabels` | nyx-cli/src/performance_analyzer.rs:481-515 | the same for data `a + b*i`, in closed form |
| `Analyzer.WindowAndBaseline` | nyx-cli/src/performance_analyzer.rs:276-286 | after any run the window is the most recent `min(count, max(1, size))` points; the baseline is unset below size 10 and otherwise the mean of the first ten points, fixed at the tenth |
| `Analyzer.PerformanceAnalyzer.AddDataPoint` | nyx-cli/src/performance_analyzer.rs:276-286 | appends to the run, keeps the window the latest points, and never replaces a baseline |
| `Analyzer.PerformanceAnalyzer.EstablishBaseline` | nyx-cli/src/performance_analyzer.rs:919-953 | sets the means of the window, or nothing below ten points |
| `Analyzer.BaselineMeans` | nyx-cli/src/performance_analyzer.rs:919-953 | each baseline field times the number of points is the sum of its own quantity over them |
| `Analyzer.ErrorRateMeans` | nyx-cli/src/performance_analyzer.rs:919-953 | the error rate times the requests is a hundred times the failed ones, and zero without requests |
| `Analyzer.PerformanceAnalyzer.AnalyzeTrend` | nyx-cli/src/performance_analyzer.rs:481-488 | the label is that of the latest points that fit the window |
| `FileTransfer.ChunkBounds` | nyx-cli/src/main.rs:1193 | a chunk is counted exactly if its offset lies inside the file, and only the last one reaches the end |
| `FileTransfer.ChunksPartitionFile` | nyx-cli/src/main.rs:1276-1299 | the chunks are non-empty, in order, at most one chunk size, concatenate to the file, and only the last is final |
| `FileTransfer.PayloadIsPrefix` | nyx-cli/src/main.rs:1276-1299 | the first `k` chunks carry exactly the first `k` chunk sizes of the file |
| `FileTransfer.SendFile` | nyx-cli/src/main.rs:1276-1366 | terminates; succeeds exactly when the network acknowledges every chunk within `max_retries + 1` sends; completed chunks form a prefix whose size is the byte counter; the log is exactly the planned repetitions, plus one full budget of the failing chunk |
| `FileTransfer.SendChunk` | nyx-cli/src/main.rs:1303-1358 | sends copies until the first acknowledgement or until the budget is spent, and updates bitmap, bytes and error count accordingly |
| `FileTransfer.SendNextChunk` | nyx-cli/src/main.rs:1276-1364 | one turn sends the first missing chunk and either extends the completed prefix or shows that no transfer can complete |
| `FileTransfer.PlanUnique` | nyx-cli/src/main.rs:1303-1358 | the network determines how often each chunk is sent |
| `FileTransfer.ExhaustedNeverCompletes` | nyx-cli/src/main.rs:1360-1364 | where one chunk exhausts the budget no plan completes the transfer |
| `FileTransfer.SendsPerChunk` | nyx-cli/src/main.rs:1303-1358 | in a completed run every chunk is sent at least once and at most `max_retries + 1` times, exactly as planned |
| `FileTransfer.SendsOfFailedRun` | nyx-cli/src/main.rs:1303-1364 | in a failed run the completed chunks are sent as planned, the failing one exactly `max_retries + 1` times, later ones never |
| `FileTransfer.FileTransferSession.NextMissingChunk` | nyx-cli/src/main.rs:801-806 | the first incomplete chunk, or the chunk count if there is none |
| `FileTransfer.FileTransferSession.MarkChunkCompleted` | nyx-cli/src/main.rs:808-816 | counts a chunk's bytes once; a completed or unknown chunk changes nothing |
| `PropertyTester.ShrinkCounterexample` | nyx-conformance/src/property_tester.rs:264-309 | the result fails, is reached through successive first failing candidates within the budget, and if the budget is not spent no candidate of it fails |
| `PropertyTester.PathEndsAtShrunk` | nyx-conformance/src/property_tester.rs:274-300 | every such chain ends at one and the same value |
| `PropertyTester.U32Decreases` | nyx-conformance/src/property_tester.rs:378-391 | along every u32 shrink path the value strictly decreases |
| `PropertyTester.U32CandidatesInRange` | nyx-conformance/src/property_tester.rs:378-391 | candidates stay at or above the minimum if and only if `value <= min + 1` or `value >= 2 * min` |
| `PropertyTester.LeavesRangeIff` | nyx-conformance/src/property_tester.rs:264-391 | some property makes the shrinker return a counterexample below the minimum if and only if the minimum is at least 3 and the original at least 2 above it |
| `PropertyTester.ThresholdShrink` | nyx-conformance/src/property_tester.rs:264-391 | for a property failing exactly from `t` on the result is `max(t, min)` if and only if the budget covers the computed number of steps |
| `PropertyTester.ThresholdBudget` | nyx-conformance/src/property_tester.rs:264-391 | `original - max(t, min)` attempts always suffice |
| `PropertyTester.BytesCandidates` | nyx-conformance/src/property_tester.rs:416-438 | all candidates but the last are shorter, and the vector itself is a candidate exactly if it starts with zero |
| `PropertyTester.BytesCandidatesInRange` | nyx-conformance/src/property_tester.rs:416-438 | candidates are never below the minimum length if and only if there is no minimum, nothing to shrink, or one byte that is the minimum; with two failing instances |
| `PropertyTester.RepeatsIffStuck` | nyx-conformance/src/property_tester.rs:274-438 | the byte-vector shrinker moves from a vector to itself if and only if it starts with zero, fails, and no other candidate fails; then it moves nowhere else |
| `PropertyTester.ByteStepDecreases` | nyx-conformance/src/property_tester.rs:416-438 | every other step lowers the length, or the length and the flag of a non-zero first byte |
| `PropertyTester.StuckSpendsBudget` | nyx-conformance/src/property_tester.rs:274-300 | once such a vector is reached it is repeated until the whole budget is spent |
| `PropertyTester.UnstuckEndsEarly` | nyx-conformance/src/property_tester.rs:274-300 | otherwise the loop takes at most `length + 1` steps, whatever the budget |
| `PropertyTester.BudgetSpentIffStuck` | nyx-conformance/src/property_tester.rs:274-300 | with more attempts than that the budget is spent if and only if such a vector is reached |
| `PropertyTester.LengthThresholdShrink` | nyx-conformance/src/property_tester.rs:274-438 | for a property failing exactly from `t >= 1` bytes on, the byte-vector shrinker reaches length `t` if and only if the budget covers the halvings and single steps needed |
| `PropertyTester.RunCases` | nyx-conformance/src/property_tester.rs:198-236 | cases run up to and including the first failure, with exact counters and history |
| `PropertyTester.HistoryAt` | nyx-conformance/src/property_tester.rs:198-222 | case `i` is run on draw `i`, with a size that grows by one every ten cases up to the maximum |
| `PropertyTester.RunPropertyTest` | nyx-conformance/src/property_tester.rs:188-259 | the counts add up, at most one case fails, a counterexample is reported exactly if some draw fails, as the end of a shrink chain from the first failing draw, and the success rate times the cases is the number passed |
| `LatencyStats.PercentileMonotone` | nyx-cli/src/latency_collector.rs:253-268 | interpolation is monotone in the percentile across segments and stays between minimum and maximum |
| `LatencyStats.PercentilesOrdered` | nyx-cli/src/latency_collector.rs:234-250 | p50 up to p99.99 are ordered and within the range of the sample |
| `LatencyStats.PercentilesOrderFree` | nyx-cli/src/latency_collector.rs:234-250 | the percentiles do not depend on the recording order |
| `LatencyStats.PercentileValue` | nyx-cli/src/latency_collector.rs:253-268 | on a sorted sample, where `(n - 1) * p` lies between `100*k` and `100*(k + 1)`, a hundred times the percentile is the sum of values `k` and `k + 1` weighted by the distances to the opposite ends |
| `LatencyStats.PercentileInterpolates` | nyx-cli/src/latency_collector.rs:253-268 | every percentile is interpolated in this way, with the cases of one and of no value |
| `LatencyStats.InterpolationUnique` | nyx-cli/src/latency_collector.rs:253-268 | and no other value is |
| `LatencyStats.PercentileEnds` | nyx-cli/src/latency_collector.rs:253-268 | percentile 0 is the first and percentile 100 the last value |
| `LatencyStats.FieldsInterpolate` | nyx-cli/src/latency_collector.rs:234-250 | the eight fields interpolate at 50, 75, 90, 95, 99, 99.5, 99.9 and 99.99 in any ordered arrangement of the latencies |
| `LatencyStats.SortedUnique` | nyx-cli/src/latency_collector.rs:235-236 | the sorted copy is determined by the sample, so any sorting algorithm gives it |
| `LatencyStats.CalculateDistribution` | nyx-cli/src/latency_collector.rs:334-379 | twenty consecutive buckets from the minimum to just above the maximum, each with its exact count; none for an empty sample |
| `LatencyStats.HistogramPartitions` | nyx-cli/src/latency_collector.rs:347-372 | every latency lies in exactly one bucket and the counts sum to the sample size, also for width zero |
| `LatencyStats.HistogramShape` | nyx-cli/src/latency_collector.rs:347-372 | bucket `i` starts `i` twentieths of the way from minimum to maximum and ends where the next starts, the last one 0.001 above the maximum |
| `LatencyStats.HistogramShares` | nyx-cli/src/latency_collector.rs:360-370 | each percentage times the sample size is a hundred times the count |
| `ErrorWindows.WindowsTile` | nyx-cli/src/error_tracker.rs:1245-1283 | the windows are consecutive non-empty maximal segments that cover the whole list |
| `ErrorWindows.WindowIsComplete` | nyx-cli/src/error_tracker.rs:1248-1255 | for time-ordered errors a window holds exactly the later errors within its span |
| `ErrorWindows.CategoriesExact` | nyx-cli/src/error_tracker.rs:1261-1267 | the category list is duplicate-free and holds exactly the categories of the window |
| `ErrorWindows.DetectAnomalousSpikes` | nyx-cli/src/error_tracker.rs:1237-1286 | the nested loops report, in order, one spike for each window of the tiling with at least six errors, with its size and exactly its categories, and none for the others |
| `ErrorWindows.SpikesReport` | nyx-cli/src/error_tracker.rs:1257-1281 | the same for every list of windows: as many spikes as windows of at least six errors, each window described by the spike at its place in order |
| `ErrorWindows.CategoriesInOrder` | nyx-cli/src/error_tracker.rs:1261-1267 | each category is that of some error in the window, and the categories before it are exactly those of the errors before |
| `ErrorWindows.MagnitudesBound` | nyx-cli/src/error_tracker.rs:1257-1281 | every spike exceeds the threshold with duplicate-free categories, and magnitudes sum to at most the windows' sizes |
| `ErrorWindows.SpikesWithinErrors` | nyx-cli/src/error_tracker.rs:1237-1286 | magnitudes sum to at most the number of errors |
| `ErrorWindows.CreateTimeBuckets` | nyx-cli/src/error_tracker.rs:1399-1423 | bucket counts are exact and sum to the errors between the first error and the end of the last bucket |
| `ErrorWindows.BucketsCoverIff` | nyx-cli/src/error_tracker.rs:1404-1420 | for time-ordered errors and any bucket size of at least one second the counts cover all errors if and only if the last error lies before the end of the last bucket |
| `ErrorWindows.BucketsCoverIffShort` | nyx-cli/src/error_tracker.rs:1404-1420 | for whole seconds that is if and only if the span is under one bucket; otherwise exactly the final partial bucket is omitted, and the last error lies in it |
| `Prober.ProberAccounts` | nyx-control/src/probe.rs:90-125 | over every run each ping is pending or was credited once, to its own node; pending plus credited equals built; estimates are the smoothed series of the node's own samples |
| `Prober.SmoothedInRange` | nyx-control/src/probe.rs:41-57 | a smoothed estimate stays within the range of its samples |
| `Prober.Convergence` | nyx-control/src/probe.rs:41-57 | from a positive estimate `k` equal positive samples shrink the distance to them by `0.8^k` |
| `Prober.RttWithinOwnSamples` | nyx-control/src/probe.rs:104-113 | in every run a node's RTT lies within the RTTs measured for it |
| `Prober.BandwidthWithinOwnSamples` | nyx-control/src/probe.rs:118-125 | in every run a node's bandwidth lies within the rates reported for it |
| `Prober.RttBwProber.BuildPing` | nyx-control/src/probe.rs:90-100 | the nonce is the first drawn one that is not outstanding, recorded for the node |
| `Prober.RttBwProber.OnPong` | nyx-control/src/probe.rs:104-113 | an outstanding nonce is removed and credited, any other changes nothing |
| `Prober.RttBwProber.RecordBytes` | nyx-control/src/probe.rs:118-125 | updates only the node's bandwidth estimate |
| `Prober.FirstRoundTrip` | nyx-control/src/probe.rs:90-113 | the first answered ping of a node sets its RTT to the milliseconds between sending and answer |
| `Prober.FirstReport` | nyx-control/src/probe.rs:118-125 | the first report sets the bandwidth so that megabits per second times seconds are the bits |
| `Settings.ParseBuild` | nyx-stream/src/management.rs:122-142 | parsing a built payload returns the settings |
| `Settings.BuildParse` | nyx-stream/src/management.rs:122-142 | parsing succeeds exactly on a multiple of six bytes, and rebuilding returns the bytes |
| `Settings.ParseSettingsFrame` | nyx-stream/src/management.rs:132-142 | the loop computes the recursive parser, including its error |
| `Settings.SettingLayout` | nyx-stream/src/management.rs:122-130 | a setting is six bytes: the identifier in two, the value in four, most significant byte first |
| `Settings.FrameIsConcatenation` | nyx-stream/src/management.rs:122-130 | a payload is the concatenation of its settings |
| `Settings.ApplyIsLastValue` | nyx-stream/src/settings.rs:29-40 | merging takes the last value of each known id and keeps the others; the timeout is truncated to 16 bits |
| `Settings.SettingsRoundTrip` | nyx-stream/src/settings.rs:29-51 | a peer that merges an encoded frame ends with exactly the sender's settings |
| `Settings.EncodeInjective` | nyx-stream/src/settings.rs:43-51 | equal frames come from equal settings |
| `Settings.EncodeLists` | nyx-stream/src/settings.rs:43-51 | what is sent are the four settings with identifiers 1 to 4 in order |
| `SettingsSync.FrameEncodesObserved` | nyx-control/src/settings_sync.rs:36-57 | in every run the broadcast frame encodes the last observed local settings whatever arrives inbound |
| `SettingsSync.BroadcastReaches` | nyx-control/src/settings_sync.rs:45 | the last frame that got through to a kept handle is the broadcast one, a dropped handle has a full or closed channel |
| `SettingsSync.ChangeReachesPeers` | nyx-control/src/settings_sync.rs:41-46 | the same after each local change, for the frame of the new settings |
| `SettingsSync.PeersCurrent` | nyx-control/src/settings_sync.rs:38-62 | in every run, whatever receivers do, the last frame that got through to each registered handle is the current one, unless its channel refused it at a registration since the last change |
| `SettingsSync.WatchIsLastSet` | nyx-control/src/settings_sync.rs:38-62 | in every run the watched value is that of the last local change, so inbound frames are never published on it |
| `SettingsSync.OnlyLocalSettingsSent` | nyx-control/src/settings_sync.rs:38-62 | in every run whatever gets through to any handle encodes the initial settings or those of a local change, never the view merged from inbound frames |
| `SettingsSync.MergedViewStaysPrivate` | nyx-control/src/settings_sync.rs:49-56 | an instance: an inbound frame with other settings changes the private copy and neither the watched value nor the broadcast frame |
| `SettingsSync.PrivateIsMerged` | nyx-control/src/settings_sync.rs:38-56 | in every run the private copy is the settings observed last, overridden by the last value that the frames received since then give for each |
| `SettingsSync.SeesIffWaiting` | nyx-control/src/settings_sync.rs:38-56 | the loop finds a change to broadcast exactly if one was announced and neither seen nor swallowed by a well-formed frame since |
| `SettingsSync.ChannelFillsUp` | nyx-control/src/settings_sync.rs:45-58 | a channel that nobody reads takes frames in order until it is full and refuses the rest |
| `SettingsSync.StaleStep` | nyx-control/src/settings_sync.rs:38-62 | a step leaves the broadcast stale exactly if it is no local change and either it was stale or a well-formed inbound frame swallows a waiting change |
| `SettingsSync.StaleIffSwallowed` | nyx-control/src/settings_sync.rs:38-62 | in every run the broadcast is stale if and only if an inbound frame swallowed a change and no local change was made since; equivalently if nothing waits to be seen and the configured settings are not the ones observed last |
| `SettingsSync.LostUpdate` | nyx-control/src/settings_sync.rs:49-56 | an empty inbound frame right after a local change hides that change from every peer |
| `SettingsSync.Synchroniser.OnChanged` | nyx-control/src/settings_sync.rs:41-46 | re-encodes the settings and keeps exactly the handles whose send succeeded |
| `SettingsSync.Synchroniser.OnInbound` | nyx-control/src/settings_sync.rs:49-56 | merges a well-formed frame into the private copy and marks the watch as seen; a malformed one changes nothing |
| `Throughput.OverheadWithinSent` | nyx-cli/src/throughput_measurer.rs:219-231 | the estimate is at most the bytes sent if and only if at least 72 bytes are sent |
| `Throughput.EfficiencyComplements` | nyx-cli/src/throughput_measurer.rs:170-184 | without underflow efficiency is in [0, 100], complements the overhead percentage, and the latter is the overhead's share of the bytes sent |
| `Throughput.OverheadInIntegers` | nyx-cli/src/throughput_measurer.rs:219-231 | twenty times the estimate is 960 plus 7 per byte, less an exact truncation residue |
| `Throughput.EfficiencyOfRuns` | nyx-cli/src/throughput_measurer.rs:88-184 | for every run, mixed sizes included, the subtraction underflows if and only if something is sent and 13 times the bytes plus the residues is below 960 per transfer; so never if all transfers have at least 72 bytes, and always if all have fewer |
| `Throughput.ThroughputMeasurer.RecordTransfer` | nyx-cli/src/throughput_measurer.rs:88-131 | totals and overhead list follow the list of transfers |
| `Throughput.ThroughputMeasurer.Percentages` | nyx-cli/src/throughput_measurer.rs:170-184 | defined exactly if the subtraction does not underflow, and then correct for all transfers so far |
| `PathScheduler.NeverOverserved` | nyx-stream/src/scheduler.rs:80-92 | from any balanced table, however ties are broken, no path is selected a full turn more than its share plus its credit |
| `PathScheduler.NeverStarved` | nyx-stream/src/scheduler.rs:80-92 | nor does any path fall behind its share by more than one turn per other path |
| `PathScheduler.ExactRound` | nyx-stream/src/scheduler.rs:80-92 | over whole rounds of the total weight every path is selected exactly in proportion to its weight and all credits return to zero |
| `PathScheduler.Ledger` | nyx-stream/src/scheduler.rs:80-92 | a path's credit is its start plus its weight per selection minus the total weight per own selection |
| `PathScheduler.RunKeepsBalanced` | nyx-stream/src/scheduler.rs:80-92 | over selections from a balanced table credits sum to zero and no path is a whole round in debt |
| `PathScheduler.CreditsSumToRemoved` | nyx-stream/src/scheduler.rs:53-92 | over every history that mixes updates, removals and selections the credits sum to minus what removed paths took with them |
| `PathScheduler.UpdateKeepsValid` | nyx-stream/src/scheduler.rs:53-67 | the total weight stays the sum of the weights and the credits keep their sum |
| `PathScheduler.UpdateKeepsBalanced` | nyx-stream/src/scheduler.rs:53-67 | adding a path or raising a weight keeps the balance that the bounds need |
| `PathScheduler.RemoveKeepsValid` | nyx-stream/src/scheduler.rs:70-74 | removal keeps the total weight exact and takes the path's credit out of the sum |
| `PathScheduler.WeightAntitone` | nyx-stream/src/scheduler.rs:53-55 | a faster path never gets a smaller weight |
| `PathScheduler.WeightIsInverse` | nyx-stream/src/scheduler.rs:53-55 | the weight times the RTT is 1000 up to half the RTT, for RTTs from 1 to 2000; below it is 1000, above it is 1 |
| `PathScheduler.FreshCreditBounds` | nyx-stream/src/scheduler.rs:80-92 | selections from a fresh table keep every credit above minus 256000 and at most 65280000 |
| `PathScheduler.PickKeepsTame` | nyx-stream/src/scheduler.rs:80-92 | a selection keeps every set of paths within its room of credit, however ties are broken |
| `PathScheduler.NoOverflow` | nyx-stream/src/scheduler.rs:35-92 | over every history that mixes updates, removals and selections the stored and the raised credits and the total weight stay within 32 bits |
| `PathScheduler.ServiceFollowsWeights` | nyx-stream/src/scheduler.rs:53-92 | over every such history with at most `n` paths of at most `w` weight together, what a path pays by being selected stays within `w * (2n - 2)` of what its weight earned since it was added |
| `PathScheduler.DispatchFollowsWeights` | nyx-stream/src/scheduler.rs:80-92 | from every table that such a history leads to, selections times total weight stay within twice that bound of the share by weight |
| `PathScheduler.WeightedRrScheduler.UpdatePath` | nyx-stream/src/scheduler.rs:53-67 | performs the update step: the stored weight is inversely proportional to the RTT, the credit is kept or zero, all other paths keep theirs, and the table stays valid |
| `PathScheduler.WeightedRrScheduler.RemovePath` | nyx-stream/src/scheduler.rs:70-74 | performs the removal step, leaves all other paths as they were and keeps the table valid |
| `PathScheduler.WeightedRrScheduler.Next` | nyx-stream/src/scheduler.rs:80-92 | returns none exactly without paths, otherwise a path of maximal credit, and keeps validity and balance |
| `DelayFunction.Eval` | nyx-mix/src/vdf.rs:43-49 | `t` squarings compute `x^(2^t) mod n`, and `x` itself for `t == 0` |
| `DelayFunction.FastPow2` | nyx-mix/src/vdf.rs:91-98 | squaring by multiplication and remainder computes the same value |
| `DelayFunction.Prove` | nyx-mix/src/vdf.rs:53-70 | output and proof element, and the exact condition under which they verify |
| `DelayFunction.ProveMont` | nyx-mix/src/vdf.rs:89-112 | the faster prover returns the same pair |
| `DelayFunction.VerifierComputesPower` | nyx-mix/src/vdf.rs:74-85 | for an honest proof element the verifier accepts exactly `x^(2^t) mod n` |
| `DelayFunction.AcceptedProofs` | nyx-mix/src/vdf.rs:74-85 | for any claim, honest or not, the verifier accepts exactly if `pi^l * x^(2^t mod l)` is `y` modulo `n` |
| `DelayFunction.Completeness` | nyx-mix/src/vdf.rs:53-85 | honest proofs verify if and only if `t > 0` or `x < n` |
| `DelayFunction.UnreducedInputFails` | nyx-mix/src/vdf.rs:43-85 | a concrete honest proof that is rejected |
| `DelayFunction.ResidueNonZero` | nyx-mix/src/vdf.rs:81 | the verifier's branch for a zero residue is never taken |
| `Cmix.AddAccumulates` | nyx-mix/src/accumulator.rs:65-70 | adding an element gives the accumulator of the longer list |
| `Cmix.OrderIrrelevant` | nyx-mix/src/accumulator.rs:5-9 | the accumulated exponent depends only on the multiset of elements |
| `Cmix.MembershipWitness` | nyx-mix/src/accumulator.rs:5-9 | every element verifies against the accumulator of all the others |
| `Cmix.StaleWitness` | nyx-mix/src/accumulator.rs:65-77 | an old witness verifies against a later value if and only if that is again the value it was issued for |
| `Cmix.StaleWitnessFails` | nyx-mix/src/accumulator.rs:65-77 | a concrete witness that fails after one more addition |
| `Cmix.RefreshWitness` | nyx-mix/src/accumulator.rs:65-77 | raised to the later elements it verifies again |
| `Cmix.RsaAccumulator.Add` | nyx-mix/src/accumulator.rs:65-70 | extends the accumulated list and returns a witness that verifies against the new value |
| `Cmix.RsaAccumulator.Verify` | nyx-mix/src/accumulator.rs:74-77 | checks membership against the accumulated list |
| `Cmix.RunSound` | nyx-mix/src/cmix.rs:81-129 | in every run the buffer stays below the batch size, received packets are buffered or emitted exactly once, and the accumulator is that of all batches |
| `Cmix.TimeoutFlushes` | nyx-mix/src/cmix.rs:81-129 | after a turn without an arrival nothing is buffered and everything received was emitted |
| `Cmix.FullBatches` | nyx-mix/src/cmix.rs:81-129 | with arrivals only, the number of batches and the size of the buffer are quotient and remainder of the arrivals by the batch size |
| `Cmix.HonestBatchVerifies` | nyx-mix/src/cmix.rs:149-171 | an honest batch verifies if and only if its delay proof does |
| `Cmix.ReplacedPackets` | nyx-mix/src/cmix.rs:149-171 | an honest batch with other packets verifies if and only if they have the same hash and its delay proof verifies |
| `Cmix.ReplacedDigest` | nyx-mix/src/cmix.rs:149-171 | with another digest it verifies only if that is the hash of its packets |
| `Cmix.ReplacedOutput` | nyx-mix/src/cmix.rs:149-171 | with another output it verifies if and only if that is the hash to the power `2^t` modulo `n` |
| `Cmix.ReplacedProof` | nyx-mix/src/cmix.rs:149-171 | with any proof element and number of squarings it verifies if and only if they satisfy the proof equation for its hash and output |
| `Cmix.ReplacedMembership` | nyx-mix/src/cmix.rs:149-171 | with any evidence and accumulator value it verifies if and only if the evidence to the power of the batch's prime is that value, and its delay proof verifies |
| `Cmix.ReplacedValue` | nyx-mix/src/cmix.rs:149-171 | with its own evidence that is only the value accumulated from the earlier elements and its own |
| `Cmix.ConfiguredDelayNotChecked` | nyx-mix/src/cmix.rs:149-171 | a consistent batch for any number of squarings verifies under the same condition, whatever number is configured |
| `Cmix.EveryBatchVerifies` | nyx-mix/src/cmix.rs:81-171 | every emitted batch is non-empty, within the size, verifies under exactly that condition, and its witness is the value published with the batch before it |
| `Cmix.OldBatchStillProvable` | nyx-mix/src/cmix.rs:107-121 | an old batch stays provable against the current accumulator |
| `Cmix.CmixController.Turn` | nyx-mix/src/cmix.rs:81-129 | one loop turn performs the step of the specification and emits exactly when a batch is due |

## Left out

- gRPC, files, terminals, tables, progress bars, the async runtime, locks and sleeping: they appear only as arbitrary replies and interleaved steps.
- Floating-point rounding, NaN and infinity, and the width of counters other than where a row says so.
- Random distributions, latency sampling, packet timestamps, wall-clock fields, event notifications and recommendation texts.
- The latency of a delivery: the simulator computes one and ignores it.
- `send_file` before and after its chunk loop (metadata, checksums, completion message), and its backoff durations.
- The early exit of the chunk loop at end of file: with an unchanged file every counted chunk is non-empty, so it is never taken.
- The categorizer's keyword matching, cyclic patterns, correlation and the error counters of `record_error`: the categorizer is an arbitrary function, the rest would only add easy members.
- SHA-256, hash-to-prime, key ceremony and the hardness assumptions behind accumulator and delay function.
- Frames other than SETTINGS, FEC, congestion control, reordering, cover traffic, plugins and the daemon.
- The settings loop after the local sender is gone, and the batcher after its output is closed.
- Regression.ReverseSwapsTrend: compares the variance with 0.09 times the squared mean instead of taking a square root.
- FileTransfer.SendFile: a read returns a whole chunk or the rest of the file; short reads are not modelled.
- Prober.RttBwProber.BuildPing: terminates only if some draw is not outstanding, which the draws are required to contain.
- Prober.RttBwProber.RecordBytes: requires a positive elapsed time; a zero time gives infinity or NaN, which exact reals lack.
- ErrorWindows.CreateTimeBuckets: requires a bucket size of at least one second unless the list is empty; below that the source divides by zero.
- SettingsSync.BroadcastReaches: the sends of one broadcast are one step, so no receiver drains in between.
- SettingsSync.PeersCurrent: about the frames that this loop sends; other senders into the same channels are not modelled.
- Cmix.CmixController.Turn: the deadline is an arbitrary choice between an arrival and a timeout.
- Simulator.NetworkSimulator.SendPacket: the loss draw is a parameter, and the object-level method has no other task between its sections; the interleavings are those of `Simulator.Conservation`.
