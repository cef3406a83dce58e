# Verified model of NetAnvil

NetAnvil generates load: a timer thread fires requests into per-core I/O workers, per-core collectors
report to a coordinator, and a leader spreads a rate over agents. This project models its state machines,
wire formats and resource accounting in Dafny and proves what they promise. One module per component:

- `Pipeline`, `PipelineTheorems`, `PipelineReports`, `PipelineTraces`: timer, bounded channels, workers, tasks
  and coordinator as a transition system; theorems over every interleaving, and what every field of a reached
  state says about the moves that led there. `Threads` has the same actions as objects that update their
  fields, each method proved to be the action of the system it stands for.
- `Metrics`, `Collectors`, `Figures`: collector and aggregate; sharding over cores and windows cannot be
  observed in the totals, and every figure is what the raw fields of the results make it.
- `Resp`, `Framing`, `Dns` (over `Bytes`): wire formats, each with an independent grammar or decoder.
- `Throttle`, `TcpPool`, `Lifecycle`, `SlidingWindow`, `Hybrid`, `LossTracker`: rate, connection, window,
  selection and loss accounting.
- `Distributed`, `ResultStore`: rate shares and totals with failing nodes; the index and its files.

Conventions. Floating point is `real`; counters and instants are unbounded integers, instants and delays in
nanoseconds. A histogram is the multiset of values it accepted. Randomness, clocks, controllers, schedulers
and replies from the network are parameters or nondeterministic choices. In the transition systems, fields
marked "history" are not in the program; they record what happened so that theorems can speak of it.

Where the code does not do what one would expect, the model follows the code and the theorem gives the exact
condition:

- RESP: any byte after CR ends a line, and a line may overrun the budget by one byte (`Resp.RoundTrip`).
- TCP pool: a request dropped by its timeout never returns its slot, so as many timeouts as the limit shut the
  pool for good (`TcpPool.ShutWhen`, `TcpPool.TimeoutsShutPool`).
- Lifetimes: the HTTP transformer counts the closing request as the first of the next connection, the TCP
  executor does not, so the same limits close at different requests unless all redrawn ones are zero
  (`Lifecycle.ClosesDrift`); an HTTP limit of zero acts as one after the first close.
- Hybrid generator: fair exactly when every weight is whole (`Hybrid.ExactlyFair`).
- Result store: pruning goes by position, not by time, so a test that finishes late can lose its result as it
  is saved (`ResultStore.LateFinisherLost`); the id "index" overwrites the index (`ResultStore.SaveAgreesIff`).
- UDP loss tracker: an advance is clamped to one window, so a response two windows past the base marks the
  wrong packet (`LossTracker.Tracker.OnReceive`, `LossTracker.FirstMismark`).
- Leader: when no active node has a core, the old weights stay and the shares sum to zero
  (`Distributed.RateConserved`).
- The aggregate sums in-flight counts and capacities over snapshots, not over cores, so a worker that reports twice
  within a tick is counted twice (`PipelineReports.CapacityReported`, `PipelineReports.CountedTwice`).
- Request ids are distinct exactly as long as no worker has run beyond its billion into the range of a higher-numbered
  one that has started a request (`PipelineReports.RequestIdsDistinct`, `PipelineReports.IdsCollide`).
- A rate share whose sending fails is not sent again before the next tick, and the agent keeps its own rate
  (`Distributed.SchedulersSumToDecision`).

## Model

| member | source | states |
|---|---|---|
| `PipelineTheorems.Conservation` | crates/netanvil-core/src/timer_thread.rs:138-195 | In every state of every interleaving, the instants popped for a worker are exactly its channel-full losses, disconnected losses, queued Fires, in-flight drops, permits outstanding and results recorded; permits never exceed a nonzero limit; drop deltas on all snapshots plus the unreported remainder are the drop counter, with no remainder on either normal exit path |
| `PipelineTheorems.ExactMerge` | crates/netanvil-core/src/timer_thread.rs:78-195 | For any nondecreasing schedulers and interleaved commands: popped entries are in (time, worker) order, at most one heap entry per worker, each worker's popped instants are a prefix of its scheduler's outputs missing at most the pending one, and all of them once the heap is empty, dropped Fires included |
| `PipelineTheorems.ShutdownLosesNothing` | crates/netanvil-core/src/io_worker.rs:80-167 | On every run nothing follows a Stop in any channel, and a worker that left its loop through Stop or disconnection was given every Fire its channel accepted |
| `PipelineTraces.FiresCarryInstants` | crates/netanvil-core/src/timer_thread.rs:138-195 | On every run, what was popped for a worker is what the dispatch moves popped for it; its channel accepted exactly those that found a receiver and room, in order, each Fire carrying the popped instant and the moment of sending; the full and disconnected losses are exactly the others |
| `PipelineTraces.AcceptedPopped` | crates/netanvil-core/src/timer_thread.rs:150-195 | On every run the accepted Fires' intended instants are a subsequence of the instants popped for the worker, and as a multiset they are those popped less those refused and lost |
| `PipelineTraces.RequestsCarryStamps` | crates/netanvil-core/src/io_worker.rs:232-316 | On every run a worker's tasks and results together carry exactly the stamps of the Fires received with a permit free: intended and sent instants and the clock readings at receipt and dispatch; its drops are exactly the other Fires received; its results are those its tasks completed with, in order |
| `PipelineTraces.ChannelFifo` | crates/netanvil-core/src/timer_thread.rs:103-130 | On every run a channel holds, in order, what was put into it less what was received from it |
| `PipelineTraces.SnapshotsSent` | crates/netanvil-core/src/io_worker.rs:174-226 | On every run a worker's snapshots, taken and waiting, are one per report, each carrying exactly the results recorded and drops counted since the one before, the requests in flight and the limit |
| `PipelineTraces.AggregatesTaken` | crates/netanvil-core/src/coordinator.rs:371-398 | On every run the tick aggregate is one collector's over exactly the snapshots taken since the last tick and before the final drains, the total one collector's over exactly those taken once the warm-up was over or in the final drains, and drops and in-flight counts are summed over the same snapshots |
| `PipelineTraces.ControlReachesAll` | crates/netanvil-core/src/timer_thread.rs:93-135 | On every run, whenever the timer is back in its loop or has returned, every control message was offered to every worker once and in order, and one Stop when it has returned |
| `PipelineReports.DelaysAddUp` | crates/netanvil-core/src/coordinator.rs:582-606 | On every run each recorded result is stamped intended, sent, dequeued, dispatched in order, so in every collector, every snapshot in flight, the tick aggregate the saturation report reads and the total, the three delay sums add up exactly to the total-delay sum |
| `PipelineReports.ReportedMeans` | crates/netanvil-core/src/coordinator.rs:582-606 | On every run no mean delay of the tick or the total aggregate exceeds its maximum, although timeouts enlarge only the divisor |
| `PipelineReports.CapacityReported` | crates/netanvil-metrics/src/aggregate.rs:203-207 | On every run the tick's capacity is the limit times the snapshots merged since the last tick, so it equals the limit times the workers if and only if the limit is zero or that many snapshots were merged; the in-flight figure beside it never exceeds it |
| `PipelineReports.CountedTwice` | crates/netanvil-core/src/io_worker.rs:174-192 | A run in which the only worker reports twice before the coordinator drains and its capacity is counted twice |
| `PipelineReports.EndToEnd` | crates/netanvil-core/src/coordinator.rs:730-758 | When a run has settled, with or without a warm-up or crashed workers: every result is in the total, was kept out by the warm-up or was lost in a crashed worker's collector; the total is one collector's over those let in; every popped instant is a channel drop, an in-flight drop, a recorded request, a task abandoned at exit, or a Fire or drop left with a crashed worker; without a crash nothing is lost |
| `PipelineReports.EndToEndAtOnce` | crates/netanvil-core/src/coordinator.rs:371-397 | If no snapshot is merged before the warm-up is over, the settled totals merged with what crashed collectors held are one collector's over every result of every worker, and without a crash the totals alone are |
| `PipelineReports.ShutdownProgress` | crates/netanvil-core/src/timer_thread.rs:198-204 | Once the timer has returned, even if Stop did not fit into a full channel, a worker has a step of its own loop to take if and only if it is neither done nor crashed |
| `PipelineReports.ShutdownBounded` | crates/netanvil-core/src/io_worker.rs:80-226 | Over any stretch of any run after the timer has returned, a worker takes at most as many steps of its own as its rank, so it comes to its final snapshot |
| `PipelineReports.RatesFollow` | crates/netanvil-core/src/timer_thread.rs:96-102 | On every run each scheduler's rate is its equal part of the last rate commanded |
| `PipelineReports.RequestIds` | crates/netanvil-core/src/io_worker.rs:266-277 | On every run two requests in flight share an id only on different workers, the lower-numbered of which has started more requests than fit between their ranges |
| `PipelineReports.RequestIdsDistinct` | crates/netanvil-core/src/io_worker.rs:266-277 | On every run all ids ever issued are pairwise distinct if and only if, for all workers v < w, w has started none or v at most (w - v) billion |
| `PipelineReports.IdsCollide` | crates/netanvil-core/src/io_worker.rs:266-277 | For any nonzero channel capacity and any in-flight limit there is a run of two workers in which one id is issued twice |
| `PipelineTheorems.StepInv` | crates/netanvil-core/src/io_worker.rs:232-316 | Every step of the timer, a worker, a task or the coordinator keeps the whole system invariant |
| `PipelineTheorems.DispatchMerge` | crates/netanvil-core/src/timer_thread.rs:138-195 | One pop, dispatch and refill keeps the k-way-merge invariant: heap entries are exactly the pending instants, popped plus pending is what each scheduler produced |
| `Pipeline.SeedHeap` | crates/netanvil-core/src/timer_thread.rs:78-88 | After the seeding loop an entry is on the heap, once, if and only if it is its scheduler's first instant |
| `Threads.TimerThread.Pop` | crates/netanvil-core/src/timer_thread.rs:138-147 | Takes off exactly one entry, the least in (time, worker) order, or none from an empty heap |
| `Threads.TimerThread.Dispatch` | crates/netanvil-core/src/timer_thread.rs:150-195 | From any state of the system with the popped entry still on the heap, leaves the timer and the channel as the system's dispatch move does |
| `Threads.TimerThread.Offer` | crates/netanvil-core/src/timer_thread.rs:150-195 | Counts the outcome of the three sends, refills the heap unless the receiver is gone, and changes the channel accordingly |
| `Threads.TimerThread.StopAll` | crates/netanvil-core/src/timer_thread.rs:198-204 | Stop is appended to every channel with room and a live receiver, and to no other |
| `Threads.IoWorker.HandleMessage` | crates/netanvil-core/src/io_worker.rs:232-316 | A Fire takes a permit, a sequence number and a task, or counts a drop; only Stop ends the loop; the state change is the system's |
| `Threads.IoWorker.StartOrDrop` | crates/netanvil-core/src/io_worker.rs:251-277 | A permit, the next sequence number and a task stamped with the Fire's instants and the clock readings, or one more drop |
| `Threads.IoWorker.Receive` | crates/netanvil-core/src/io_worker.rs:91-167 | Receiving and handling one message is the system's receive action, including the immediate final snapshot when Stop is met while draining |
| `Collectors.Collector.Record` | crates/netanvil-metrics/src/collector.rs:166-330 | Recording is merging in the result's own one-result statistics and replacing the last signal values; a timeout touches only the counters |
| `Collectors.Collector.RecordHeaders` | crates/netanvil-metrics/src/collector.rs:265-279 | The nested loops add each tracked name's matching header values, case-insensitively |
| `Collectors.Collector.RecordSignals` | crates/netanvil-metrics/src/collector.rs:281-304 | The nested loops merge in sum, count and maximum of every configured numeric header and keep the last value |
| `Collectors.Collector.Snap` | crates/netanvil-metrics/src/collector.rs:332-427 | A snapshot hands over exactly what was recorded, its window starts where the last one ended, and the collector is left empty |
| `Collectors.MergeAccumulators` | crates/netanvil-metrics/src/aggregate.rs:172-181 | The loop over a snapshot's signals is the merge of the two accumulator maps |
| `Collectors.Collect` | crates/netanvil-core/src/coordinator.rs:385-398 | A tick's drain: the tick aggregate holds exactly the snapshots waiting in all channels, the total those too unless the warm-up is on |
| `Collectors.DrainedTotals` | crates/netanvil-core/src/coordinator.rs:385-398 | Drained from empty, the statistics are one collector's over the results of all windows, and the last signal values are those of recording in merge order |
| `Collectors.DrainedWindow` | crates/netanvil-metrics/src/aggregate.rs:134-142 | The aggregate's window is the least one covering every snapshot merged |
| `Collectors.DrainedSums` | crates/netanvil-metrics/src/aggregate.rs:203-207 | Drop deltas, in-flight counts and capacities are summed over the snapshots merged |
| `Figures.DelayFigures` | crates/netanvil-metrics/src/collector.rs:203-244 | For any results: each delay's sum and maximum are those of the differences of the raw clock readings over the results that did not time out, zero where not in order; the count over a millisecond counts results |
| `Figures.CounterFigures` | crates/netanvil-metrics/src/collector.rs:166-197 | For any results: requests, errors and timeouts count results by their error and status, bytes sent sum over all, bytes received over those that did not time out |
| `Figures.HistogramFigures` | crates/netanvil-metrics/src/collector.rs:199-263 | How often any value stands in the two histograms: once per response that measured it, once more per late request whose corrected latency it is; sizes once per response of that size |
| `Figures.HeaderFigures` | crates/netanvil-metrics/src/collector.rs:265-329 | Digest mismatches count the results whose first content-md5 header differs from the body's digest; a header value is counted as often as the results' headers carry it, times the listings of its name |
| `Figures.SignalFigures` | crates/netanvil-metrics/src/collector.rs:281-304 | For any results a signal's count, sum and maximum are those of the numbers their headers carry for it |
| `Figures.LastFigures` | crates/netanvil-metrics/src/collector.rs:281-304 | For any results the last value kept for a signal is the last number their headers carried for it |
| `Figures.SameNameIff` | crates/netanvil-metrics/src/collector.rs:265-304 | Names match exactly when they are equal up to the case of ASCII letters |
| `Metrics.SignalHitsTally` | crates/netanvil-metrics/src/collector.rs:281-304 | Per name, a signal's count, sum and maximum (or zero) are those of exactly the numeric values its configurations select |
| `Metrics.LastHitsLast` | crates/netanvil-metrics/src/collector.rs:281-304 | The last value kept for a name is the last number read for it |
| `Metrics.ShardingInvisible` | crates/netanvil-metrics/src/aggregate.rs:126-207 | Split any results into any windows over any cores and merge the snapshots in any order: the aggregate equals one collector's snapshot over all of them |
| `Metrics.StatsOfPermutation` | crates/netanvil-metrics/src/collector.rs:166-330 | What a collector holds depends on which results it recorded, not on their order |
| `Metrics.MergeCommutes` | crates/netanvil-metrics/src/aggregate.rs:126-207 | Merging is commutative |
| `Metrics.MergeAssociates` | crates/netanvil-metrics/src/aggregate.rs:126-207 | Merging is associative, signals included |
| `Metrics.ZeroIsIdentity` | crates/netanvil-metrics/src/aggregate.rs:65-105 | Merging an empty snapshot changes nothing |
| `Metrics.DelayDecomposition` | crates/netanvil-metrics/src/collector.rs:203-244 | Lag, transit and gap never sum to less than the total delay, and sum to it if and only if every non-timeout result's stamps are in order or wholly reversed |
| `Metrics.MeansBelowMaxima` | crates/netanvil-core/src/coordinator.rs:582-606 | Every reported mean delay is at most its reported maximum, although timeouts enlarge only the divisor |
| `Metrics.MeanExactly` | crates/netanvil-core/src/coordinator.rs:582-606 | A reported mean is the sum over the requests rounded down, zero without requests |
| `Metrics.CountersOrdered` | crates/netanvil-metrics/src/collector.rs:166-196 | Requests count every result; timeouts are at most errors, errors at most requests |
| `Metrics.HitsCount` | crates/netanvil-metrics/src/collector.rs:265-279 | A header value is counted once per matching header and per time its name is tracked |
| `Resp.RoundTrip` | crates/netanvil-redis/src/resp.rs:102-244 | For any printable value tree followed by anything, the reader returns the tree and its printed length and leaves the rest, if and only if the length is within the budget (plus one when the tree ends with a line) |
| `Resp.CommandRoundTrip` | crates/netanvil-redis/src/resp.rs:22-49 | The encoder's output is read back as the array of its bulk strings if and only if it fits the budget |
| `Resp.ReadValueSound` | crates/netanvil-redis/src/resp.rs:117-202 | Whatever the reader accepts on any bytes is an encoding of the value it returns, ending where the reader stopped, within the budget |
| `Resp.ReadValueComplete` | crates/netanvil-redis/src/resp.rs:117-202 | The reader accepts every encoding within the budget, whatever follows it |
| `Resp.ReadExactly` | crates/netanvil-redis/src/resp.rs:102-110 | An encoding is read as its value exactly when its length is within the budget |
| `Resp.ReadSucceedsIff` | crates/netanvil-redis/src/resp.rs:102-110 | On any stream the reader succeeds exactly when some prefix within the budget encodes a value |
| `Resp.KindByTag` | crates/netanvil-redis/src/resp.rs:117-202 | The first byte, one of + - : $ *, tells which kind of value is read |
| `Resp.EncodingUnique` | crates/netanvil-redis/src/resp.rs:117-202 | No bytes start with encodings of two values |
| `Resp.PrintEncodes` | crates/netanvil-redis/src/resp.rs:22-49 | What is printed for a value is an encoding of it |
| `Resp.ReadOne` | crates/netanvil-redis/src/resp.rs:102-110 | On every byte stream the read ends, takes at most `max_bytes + 1` bytes, and a success reports exactly the bytes taken |
| `Resp.Reader.NextValue` | crates/netanvil-redis/src/resp.rs:117-202 | The consuming reader computes the reader function and counts what it takes |
| `Resp.Reader.NextLine` | crates/netanvil-redis/src/resp.rs:205-244 | Reads up to CR and one more byte, whatever that byte is, within the budget |
| `Resp.Reader.NextBulk` | crates/netanvil-redis/src/resp.rs:156-179 | A negative length is null; otherwise the data and two more bytes, checked against the budget first |
| `Resp.Reader.NextElements` | crates/netanvil-redis/src/resp.rs:180-195 | Reads as many elements as announced, stopping at the first failure |
| `Resp.EncodeCommand` | crates/netanvil-redis/src/resp.rs:22-49 | The buffer is, byte by byte, a RESP2 array header announcing the command and its arguments, then for each in order its length, its bytes and CR LF; and it is the printed form of the array |
| `Bytes.IntTextParses` | crates/netanvil-redis/src/resp.rs:117-202 | Decimal text of any 64-bit integer parses back to it |
| `Bytes.ParseExactly` | crates/netanvil-redis/src/resp.rs:117-202 | Digits with at most one sign before them parse to their value if in range, and nothing else parses |
| `Bytes.BigEndianExact` | crates/netanvil-tcp/src/framing.rs:18-49 | A width of k bytes holds a length exactly when it is below 256 to the k; otherwise the header is wrong |
| `Bytes.BigEndianModulo` | crates/netanvil-tcp/src/framing.rs:18-49 | A width of k bytes holds any length modulo 256 to the k |
| `Framing.FrameRoundTrip` | crates/netanvil-tcp/src/framing.rs:18-185 | In every mode, a frame followed by anything is read back as its payload if and only if the payload is framable: the length fits width 1, 2 or 4 and the maximum, the delimiter first ends at the end, or the size is exact |
| `Framing.StreamRoundTrip` | crates/netanvil-tcp/src/framing.rs:60-185 | Reading a concatenation of frames returns exactly the payload list and leaves exactly the remainder |
| `Framing.ReadsUnique` | crates/netanvil-tcp/src/framing.rs:60-73 | A stream has at most one reading in a mode |
| `Framing.LengthPrefixedRoundTrip` | crates/netanvil-tcp/src/framing.rs:141-174 | The length-prefixed case of the round trip, both directions |
| `Framing.DelimiterRoundTrip` | crates/netanvil-tcp/src/framing.rs:91-137 | The delimiter case of the round trip, both directions |
| `Framing.FixedSizeRoundTrip` | crates/netanvil-tcp/src/framing.rs:177-185 | The fixed-size case of the round trip, both directions |
| `Framing.ReadUntilDelimiter` | crates/netanvil-tcp/src/framing.rs:91-137 | Returns the shortest prefix ending in the delimiter; on failure the delimiter ends nowhere in what was read, and says whether the limit or the stream ended first |
| `Framing.ReadFramed` | crates/netanvil-tcp/src/framing.rs:60-73 | Succeeds with the reading of the mode, and fails only when there is none |
| `Framing.EncodeFrame` | crates/netanvil-tcp/src/framing.rs:18-49 | The buffer is the mode's frame byte by byte: a big-endian length modulo its width and the payload, the payload and its delimiter, or the payload cut or filled with zeros to the size |
| `Throttle.ThrottledStream.Read` | crates/netanvil-http/src/throttle.rs:113-135 | For any two completed reads i < j under any clock whose sleeps last at least as asked, the bytes of reads i+1..j are at most capacity + rate x (t_j - t_i), however large a single read is; it panics if and only if the rate is zero and the burst left does not cover a token and the bytes read |
| `Throttle.ThrottledStream.BytesWithin` | crates/netanvil-http/src/throttle.rs:113-135 | Between any two completed reads, bytes returned are at most the capacity plus the rate times the time between them |
| `Throttle.ThrottledStream.AwaitToken` | crates/netanvil-http/src/throttle.rs:113-118 | Returns with at least one token at hand; panics if and only if the rate is zero and less than a token is left |
| `Throttle.ThrottledStream.Pay` | crates/netanvil-http/src/throttle.rs:123-131 | After the sleep the debt is paid; panics if and only if the rate is zero and the tokens do not cover the bytes |
| `Throttle.TokenBucket.Consume` | crates/netanvil-http/src/throttle.rs:60-69 | The wait returned is exactly the time in which the debt is paid back |
| `Throttle.TokenBucket.WaitTime` | crates/netanvil-http/src/throttle.rs:72-79 | The wait returned is exactly the time until one token is there |
| `Throttle.WithinKept` | crates/netanvil-http/src/throttle.rs:51-69 | Refilling and consuming keep bytes returned plus tokens at hand within capacity plus accrual, from any starting time |
| `Throttle.WithinBound` | crates/netanvil-http/src/throttle.rs:113-135 | With no debt left, the bytes returned since any time are within the window's allowance |
| `TcpPool.PoolSafety` | crates/netanvil-tcp/src/executor.rs:91-259 | Over all interleavings of acquire, connect, failure, return, drop and timeout: `active` is connecting or checked-out tasks plus cancelled ones, no connection is in two places, the `active > 0` guards are never needed, and idle plus active never exceed a nonzero limit |
| `TcpPool.TcpExecutor.AcquireConnection` | crates/netanvil-tcp/src/executor.rs:223-259 | The longest idle connection if there is one, else leave to open one, else refusal, exactly as the acquire step of the system |
| `TcpPool.RefusedWhen` | crates/netanvil-tcp/src/executor.rs:223-237 | A request is refused exactly when nothing is idle and live plus cancelled tasks fill a nonzero limit |
| `TcpPool.TimeoutsExhaustPool` | crates/netanvil-tcp/src/executor.rs:91-97 | A timed-out task's slot is never returned: after as many timeouts as the limit, every later request of the run is refused |
| `TcpPool.ShutWhen` | crates/netanvil-tcp/src/executor.rs:223-237 | In every reachable state, requests are refused now and after every possible next step if and only if the limit is nonzero and as many tasks have timed out |
| `TcpPool.TimeoutsShutPool` | crates/netanvil-tcp/src/executor.rs:91-97 | For every nonzero limit, a run of as many connects that time out, after which the pool is shut |
| `TcpPool.IdleFifo` | crates/netanvil-tcp/src/pool.rs:50-82 | On every run the pool holds, longest idle first, exactly the connections given back that no request has reused |
| `TcpPool.ConnectionHistory` | crates/netanvil-tcp/src/executor.rs:223-401 | On every run a live connection's counter is the number of requests it was kept after, and it is marked as having sent its header exactly when it has |
| `Lifecycle.HttpPolicy.Transform` | crates/netanvil-core/src/transformer.rs:114-150 | With lifetimes, a request closes exactly at 1 + L0, then every max(Lk, 1) further requests, or when the keep-alive draw says so; the other policies as named |
| `Lifecycle.TcpPolicy.ShouldKeep` | crates/netanvil-tcp/src/executor.rs:382-401 | With lifetimes, a connection is dropped exactly at the prefix sums of Lk + 1, or when the draw says so; the other policies as named |
| `Lifecycle.HttpAgeStep` | crates/netanvil-core/src/transformer.rs:122-137 | One request moves the counter from one point of the close schedule to the next |
| `Lifecycle.TcpAgeStep` | crates/netanvil-tcp/src/executor.rs:387-398 | One transaction moves the counter from one point of the close schedule to the next |
| `Lifecycle.ClosesDrift` | crates/netanvil-sampling/src/lifecycle.rs:66-75 | With any limits the k-th TCP close comes later than the k-th HTTP close by the number of positive limits among the first to the k-th redrawn; they coincide exactly when all of these are zero and are k apart exactly when none is |
| `SlidingWindow.Window.Push` | crates/netanvil-core/src/coordinator.rs:41-48 | After any pushes in time order the five queues are the columns of the whole history filtered to the window |
| `SlidingWindow.Window.Evict` | crates/netanvil-core/src/coordinator.rs:51-63 | Popping stale fronts is filtering by the cutoff |
| `SlidingWindow.Window.RequestRate` | crates/netanvil-core/src/coordinator.rs:72-87 | The rate over the held history, without the first entry's count, and the fallback for fewer than two entries |
| `SlidingWindow.SteadyRateExact` | crates/netanvil-core/src/coordinator.rs:65-87 | If every tick counts r times the gap since the tick before, the smoothed rate is exactly r once the held ticks span a millisecond, whatever was evicted |
| `SlidingWindow.RateExactly` | crates/netanvil-core/src/coordinator.rs:72-87 | With two ticks or more the rate is that of the ticks after the first over the time since it, with one that tick's over the whole window, with none zero, and never over less than a millisecond |
| `SlidingWindow.HeldPush` | crates/netanvil-core/src/coordinator.rs:41-63 | A push adds its tick and removes exactly those out of the window |
| `Hybrid.ExactlyFair` | crates/netanvil-plugin/src/hybrid.rs:79-89 | For non-negative weights with integer total W, any W consecutive calls choose every pattern exactly its weight if and only if all weights are whole |
| `Hybrid.CycleCounts` | crates/netanvil-plugin/src/hybrid.rs:61-89 | In general a pattern is chosen as often as rounding the running sums around it says, from any starting counter |
| `Hybrid.NearlyFair` | crates/netanvil-plugin/src/hybrid.rs:79-89 | A pattern is always chosen within less than one call of its weight |
| `Hybrid.FractionsUnfair` | crates/netanvil-plugin/src/hybrid.rs:79-89 | Weights 1.5 and 0.5: the second pattern is never chosen |
| `Hybrid.SelectedIff` | crates/netanvil-plugin/src/hybrid.rs:79-89 | Which calls a pattern owns, for any counter |
| `Hybrid.Generator.constructor` | crates/netanvil-plugin/src/hybrid.rs:61-74 | The stored table is the running sums of the weights |
| `Hybrid.Generator.SelectPattern` | crates/netanvil-plugin/src/hybrid.rs:79-89 | The search finds the pattern the call number selects, 0 when none or for a zero total |
| `Hybrid.Generator.Generate` | crates/netanvil-plugin/src/hybrid.rs:103-114 | Each call uses the next counter value; an empty pattern list is the index panic |
| `Distributed.RateConserved` | crates/netanvil-distributed/src/coordinator.rs:281-370 | At every tick of every run the shares sent sum to the decision if and only if an active node has a core or the decision is zero |
| `Distributed.SharesProportional` | crates/netanvil-distributed/src/coordinator.rs:483-503 | At every tick of every run with a core left, each active node's share is to the decision as its cores are to all active cores |
| `Distributed.DecisionFollows` | crates/netanvil-distributed/src/coordinator.rs:328-334 | At every tick of every run the decision is the rate of the last order given so far, override or hold, if that is a hold, and else the controller's |
| `Distributed.CorelessNode` | crates/netanvil-distributed/src/coordinator.rs:483-503 | With one node that has no cores nothing is sent, whatever the decision |
| `Distributed.StartConserved` | crates/netanvil-distributed/src/coordinator.rs:167-198 | The shares baked in at startup and those re-sent to the nodes left each sum to the initial rate |
| `Distributed.SchedulersSumToDecision` | crates/netanvil-distributed/src/coordinator.rs:495-503 | Through the agents' holds, any number of their own ticks and the timers' division, the rates of all schedulers sum to the leader's decision (zero without a core) less the shares whose sending failed plus what those agents send on their own; hence to the decision exactly when these two agree, as when every share arrives |
| `Distributed.RatesSum` | crates/netanvil-core/src/timer_thread.rs:96-102 | The parts of a divided rate are equal and sum to it for any positive number of workers |
| `Distributed.AgentHolds` | crates/netanvil-core/src/coordinator.rs:486-493 | A rate put on an agent is held through its own ticks, and its schedulers' rates sum to it |
| `Distributed.ActiveShrinks` | crates/netanvil-distributed/src/coordinator.rs:292-302 | The nodes active after a tick are exactly those active before it that answered |
| `Distributed.StartActive` | crates/netanvil-distributed/src/coordinator.rs:167-190 | The nodes left after startup are exactly those that accepted the test |
| `Distributed.TotalsNeverFall` | crates/netanvil-distributed/src/coordinator.rs:246-272 | If reports never shrink, the leader's request and error totals never fall over a run, up to and including the totals returned after the last fetch, whichever nodes fail |
| `Distributed.TotalAdds` | crates/netanvil-distributed/src/coordinator.rs:266-267 | A node's report adds its requests to the one total and its errors to the other |
| `Distributed.FailedReportKept` | crates/netanvil-distributed/src/coordinator.rs:292-302 | A failed node's last report stays in the totals unchanged, and it stays failed |
| `Distributed.SharesSum` | crates/netanvil-distributed/src/coordinator.rs:483-503 | A round of core-weighted shares sums to the whole rate, or to nothing when no core is left |
| `Distributed.Discovery.Discover` | crates/netanvil-distributed/src/http_cluster.rs:60-69 | The nodes in order, without the failed ones |
| `Distributed.Leader.ComputeWeights` | crates/netanvil-distributed/src/coordinator.rs:483-493 | Weights by cores; without any core the old weights stay |
| `Distributed.Leader.DistributeRate` | crates/netanvil-distributed/src/coordinator.rs:495-503 | Each node's share by its weight, nothing without one |
| `Distributed.Leader.ProcessCommands` | crates/netanvil-distributed/src/coordinator.rs:377-435 | The last override wins over the last hold command, and that over the old hold |
| `Distributed.Leader.Fetch` | crates/netanvil-distributed/src/coordinator.rs:284-302 | Replies replace the stored reports, silent nodes are marked failed |
| `Distributed.Leader.Tick` | crates/netanvil-distributed/src/coordinator.rs:201-210 | One round: the new state, the decision and the shares sent, or a stop when no node is left |
| `Distributed.Leader.Start` | crates/netanvil-distributed/src/coordinator.rs:152-198 | Startup with failing nodes: baked shares, marks, then weights and shares for the nodes left |
| `Distributed.Leader.Finish` | crates/netanvil-distributed/src/coordinator.rs:246-279 | The last fetch marks nobody and the totals sum every node ever heard from |
| `ResultStore.RunAgrees` | crates/netanvil-distributed/src/result_store.rs:131-179 | After any saves and removes with ids other than "index": index ids are distinct, an entry file exists exactly for each indexed id with equal info, and at most `max_results` terminal entries remain |
| `ResultStore.SaveAgreesIff` | crates/netanvil-distributed/src/result_store.rs:131-156 | A save keeps that agreement if and only if its id is not "index", the empty store with room for nothing apart |
| `ResultStore.RemoveAgreesIff` | crates/netanvil-distributed/src/result_store.rs:166-179 | A removal keeps it if and only if its id is not "index" or the store is empty |
| `ResultStore.RemoveLeaves` | crates/netanvil-distributed/src/result_store.rs:166-179 | After a removal the id is neither readable nor listed, every other entry reads as before, and the others stay in the index in their order |
| `ResultStore.PrunedKeepsLast` | crates/netanvil-distributed/src/result_store.rs:189-227 | Removing the ids of the first surplus terminal entries is keeping the last `max_results` of them in position order |
| `ResultStore.KeepLastMember` | crates/netanvil-distributed/src/result_store.rs:189-227 | An entry survives pruning exactly when it is unfinished or fewer than `max_results` terminal entries follow it |
| `ResultStore.SaveThenLoad` | crates/netanvil-distributed/src/result_store.rs:131-163 | A saved entry reads back exactly unless it is terminal and `max_results` terminal entries are listed after it; then it is gone |
| `ResultStore.SaveLeaves` | crates/netanvil-distributed/src/result_store.rs:131-227 | Any other entry reads as before a save, unless it is finished and as many finished ones as the store keeps are listed after it, when it is gone |
| `ResultStore.SavedIndex` | crates/netanvil-distributed/src/result_store.rs:131-156 | The index after a save has the saved entry in its old place or at the end and keeps the order of the rest |
| `ResultStore.LateFinisherLost` | crates/netanvil-distributed/src/result_store.rs:189-227 | For every limit: a test saved first and finishing after as many others as the store keeps loses its result in the very save that stores it |
| `ResultStore.UnfinishedKept` | crates/netanvil-distributed/src/result_store.rs:189-227 | An unfinished test stays listed and readable after, and at every point during, another entry's save |
| `ResultStore.RedoAfterCrash` | crates/netanvil-distributed/src/result_store.rs:131-156 | A save cut short at any point before its index is written leaves the old index, and saving again ends exactly where the uninterrupted save would |
| `ResultStore.Store.Save` | crates/netanvil-distributed/src/result_store.rs:131-156 | The disk after a save, and every state it passes through on the way |
| `ResultStore.Store.Remove` | crates/netanvil-distributed/src/result_store.rs:166-179 | The disk after a removal, which `RemoveLeaves` characterises |
| `ResultStore.Store.Prune` | crates/netanvil-distributed/src/result_store.rs:189-227 | Deletes exactly the surplus files one by one and returns the list without them |
| `Dns.ResponseAgrees` | crates/netanvil-test-servers/src/dns.rs:346-387 | For every name whose labels fit an octet, with or without the OPT record, the response to an encoded query is a header with the same ID and RCODE 0, exactly the query's question, then the 16-byte answer |
| `Dns.AnswerNamesQuestion` | crates/netanvil-test-servers/src/dns.rs:375-384 | The answer's compression pointer, offset 12, is where the response spells the name asked for (section 4.1.4 of RFC 1035) |
| `Dns.NameRoundTrip` | crates/netanvil-dns/src/wire.rs:68-77 | A decoder after section 3.1 of RFC 1035 gives the nonempty labels back if and only if none is longer than 63 octets |
| `Dns.SkipsEncodedName` | crates/netanvil-test-servers/src/dns.rs:366-372 | The server's walk ends on the terminator of any encoded name whose labels fit an octet |
| `Dns.BuildResponse` | crates/netanvil-test-servers/src/dns.rs:346-387 | On any packet of at least 12 bytes the walk ends in bounds and the response is, field by field, the query's ID, recursion bit and question with no error and one answer at most 16 bytes longer: pointer to 12, A, IN, 60 seconds, 127.0.0.1 |
| `Dns.EncodeQuery` | crates/netanvil-dns/src/wire.rs:9-46 | The query field by field: the ID given or drawn, flags and counts, name, type and class, and exactly with DNSSEC an OPT record with the DO bit |
| `Dns.EncodeDomainName` | crates/netanvil-dns/src/wire.rs:68-77 | Appends every nonempty label with its length octet, then zero |
| `Dns.JoinSplit` | crates/netanvil-dns/src/wire.rs:68-77 | Splitting a name cuts at every dot and loses nothing |
| `LossTracker.Tracker.OnReceive` | crates/netanvil-udp/src/loss_tracker.rs:64-85 | The accounting stays exact, the ring showing what arrived in the window and the lost count what never arrived behind it, if and only if the number is behind the window or was sent and lies less than two windows past its base; where the window then stands, and that the number's bit is set |
| `LossTracker.Tracker.Advance` | crates/netanvil-udp/src/loss_tracker.rs:100-137 | Word-wise eviction with population counts refines per-packet accounting: the ring shows what was received from the new base on, and every sent, absent packet passed over is counted once |
| `LossTracker.Tracker.Conserved` | crates/netanvil-udp/src/loss_tracker.rs:17-36 | Every packet sent is received, lost, or still awaited within the window |
| `LossTracker.Tracker.EvictWord` | crates/netanvil-udp/src/loss_tracker.rs:107-128 | A whole-word eviction and a masked one clear and count alike |
| `LossTracker.Mismarked` | crates/netanvil-udp/src/loss_tracker.rs:64-85 | A number beyond the window after the one clamped advance marks another packet's bit |
| `LossTracker.FirstMismark` | crates/netanvil-udp/src/loss_tracker.rs:64-85 | A tracker that sends 8193 packets and hears back only from 8192 has its window at 4096 and shows packet 4096 as received |
| `LossTracker.ReceivedOrMissing` | crates/netanvil-udp/src/loss_tracker.rs:100-137 | Received and missing numbers below a bound partition it |
| `LossTracker.CountBits` | crates/netanvil-udp/src/loss_tracker.rs:107-128 | Counting the ones under a mask counts the received packets it stands for |

## Left out

- Threads and tasks as real concurrency: the pipeline's loops are modelled one action at a time; `Threads`
  has no receive loop or command loop of its own, their interleaving is the transition system's.
- Schedulers and rate controllers: any nondecreasing scheduler and any controller are allowed, none is modelled.
- `precision_sleep_sync`: only that it does not return early; how late it may be is timing, not accounting.
- Response callbacks, event recording and the 50 ms grace sleep of a worker: they do not touch the accounting.
- Coordinator stop conditions, saturation verdicts and progress reports: only the means they show are modelled.
- `AggregateMetrics::to_summary`, quantiles and HDR bucketing: library internals and formatting.
- Collectors.Collector.Snap: leaves out the CPU-affinity, TCP-health and packet counters, because they are read and reset like the others and would add only easy members.
- The `last` value of a response signal in the run theorems: it depends on the order of merging, so it is followed only in `Collectors`.
- Collectors.Collector.RecordHeaders: lower-cases ASCII letters only, because full Unicode case folding is a library's.
- Collectors.Collector.RecordSignals: lower-cases ASCII letters only, for the same reason.
- Overflow of 64-bit counters and of `usize` sums: integers are unbounded.
- Raw framing: a single read of whatever has arrived has no framing to prove.
- Framing.EncodeFrame: payloads of 4 GiB and more are cut modulo the header width, as `BigEndianExact` states, not rejected.
- Resp.EncodeCommand: commands and arguments are bytes; that the source restricts them to UTF-8 strings is not needed.
- TCP modes, protocol headers and the background reader: the pool sees only success, failure, keep and drop.
- Hybrid.Generator.Generate: placeholder expansion and the request's headers and body, because they do not affect selection.
- Throttle writes, socket options and vectored reads: reads of one stream only.
- Distributed.Leader.Start: the early returns for an empty node list send nothing, which the model shows as no shares.
- Latency percentiles and signals in the leader's summary, progress callbacks, cancellation: they feed the controller, which is a parameter.
- ResultStore.Store.AtomicWrite: the temporary file and I/O errors are not modelled; ids are plain file stems without separators.
- Crashes inside `remove`: only saves are followed through their intermediate states.
- Dns.EncodeQuery: query types are their wire values; the 255-octet limit on whole names is not enforced by the code either.
- HTTP servers, TLS, plugins' script runtimes, command line, Prometheus text and the agent's start and stop: plumbing over libraries.
- Dropping executors, CPU pinning and sampled distributions: random or system behaviour, treated as arbitrary.
