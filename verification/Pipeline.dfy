/**
 The request pipeline as a transition system: one timer thread merging per-worker
 schedulers through a min-heap into bounded channels, N workers taking in-flight permits
 and recording results, and the coordinator draining their snapshots.

 A step is one action that touches shared state, so a run is any interleaving of the
 threads. Popping the heap, sleeping until the popped instant and `try_send` are one step
 (the timer touches nothing shared in between), as are receiving a message and handling it
 (no await in between). Scheduler outputs, clock readings, commands and results are
 arbitrary, subject to `Enabled`. Fields marked "history" are not in the program: they
 record what happened, for the theorems to talk about.
 */
module Pipeline {
  import opened Wrappers
  import M = Metrics

  datatype Config = Config(capacity: nat, maxInFlight: nat, metrics: M.Config)

  // ---------------------------------------------------------------------------
  // State
  // ---------------------------------------------------------------------------

  /** A heap entry; entries are ordered by time, then by worker. */
  datatype Entry = Entry(time: nat, worker: nat)

  predicate Leq(a: Entry, b: Entry) {
    a.time < b.time || (a.time == b.time && a.worker <= b.worker)
  }

  datatype Message = Fire(intended: nat, sent: nat) | UpdateTargets | UpdateMetadata | Stop

  datatype TimerPhase =
    | Looping
    | Forwarding(msg: Message, next: nat) // blocking sends of a control message, up to channel `next`
    | Stopping(next: nat)                 // `try_send` of Stop, up to channel `next`
    | Exited                              // returned: all senders dropped

  datatype Timer = Timer(
    phase: TimerPhase, heap: multiset<Entry>, rates: seq<real>,
    dispatched: nat, dropped: nat,
    popped: seq<Entry>) // history: every entry popped, in order

  /** One worker's scheduler: `pending` is its entry in the heap, `produced` (history) all its outputs. */
  datatype Schedule = Schedule(produced: seq<nat>, pending: Option<nat>)

  /** One worker's channel, with what became of the Fires offered to it (history). */
  datatype Channel = Channel(queue: seq<Message>, accepted: seq<Message>, full: nat, disconnected: nat)

  datatype WorkerPhase =
    | Receiving // awaiting the next message
    | Draining  // emptying the channel after one message
    | Finishing // left the loop, final snapshot still to be sent
    | Done
    | Crashed   // the thread died; its receiver is gone

  datatype Task = Task(id: nat, intended: nat, sent: nat, actual: nat, dispatched: nat)

  datatype Worker = Worker(
    phase: WorkerPhase, nextSeq: nat, inFlight: nat, drops: nat, lastDrops: nat, tasks: seq<Task>,
    handled: seq<Message>,             // history: Fires given to handle_message
    issued: seq<nat>,                  // history: ids of the requests started
    results: seq<M.ExecutionResult>)   // history: results recorded

  /** A snapshot in flight to the coordinator; `results` (history) is what it was taken over. */
  datatype Parcel = Parcel(stats: M.Stats, drops: nat, inFlight: nat, capacity: nat, results: seq<M.ExecutionResult>)

  datatype Report = Report(
    collector: M.Stats, outbox: seq<Parcel>,
    window: seq<M.ExecutionResult>,    // history: recorded since the last snapshot
    delivered: seq<M.ExecutionResult>, // history: results in snapshots the coordinator has taken
    deliveredDrops: nat)               // history: drop deltas in those snapshots

  datatype Lane = Lane(sched: Schedule, chan: Channel, worker: Worker, report: Report)

  datatype CoordPhase = Ticking | Finalizing

  datatype Coordinator = Coordinator(
    phase: CoordPhase, warm: bool, tick: M.Stats, tickInFlight: nat, tickCapacity: nat,
    total: M.Stats, totalDrops: nat,
    log: seq<M.ExecutionResult>,       // history: results merged into `total`
    tickLog: seq<M.ExecutionResult>,   // history: results merged into `tick` since its reset
    warmup: seq<M.ExecutionResult>,    // history: results kept out of `total` by the warm-up
    warmupDrops: nat)                  // history

  datatype State = State(now: nat, timer: Timer, lanes: seq<Lane>, coord: Coordinator)

  // ---------------------------------------------------------------------------
  // Actions on one lane
  // ---------------------------------------------------------------------------

  predicate Open(l: Lane) { l.worker.phase.Receiving? || l.worker.phase.Draining? || l.worker.phase.Finishing? }

  function Advance(s: Schedule, next: Option<nat>): Schedule {
    match next
    case Some(t) => Schedule(s.produced + [t], next)
    case None => Schedule(s.produced, None)
  }

  /** `try_send` of a Fire, then the scheduler's next instant unless the receiver is gone. */
  function DispatchLane(c: Config, l: Lane, m: Message, next: Option<nat>): Lane {
    if !Open(l) then
      l.(chan := l.chan.(disconnected := l.chan.disconnected + 1), sched := l.sched.(pending := None))
    else if |l.chan.queue| >= c.capacity then
      l.(chan := l.chan.(full := l.chan.full + 1), sched := Advance(l.sched, next))
    else
      l.(chan := l.chan.(queue := l.chan.queue + [m], accepted := l.chan.accepted + [m]),
         sched := Advance(l.sched, next))
  }

  function ForwardLane(l: Lane, m: Message): Lane {
    if Open(l) then l.(chan := l.chan.(queue := l.chan.queue + [m])) else l
  }

  function StopLane(c: Config, l: Lane): Lane {
    if Open(l) && |l.chan.queue| < c.capacity
    then l.(chan := l.chan.(queue := l.chan.queue + [Stop]))
    else l
  }

  const REQUEST_ID_STRIDE: nat := 1_000_000_000

  /** handle_message for a Fire: take a permit and spawn a task, or count a drop. */
  function HandleFire(c: Config, core: nat, w: Worker, m: Message, now: nat, dispatchAt: nat): Worker
    requires m.Fire?
  {
    var w := w.(handled := w.handled + [m], phase := Draining);
    if c.maxInFlight > 0 && w.inFlight >= c.maxInFlight then
      w.(drops := w.drops + 1)
    else
      var id := core * REQUEST_ID_STRIDE + w.nextSeq;
      w.(inFlight := w.inFlight + 1, nextSeq := w.nextSeq + 1, issued := w.issued + [id],
         tasks := w.tasks + [Task(id, m.intended, m.sent, now, dispatchAt)])
  }

  /** Snapshot the collector, stamp the drop delta and in-flight data, and send it. */
  ghost function SendSnapshot(c: Config, l: Lane): Report {
    var parcel := Parcel(l.report.collector, Delta(l.worker), l.worker.inFlight, c.maxInFlight, l.report.window);
    l.report.(collector := M.Zero(), outbox := l.report.outbox + [parcel], window := [])
  }

  function Delta(w: Worker): nat { if w.drops >= w.lastDrops then w.drops - w.lastDrops else 0 }

  ghost function ReceiveLane(c: Config, core: nat, l: Lane, now: nat, dispatchAt: nat): Lane
    requires l.chan.queue != []
  {
    var m := l.chan.queue[0];
    var l := l.(chan := l.chan.(queue := l.chan.queue[1..]));
    match m
    case Fire(_, _) => l.(worker := HandleFire(c, core, l.worker, m, now, dispatchAt))
    case Stop =>
      if l.worker.phase.Receiving? then l.(worker := l.worker.(phase := Finishing))
      else FinishLane(c, l)
    case _ => l.(worker := l.worker.(phase := Draining))
  }

  /** Draining found the channel empty: report if the interval has passed, then wait again. */
  ghost function IdleLane(c: Config, l: Lane, due: bool): Lane {
    if due then
      l.(worker := l.worker.(phase := Receiving, lastDrops := l.worker.drops), report := SendSnapshot(c, l))
    else
      l.(worker := l.worker.(phase := Receiving))
  }

  /** The final snapshot carries the last drop delta; the worker returns. */
  ghost function FinishLane(c: Config, l: Lane): Lane {
    l.(worker := l.worker.(phase := Done), report := SendSnapshot(c, l))
  }

  ghost function CompleteLane(c: Config, l: Lane, i: nat, r: M.ExecutionResult): Lane
    requires i < |l.worker.tasks| && l.worker.inFlight > 0
  {
    l.(worker := l.worker.(tasks := l.worker.tasks[..i] + l.worker.tasks[i+1..],
                           inFlight := l.worker.inFlight - 1, results := l.worker.results + [r]),
       report := l.report.(collector := M.Merge(l.report.collector, M.Of(c.metrics, r)),
                           window := l.report.window + [r]))
  }

  function DeliverLane(l: Lane): Lane
    requires l.report.outbox != []
  {
    var p := l.report.outbox[0];
    l.(report := l.report.(outbox := l.report.outbox[1..], delivered := l.report.delivered + p.results,
                           deliveredDrops := l.report.deliveredDrops + p.drops))
  }

  // ---------------------------------------------------------------------------
  // Steps of the system
  // ---------------------------------------------------------------------------

  datatype Step =
    | RateCommand(rps: real)
    | ForwardCommand(msg: Message)
    | StopCommand
    | Exhausted
    | ForwardOne
    | StopOne
    | Dispatch(entry: Entry, next: Option<nat>)
    | Receive(w: nat, dispatchAt: nat)
    | HangUp(w: nat)
    | Idle(w: nat, due: bool)
    | Finish(w: nat)
    | Complete(w: nat, task: nat, result: M.ExecutionResult)
    | Crash(w: nat)
    | Tick(warmed: bool)
    | MergeOne(w: nat)
    | Finalize

  predicate Result(t: Task, r: M.ExecutionResult) {
    r.intended == t.intended && r.sent == t.sent && r.actual == t.actual && r.dispatched == t.dispatched
  }

  predicate Enabled(c: Config, s: State, step: Step, at: nat) {
    var n := |s.lanes|;
    s.now <= at &&
    match step
    case RateCommand(_) => s.timer.phase.Looping?
    case ForwardCommand(m) => s.timer.phase.Looping? && (m.UpdateTargets? || m.UpdateMetadata?)
    case StopCommand => s.timer.phase.Looping?
    case Exhausted => s.timer.phase.Looping? && s.timer.heap == multiset{}
    case ForwardOne =>
      s.timer.phase.Forwarding? && s.timer.phase.next < n &&
      (Open(s.lanes[s.timer.phase.next]) ==> |s.lanes[s.timer.phase.next].chan.queue| < c.capacity)
    case StopOne => s.timer.phase.Stopping? && s.timer.phase.next < n
    case Dispatch(e, next) =>
      s.timer.phase.Looping? && e in s.timer.heap && (forall f :: f in s.timer.heap ==> Leq(e, f)) &&
      e.worker < n && at >= e.time && (next.Some? ==> next.value >= e.time)
    case Receive(w, dispatchAt) =>
      w < n && (s.lanes[w].worker.phase.Receiving? || s.lanes[w].worker.phase.Draining?) &&
      s.lanes[w].chan.queue != [] && dispatchAt >= at
    case HangUp(w) =>
      w < n && s.lanes[w].worker.phase.Receiving? && s.lanes[w].chan.queue == [] && s.timer.phase.Exited?
    case Idle(w, _) => w < n && s.lanes[w].worker.phase.Draining? && s.lanes[w].chan.queue == []
    case Finish(w) => w < n && s.lanes[w].worker.phase.Finishing?
    case Complete(w, i, r) =>
      w < n && Open(s.lanes[w]) && i < |s.lanes[w].worker.tasks| && s.lanes[w].worker.inFlight > 0 &&
      Result(s.lanes[w].worker.tasks[i], r)
    case Crash(w) => w < n && Open(s.lanes[w])
    case Tick(_) => s.coord.phase.Ticking?
    case MergeOne(w) => w < n && s.lanes[w].report.outbox != []
    case Finalize => s.coord.phase.Ticking?
  }

  function RatesFor(rps: real, n: nat): seq<real> {
    if n == 0 then [] else seq(n, _ => rps / n as real)
  }

  function FirstPhase(n: nat, p: TimerPhase, empty: TimerPhase): TimerPhase {
    if n == 0 then empty else p
  }

  /** The timer's own part of a dispatch. */
  function DispatchTimer(c: Config, t: Timer, l: Lane, e: Entry, next: Option<nat>): Timer {
    var rest := t.heap - multiset{e};
    var t := t.(popped := t.popped + [e], heap := rest);
    if !Open(l) then t
    else
      var t := if next.Some? then t.(heap := rest + multiset{Entry(next.value, e.worker)}) else t;
      if |l.chan.queue| >= c.capacity then t.(dropped := t.dropped + 1) else t.(dispatched := t.dispatched + 1)
  }

  function MergeParcel(c: Config, k: Coordinator, p: Parcel): Coordinator {
    var into := k.warm || k.phase.Finalizing?;
    var k := if k.phase.Ticking?
             then k.(tick := M.Merge(k.tick, p.stats), tickInFlight := k.tickInFlight + p.inFlight,
                     tickCapacity := k.tickCapacity + p.capacity, tickLog := k.tickLog + p.results)
             else k;
    if into
    then k.(total := M.Merge(k.total, p.stats), totalDrops := k.totalDrops + p.drops, log := k.log + p.results)
    else k.(warmup := k.warmup + p.results, warmupDrops := k.warmupDrops + p.drops)
  }

  ghost function Apply(c: Config, s: State, step: Step, at: nat): (s': State)
    requires Enabled(c, s, step, at)
    ensures s'.now == at && |s'.lanes| == |s.lanes|
  {
    var n := |s.lanes|;
    var s := s.(now := at);
    match step
    case RateCommand(rps) => s.(timer := s.timer.(rates := RatesFor(rps, n)))
    case ForwardCommand(m) => s.(timer := s.timer.(phase := FirstPhase(n, Forwarding(m, 0), Looping)))
    case StopCommand => s.(timer := s.timer.(phase := FirstPhase(n, Stopping(0), Exited)))
    case Exhausted => s.(timer := s.timer.(phase := FirstPhase(n, Stopping(0), Exited)))
    case ForwardOne =>
      var k := s.timer.phase.next;
      var p := if k + 1 == n then Looping else s.timer.phase.(next := k + 1);
      s.(timer := s.timer.(phase := p), lanes := s.lanes[k := ForwardLane(s.lanes[k], s.timer.phase.msg)])
    case StopOne =>
      var k := s.timer.phase.next;
      var p := if k + 1 == n then Exited else s.timer.phase.(next := k + 1);
      s.(timer := s.timer.(phase := p), lanes := s.lanes[k := StopLane(c, s.lanes[k])])
    case Dispatch(e, next) =>
      s.(timer := DispatchTimer(c, s.timer, s.lanes[e.worker], e, next),
         lanes := s.lanes[e.worker := DispatchLane(c, s.lanes[e.worker], Fire(e.time, at), next)])
    case Receive(w, dispatchAt) => s.(lanes := s.lanes[w := ReceiveLane(c, w, s.lanes[w], at, dispatchAt)])
    case HangUp(w) => s.(lanes := s.lanes[w := SetPhase(s.lanes[w], Finishing)])
    case Idle(w, due) => s.(lanes := s.lanes[w := IdleLane(c, s.lanes[w], due)])
    case Finish(w) => s.(lanes := s.lanes[w := FinishLane(c, s.lanes[w])])
    case Complete(w, i, r) => s.(lanes := s.lanes[w := CompleteLane(c, s.lanes[w], i, r)])
    case Crash(w) => s.(lanes := s.lanes[w := SetPhase(s.lanes[w], Crashed)])
    case Tick(warmed) =>
      s.(coord := s.coord.(tick := M.Zero(), tickInFlight := 0, tickCapacity := 0, tickLog := [],
                           warm := s.coord.warm || warmed))
    case MergeOne(w) =>
      s.(coord := MergeParcel(c, s.coord, s.lanes[w].report.outbox[0]),
         lanes := s.lanes[w := DeliverLane(s.lanes[w])])
    case Finalize => s.(coord := s.coord.(phase := Finalizing))
  }

  function SetPhase(l: Lane, p: WorkerPhase): Lane { l.(worker := l.worker.(phase := p)) }

  // ---------------------------------------------------------------------------
  // Initial states and runs
  // ---------------------------------------------------------------------------

  predicate FreshSchedule(s: Schedule, first: Option<nat>) {
    s.pending == first && match first case None => s.produced == [] case Some(t) => s.produced == [t]
  }

  predicate FreshChannel(h: Channel) { h.queue == [] && h.accepted == [] && h.full == 0 && h.disconnected == 0 }

  predicate FreshWorker(w: Worker) {
    && w.phase.Receiving? && w.nextSeq == 0 && w.inFlight == 0 && w.drops == 0 && w.lastDrops == 0
    && w.tasks == [] && w.handled == [] && w.issued == [] && w.results == []
  }

  predicate FreshReport(r: Report) {
    M.Blank(r.collector) && r.outbox == [] && r.window == [] && r.delivered == [] && r.deliveredDrops == 0
  }

  predicate FreshLane(l: Lane, first: Option<nat>) {
    FreshSchedule(l.sched, first) && FreshChannel(l.chan) && FreshWorker(l.worker) && FreshReport(l.report)
  }

  predicate FreshCoordinator(k: Coordinator) {
    && k.phase.Ticking? && !k.warm && M.Blank(k.tick) && k.tickInFlight == 0 && k.tickCapacity == 0
    && M.Blank(k.total) && k.totalDrops == 0
    && k.log == [] && k.tickLog == [] && k.warmup == [] && k.warmupDrops == 0
  }

  /** The heap seeded with each scheduler's first instant. */
  function Seeded(firsts: seq<Option<nat>>): multiset<Entry> {
    if firsts == [] then multiset{}
    else
      var k := |firsts| - 1;
      Seeded(firsts[..k]) + (if firsts[k].Some? then multiset{Entry(firsts[k].value, k)} else multiset{})
  }

  /** An entry is on the seeded heap, once, exactly when it is its scheduler's first instant. */
  lemma {:induction false} SeededIff(firsts: seq<Option<nat>>, e: Entry)
    ensures Seeded(firsts)[e] == if e.worker < |firsts| && firsts[e.worker] == Some(e.time) then 1 else 0
  {
    if firsts != [] { SeededIff(firsts[..|firsts|-1], e); }
  }

  /** The seeding loop of the timer thread. */
  method SeedHeap(firsts: seq<Option<nat>>) returns (heap: multiset<Entry>)
    ensures heap == Seeded(firsts)
    ensures forall e :: heap[e] == if e.worker < |firsts| && firsts[e.worker] == Some(e.time) then 1 else 0
  {
    heap := multiset{};
    for i := 0 to |firsts|
      invariant heap == Seeded(firsts[..i])
    {
      if firsts[i].Some? {
        heap := heap + multiset{Entry(firsts[i].value, i)};
      }
      assert firsts[..i+1][..i] == firsts[..i];
    }
    assert firsts[..|firsts|] == firsts;
    forall e
      ensures heap[e] == if e.worker < |firsts| && firsts[e.worker] == Some(e.time) then 1 else 0
    {
      SeededIff(firsts, e);
    }
  }

  predicate FreshTimer(t: Timer, firsts: seq<Option<nat>>) {
    t.phase.Looping? && t.heap == Seeded(firsts) && t.dispatched == 0 && t.dropped == 0 && t.popped == []
  }

  /** Nothing has happened yet but the seeding of the heap; `firsts` are the schedulers' first instants. */
  predicate Started(s: State, firsts: seq<Option<nat>>) {
    && FreshTimer(s.timer, firsts) && FreshCoordinator(s.coord)
    && |s.lanes| == |firsts| && forall w :: 0 <= w < |s.lanes| ==> FreshLane(s.lanes[w], firsts[w])
  }

  datatype Move = Move(step: Step, at: nat)

  /** `states` is a run of the system taking `moves` one after the other. */
  ghost predicate Run(c: Config, states: seq<State>, moves: seq<Move>) {
    && |states| == |moves| + 1
    && (exists firsts :: Started(states[0], firsts))
    && forall i :: 0 <= i < |moves| ==>
         Enabled(c, states[i], moves[i].step, moves[i].at) &&
         states[i+1] == Apply(c, states[i], moves[i].step, moves[i].at)
  }
}
