/**
 What every run of the pipeline keeps: exact accounting of every scheduled instant, the
 heap as a k-way merge, shutdown without losing a dispatched Fire, ordered time stamps and
 an aggregate equal to one collector's over all delivered results.
 */
module PipelineTheorems {
  import opened Wrappers
  import opened Pipeline
  import M = Metrics

  // ---------------------------------------------------------------------------
  // Accounting of one lane
  // ---------------------------------------------------------------------------

  function Fires(q: seq<Message>): seq<Message> {
    if q == [] then [] else (if q[0].Fire? then [q[0]] else []) + Fires(q[1..])
  }

  lemma {:induction false} FiresConcat(a: seq<Message>, b: seq<Message>)
    ensures Fires(a + b) == Fires(a) + Fires(b)
  {
    if a == [] {
      assert a + b == b;
    } else {
      FiresFirst(a);
      FiresFirst(a + b);
      hide Fires;
      assert (a + b)[1..] == a[1..] + b;
      FiresConcat(a[1..], b);
    }
  }

  lemma FiresFirst(q: seq<Message>)
    requires q != []
    ensures Fires(q) == (if q[0].Fire? then [q[0]] else []) + Fires(q[1..])
  {
  }

  predicate Sorted(ts: seq<nat>) {
    forall i, j :: 0 <= i < j < |ts| ==> ts[i] <= ts[j]
  }

  function PendingCount(s: Schedule): nat { if s.pending.Some? then 1 else 0 }

  predicate ScheduleInv(s: Schedule) {
    && Sorted(s.produced)
    && (s.pending.Some? ==> s.produced != [] && s.produced[|s.produced|-1] == s.pending.value)
  }

  /** Every instant the scheduler produced is pending, lost to a full or closed channel, or accepted. */
  predicate ChannelInv(c: Config, s: Schedule, h: Channel, w: Worker) {
    && |s.produced| == PendingCount(s) + h.full + h.disconnected + |h.accepted|
    && h.accepted == w.handled + Fires(h.queue)
    && |h.queue| <= c.capacity
    && (h.disconnected > 0 ==> w.phase.Crashed? && s.pending.None? && h.disconnected == 1)
  }

  /** Every handled Fire was dropped, is in flight holding a permit, or was recorded. */
  predicate WorkerInv(c: Config, w: Worker) {
    && |w.handled| == w.drops + |w.tasks| + |w.results|
    && w.inFlight == |w.tasks|
    && (c.maxInFlight > 0 ==> w.inFlight <= c.maxInFlight)
    && w.nextSeq == |w.tasks| + |w.results|
    && w.lastDrops <= w.drops
  }

  function SumParcelDrops(ps: seq<Parcel>): nat {
    if ps == [] then 0 else ps[0].drops + SumParcelDrops(ps[1..])
  }

  function ParcelResults(ps: seq<Parcel>): seq<M.ExecutionResult> {
    if ps == [] then [] else ps[0].results + ParcelResults(ps[1..])
  }

  lemma {:induction false} ParcelsAppend(ps: seq<Parcel>, p: Parcel)
    ensures SumParcelDrops(ps + [p]) == SumParcelDrops(ps) + p.drops
    ensures ParcelResults(ps + [p]) == ParcelResults(ps) + p.results
  {
    if ps == [] {
      assert ps + [p] == [p];
    } else {
      assert (ps + [p])[1..] == ps[1..] + [p];
      ParcelsAppend(ps[1..], p);
    }
  }

  /** Drop deltas stamped so far add up to the drops counted when they were stamped. */
  predicate DropInv(w: Worker, r: Report) {
    r.deliveredDrops + SumParcelDrops(r.outbox) == if w.phase.Done? then w.drops else w.lastDrops
  }

  /** The collector and every snapshot hold exactly the results they were taken over. */
  ghost predicate ReportInv(c: Config, w: Worker, r: Report) {
    && r.collector == M.StatsOf(c.metrics, r.window)
    && (forall i :: 0 <= i < |r.outbox| ==> r.outbox[i].stats == M.StatsOf(c.metrics, r.outbox[i].results))
    && w.results == r.delivered + ParcelResults(r.outbox) + r.window
    && (w.phase.Done? ==> r.window == [])
  }

  predicate TimingInv(now: nat, h: Channel, w: Worker) {
    && (forall m :: m in h.queue && m.Fire? ==> m.intended <= m.sent <= now)
    && (forall t :: t in w.tasks ==> t.intended <= t.sent <= t.actual <= t.dispatched)
    && (forall r :: r in w.results ==> M.Forward(r))
  }

  predicate LaneInv(c: Config, now: nat, l: Lane) {
    && ScheduleInv(l.sched)
    && ChannelInv(c, l.sched, l.chan, l.worker)
    && WorkerInv(c, l.worker)
    && DropInv(l.worker, l.report)
    && TimingInv(now, l.chan, l.worker)
  }

  // ---------------------------------------------------------------------------
  // Each action keeps it
  // ---------------------------------------------------------------------------

  lemma LaterLane(c: Config, now: nat, at: nat, l: Lane)
    requires LaneInv(c, now, l) && now <= at
    ensures LaneInv(c, at, l)
  {
  }

  lemma FreshLaneInv(c: Config, now: nat, l: Lane, first: Option<nat>)
    requires FreshLane(l, first)
    ensures LaneInv(c, now, l)
  {
  }

  lemma AdvanceInv(s: Schedule, next: Option<nat>)
    requires ScheduleInv(s) && s.pending.Some? && (next.Some? ==> next.value >= s.pending.value)
    ensures ScheduleInv(Advance(s, next))
    ensures |Advance(s, next).produced| == |s.produced| + PendingCount(Advance(s, next))
  {
  }

  lemma DispatchLaneInv(c: Config, at: nat, l: Lane, m: Message, next: Option<nat>)
    requires LaneInv(c, at, l) && l.sched.pending.Some?
    requires m.Fire? && m.intended <= m.sent <= at
    requires next.Some? ==> next.value >= l.sched.pending.value
    requires !Open(l) ==> l.worker.phase.Crashed?
    ensures LaneInv(c, at, DispatchLane(c, l, m, next))
  {
    AdvanceInv(l.sched, next);
    FiresConcat(l.chan.queue, [m]);
    assert Fires([m]) == [m];
  }

  lemma EnqueueLaneInv(c: Config, at: nat, l: Lane, m: Message)
    requires LaneInv(c, at, l) && !m.Fire? && |l.chan.queue| < c.capacity
    ensures LaneInv(c, at, l.(chan := l.chan.(queue := l.chan.queue + [m])))
  {
    FiresConcat(l.chan.queue, [m]);
    assert Fires([m]) == [];
  }

  lemma HandleFireInv(c: Config, core: nat, w: Worker, m: Message, at: nat, dispatchAt: nat)
    requires WorkerInv(c, w) && m.Fire?
    ensures var v := HandleFire(c, core, w, m, at, dispatchAt);
            && WorkerInv(c, v) && v.handled == w.handled + [m] && v.phase == Draining
            && v.results == w.results && v.lastDrops == w.lastDrops
            && (v.tasks == w.tasks || exists id :: v.tasks == w.tasks + [Task(id, m.intended, m.sent, at, dispatchAt)])
  {
  }

  lemma SnapshotDrops(c: Config, l: Lane)
    requires WorkerInv(c, l.worker) && DropInv(l.worker, l.report) && !l.worker.phase.Done?
    ensures var r := SendSnapshot(c, l); r.deliveredDrops + SumParcelDrops(r.outbox) == l.worker.drops
  {
    var r := SendSnapshot(c, l);
    ParcelsAppend(l.report.outbox, r.outbox[|r.outbox|-1]);
  }

  lemma FinishLaneInv(c: Config, at: nat, l: Lane)
    requires LaneInv(c, at, l) && (l.worker.phase.Draining? || l.worker.phase.Finishing?)
    ensures LaneInv(c, at, FinishLane(c, l))
  {
    SnapshotDrops(c, l);
  }

  lemma IdleLaneInv(c: Config, at: nat, l: Lane, due: bool)
    requires LaneInv(c, at, l) && l.worker.phase.Draining?
    ensures LaneInv(c, at, IdleLane(c, l, due))
  {
    SnapshotDrops(c, l);
  }

  lemma PopQueue(c: Config, at: nat, l: Lane)
    requires LaneInv(c, at, l) && l.chan.queue != []
    ensures var m, q := l.chan.queue[0], l.chan.queue[1..];
            && l.chan.accepted == l.worker.handled + (if m.Fire? then [m] else []) + Fires(q)
            && (forall x :: x in q ==> x in l.chan.queue)
            && (m.Fire? ==> m.intended <= m.sent <= at)
  {
    assert l.chan.queue[0] in l.chan.queue;
  }

  lemma ReceiveFire(c: Config, core: nat, at: nat, l: Lane, dispatchAt: nat)
    requires LaneInv(c, at, l) && l.chan.queue != [] && dispatchAt >= at && l.chan.queue[0].Fire?
    requires l.worker.phase.Receiving? || l.worker.phase.Draining?
    ensures LaneInv(c, at, ReceiveLane(c, core, l, at, dispatchAt))
  {
    PopQueue(c, at, l);
    HandleFireInv(c, core, l.worker, l.chan.queue[0], at, dispatchAt);
    hide HandleFire, Fires;
  }

  lemma PopControl(c: Config, at: nat, l: Lane, p: WorkerPhase)
    requires LaneInv(c, at, l) && l.chan.queue != [] && !l.chan.queue[0].Fire?
    requires l.worker.phase.Receiving? || l.worker.phase.Draining?
    requires p.Draining? || p.Receiving? || p.Finishing?
    ensures LaneInv(c, at, SetPhase(l.(chan := l.chan.(queue := l.chan.queue[1..])), p))
  {
    PopQueue(c, at, l);
    hide Fires;
  }

  lemma ReceiveLaneInv(c: Config, core: nat, at: nat, l: Lane, dispatchAt: nat)
    requires LaneInv(c, at, l) && l.chan.queue != [] && dispatchAt >= at
    requires l.worker.phase.Receiving? || l.worker.phase.Draining?
    ensures LaneInv(c, at, ReceiveLane(c, core, l, at, dispatchAt))
  {
    hide LaneInv, HandleFire, SendSnapshot;
    if l.chan.queue[0].Fire? {
      ReceiveFire(c, core, at, l, dispatchAt);
    } else {
      PopControl(c, at, l, Draining);
      PopControl(c, at, l, Finishing);
      if l.chan.queue[0].Stop? && l.worker.phase.Draining? {
        FinishLaneInv(c, at, SetPhase(l.(chan := l.chan.(queue := l.chan.queue[1..])), Draining));
      }
    }
  }

  lemma CompleteLaneInv(c: Config, at: nat, l: Lane, i: nat, r: M.ExecutionResult)
    requires LaneInv(c, at, l) && Open(l) && i < |l.worker.tasks| && l.worker.inFlight > 0
    requires Result(l.worker.tasks[i], r)
    ensures LaneInv(c, at, CompleteLane(c, l, i, r))
  {
    hide M.Merge, M.Of;
    assert l.worker.tasks[i] in l.worker.tasks;
  }

  lemma DeliverLaneInv(c: Config, at: nat, l: Lane)
    requires LaneInv(c, at, l) && l.report.outbox != []
    ensures LaneInv(c, at, DeliverLane(l))
  {
  }

  // ---------------------------------------------------------------------------
  // Snapshots hold what was recorded
  // ---------------------------------------------------------------------------

  lemma SnapshotReport(c: Config, l: Lane, w: Worker)
    requires ReportInv(c, l.worker, l.report) && w.results == l.worker.results
    ensures ReportInv(c, w, SendSnapshot(c, l))
  {
    hide M.Merge, M.Of;
    var r := SendSnapshot(c, l);
    ParcelsAppend(l.report.outbox, r.outbox[|r.outbox|-1]);
    M.StatsOfNone(c.metrics);
    var x, y, z := l.report.delivered, ParcelResults(l.report.outbox), l.report.window;
    assert x + y + z == x + (y + z) + [];
  }

  lemma CompleteReport(c: Config, l: Lane, i: nat, r: M.ExecutionResult)
    requires ReportInv(c, l.worker, l.report) && Open(l) && i < |l.worker.tasks| && l.worker.inFlight > 0
    ensures var l' := CompleteLane(c, l, i, r); ReportInv(c, l'.worker, l'.report)
  {
    hide M.Merge, M.Of;
    var w := l.report.window;
    assert (w + [r])[..|w + [r]|-1] == w;
    var base := l.report.delivered + ParcelResults(l.report.outbox);
    assert base + w + [r] == base + (w + [r]);
  }

  lemma DeliverReport(c: Config, l: Lane)
    requires ReportInv(c, l.worker, l.report) && l.report.outbox != []
    ensures ReportInv(c, l.worker, DeliverLane(l).report)
  {
    hide M.StatsOf, M.Merge, M.Of;
    var d, p, rest, w := l.report.delivered, l.report.outbox[0], l.report.outbox[1..], l.report.window;
    assert d + (p.results + ParcelResults(rest)) + w == (d + p.results) + ParcelResults(rest) + w;
  }

  // ---------------------------------------------------------------------------
  // The heap is a k-way merge
  // ---------------------------------------------------------------------------

  /** The instants popped for worker `w`, in order. */
  function Popped(es: seq<Entry>, w: nat): seq<nat> {
    if es == [] then []
    else Popped(es[..|es|-1], w) + if es[|es|-1].worker == w then [es[|es|-1].time] else []
  }

  lemma PoppedAppend(es: seq<Entry>, e: Entry, w: nat)
    ensures Popped(es + [e], w) == Popped(es, w) + if e.worker == w then [e.time] else []
  {
    assert (es + [e])[..|es + [e]|-1] == es;
  }

  function PendingSeq(s: Schedule): seq<nat> { if s.pending.Some? then [s.pending.value] else [] }

  predicate SortedEntries(es: seq<Entry>) {
    forall i, j :: 0 <= i < j < |es| ==> Leq(es[i], es[j])
  }

  /** The heap holds exactly one entry for every worker with a pending instant. */
  predicate HeapInv(heap: multiset<Entry>, lanes: seq<Lane>) {
    && (forall e :: e in heap ==> e.worker < |lanes| && lanes[e.worker].sched.pending == Some(e.time) && heap[e] == 1)
    && (forall w :: 0 <= w < |lanes| && lanes[w].sched.pending.Some? ==> Entry(lanes[w].sched.pending.value, w) in heap)
  }

  predicate MergeInv(t: Timer, lanes: seq<Lane>) {
    && HeapInv(t.heap, lanes)
    && SortedEntries(t.popped)
    && (forall e, f :: e in t.popped && f in t.heap ==> Leq(e, f))
    && (forall w :: 0 <= w < |lanes| ==> lanes[w].sched.produced == Popped(t.popped, w) + PendingSeq(lanes[w].sched))
    && (forall e :: e in t.popped ==> e.worker < |lanes|)
  }

  lemma MergeFrame(t: Timer, t': Timer, lanes: seq<Lane>, w: nat, l: Lane)
    requires MergeInv(t, lanes) && w < |lanes| && l.sched == lanes[w].sched
    requires t'.heap == t.heap && t'.popped == t.popped
    ensures MergeInv(t', lanes[w := l])
  {
    var lanes' := lanes[w := l];
    assert forall v :: 0 <= v < |lanes| ==> lanes'[v].sched == lanes[v].sched;
  }

  lemma DispatchPending(c: Config, t: Timer, l: Lane, m: Message, e: Entry, next: Option<nat>)
    ensures var pending := if Open(l) then next else None;
            var rest := t.heap - multiset{e};
            && DispatchLane(c, l, m, next).sched.pending == pending
            && DispatchTimer(c, t, l, e, next).heap ==
               if pending.Some? then rest + multiset{Entry(pending.value, e.worker)} else rest
  {
  }

  /** Replacing a worker's entry by its next one, or by none. */
  lemma ReplaceEntry(heap: multiset<Entry>, lanes: seq<Lane>, e: Entry, l': Lane)
    requires HeapInv(heap, lanes) && e in heap
    ensures var rest := heap - multiset{e};
            HeapInv(if l'.sched.pending.Some? then rest + multiset{Entry(l'.sched.pending.value, e.worker)} else rest,
                    lanes[e.worker := l'])
  {
    var rest := heap - multiset{e};
    var lanes' := lanes[e.worker := l'];
    assert forall f :: f in rest ==> f in heap && f.worker != e.worker && rest[f] == 1;
    forall w | 0 <= w < |lanes| && w != e.worker && lanes'[w].sched.pending.Some?
      ensures Entry(lanes'[w].sched.pending.value, w) in rest
    {
      assert lanes'[w] == lanes[w];
      assert Entry(lanes[w].sched.pending.value, w) in heap;
    }
  }

  lemma PopHeap(c: Config, t: Timer, lanes: seq<Lane>, m: Message, e: Entry, next: Option<nat>)
    requires HeapInv(t.heap, lanes) && e in t.heap
    ensures var l := lanes[e.worker];
            HeapInv(DispatchTimer(c, t, l, e, next).heap, lanes[e.worker := DispatchLane(c, l, m, next)])
  {
    hide DispatchLane, DispatchTimer, Open;
    DispatchPending(c, t, lanes[e.worker], m, e, next);
    ReplaceEntry(t.heap, lanes, e, DispatchLane(c, lanes[e.worker], m, next));
  }

  lemma PopProduced(c: Config, t: Timer, lanes: seq<Lane>, m: Message, e: Entry, next: Option<nat>, w: nat)
    requires e.worker < |lanes| && w < |lanes| && lanes[e.worker].sched.pending == Some(e.time)
    requires lanes[w].sched.produced == Popped(t.popped, w) + PendingSeq(lanes[w].sched)
    ensures var l' := lanes[e.worker := DispatchLane(c, lanes[e.worker], m, next)][w];
            l'.sched.produced == Popped(t.popped + [e], w) + PendingSeq(l'.sched)
  {
    PoppedAppend(t.popped, e, w);
  }

  lemma PopOrder(popped: seq<Entry>, heap: multiset<Entry>, e: Entry, heap': multiset<Entry>)
    requires SortedEntries(popped) && (forall x, f :: x in popped && f in heap ==> Leq(x, f))
    requires e in heap && (forall f :: f in heap ==> Leq(e, f))
    requires forall f :: f in heap' ==> f in heap || (f.worker == e.worker && f.time >= e.time)
    ensures SortedEntries(popped + [e]) && (forall x, f :: x in popped + [e] && f in heap' ==> Leq(x, f))
  {
    forall x, f | x in popped + [e] && f in heap' ensures Leq(x, f) {
      assert Leq(x, e);
      assert Leq(e, f);
    }
  }

  lemma DispatchPops(c: Config, t: Timer, l: Lane, e: Entry, next: Option<nat>)
    ensures var t' := DispatchTimer(c, t, l, e, next);
            && t'.phase == t.phase && t'.popped == t.popped + [e]
            && forall f :: f in t'.heap ==> f in t.heap || (next.Some? && f == Entry(next.value, e.worker))
  {
  }

  lemma DispatchMerge(c: Config, t: Timer, lanes: seq<Lane>, m: Message, e: Entry, next: Option<nat>)
    requires MergeInv(t, lanes) && e in t.heap && (forall f :: f in t.heap ==> Leq(e, f))
    requires next.Some? ==> next.value >= e.time
    ensures var l := lanes[e.worker];
            MergeInv(DispatchTimer(c, t, l, e, next), lanes[e.worker := DispatchLane(c, l, m, next)])
  {
    hide DispatchTimer, DispatchLane, Popped, SortedEntries;
    var t' := DispatchTimer(c, t, lanes[e.worker], e, next);
    var lanes' := lanes[e.worker := DispatchLane(c, lanes[e.worker], m, next)];
    DispatchPops(c, t, lanes[e.worker], e, next);
    PopHeap(c, t, lanes, m, e, next);
    PopOrder(t.popped, t.heap, e, t'.heap);
    forall w | 0 <= w < |lanes'|
      ensures lanes'[w].sched.produced == Popped(t'.popped, w) + PendingSeq(lanes'[w].sched)
    {
      PopProduced(c, t, lanes, m, e, next, w);
    }
  }

  // ---------------------------------------------------------------------------
  // Shutdown
  // ---------------------------------------------------------------------------

  /** The timer may still send something other than a final Stop to channel `w`. */
  predicate MaySend(p: TimerPhase, w: nat) {
    match p
    case Looping => true
    case Forwarding(_, _) => true
    case Stopping(k) => k <= w
    case Exited => false
  }

  predicate StopLast(q: seq<Message>) {
    forall i :: 0 <= i < |q| - 1 ==> q[i] != Stop
  }

  predicate ShutdownInv(p: TimerPhase, w: nat, l: Lane) {
    && StopLast(l.chan.queue)
    && (MaySend(p, w) ==> Stop !in l.chan.queue && !l.worker.phase.Finishing? && !l.worker.phase.Done?)
    && (l.worker.phase.Finishing? || l.worker.phase.Done? ==> l.chan.queue == [])
  }

  lemma ReceiveShutdown(c: Config, p: TimerPhase, w: nat, l: Lane, at: nat, dispatchAt: nat)
    requires ShutdownInv(p, w, l) && l.chan.queue != []
    requires l.worker.phase.Receiving? || l.worker.phase.Draining?
    ensures ShutdownInv(p, w, ReceiveLane(c, w, l, at, dispatchAt))
  {
    var q := l.chan.queue;
    assert q[0] in q;
    assert ReceiveLane(c, w, l, at, dispatchAt).chan.queue == q[1..];
    assert forall m :: m in q[1..] ==> m in q;
    if q[0] == Stop {
      assert |q| == 1;
    }
  }

  // ---------------------------------------------------------------------------
  // Sums over lanes
  // ---------------------------------------------------------------------------

  function Sum(ls: seq<Lane>, f: Lane -> nat): nat {
    if ls == [] then 0 else Sum(ls[..|ls|-1], f) + f(ls[|ls|-1])
  }

  lemma {:induction false} SumUpdate(ls: seq<Lane>, f: Lane -> nat, w: nat, l: Lane)
    requires w < |ls|
    ensures Sum(ls[w := l], f) + f(ls[w]) == Sum(ls, f) + f(l)
  {
    var k := |ls| - 1;
    if w == k {
      assert ls[w := l][..k] == ls[..k];
    } else {
      assert ls[w := l][..k] == ls[..k][w := l];
      SumUpdate(ls[..k], f, w, l);
    }
  }

  lemma {:induction false} SumZero(ls: seq<Lane>, f: Lane -> nat)
    requires forall l :: l in ls ==> f(l) == 0
    ensures Sum(ls, f) == 0
  {
    if ls != [] {
      assert ls[|ls|-1] in ls;
      SumZero(ls[..|ls|-1], f);
    }
  }

  const ACCEPTED: Lane -> nat := (l: Lane) => |l.chan.accepted|
  const FULL: Lane -> nat := (l: Lane) => l.chan.full
  const CLOSED: Lane -> nat := (l: Lane) => l.chan.disconnected
  const DELIVERED_DROPS: Lane -> nat := (l: Lane) => l.report.deliveredDrops

  function DeliveredResults(ls: seq<Lane>): multiset<M.ExecutionResult> {
    if ls == [] then multiset{}
    else DeliveredResults(ls[..|ls|-1]) + multiset(ls[|ls|-1].report.delivered)
  }

  lemma {:induction false} DeliveredUpdate(ls: seq<Lane>, w: nat, l: Lane)
    requires w < |ls|
    ensures DeliveredResults(ls[w := l]) + multiset(ls[w].report.delivered) ==
            DeliveredResults(ls) + multiset(l.report.delivered)
  {
    var k := |ls| - 1;
    if w == k {
      assert ls[w := l][..k] == ls[..k];
    } else {
      assert ls[w := l][..k] == ls[..k][w := l];
      DeliveredUpdate(ls[..k], w, l);
      var x, y, z := multiset(ls[w].report.delivered), multiset(l.report.delivered), multiset(ls[k].report.delivered);
      var a, b := DeliveredResults(ls[..k][w := l]), DeliveredResults(ls[..k]);
      assert a + z + x == (a + x) + z == (b + y) + z == b + z + y;
    }
  }

  predicate CounterInv(s: State) {
    && s.timer.dispatched == Sum(s.lanes, ACCEPTED)
    && s.timer.dropped == Sum(s.lanes, FULL)
    && |s.timer.popped| == s.timer.dispatched + s.timer.dropped + Sum(s.lanes, CLOSED)
  }

  ghost predicate CoordInv(c: Config, k: Coordinator, lanes: seq<Lane>) {
    && k.total == M.StatsOf(c.metrics, k.log)
    && k.tick == M.StatsOf(c.metrics, k.tickLog)
    && (forall r :: r in k.tickLog ==> r in DeliveredResults(lanes))
    && multiset(k.log) + multiset(k.warmup) == DeliveredResults(lanes)
    && k.totalDrops + k.warmupDrops == Sum(lanes, DELIVERED_DROPS)
  }

  // ---------------------------------------------------------------------------
  // Every step keeps the invariant
  // ---------------------------------------------------------------------------

  predicate PhaseInv(p: TimerPhase, n: nat) {
    && (p.Forwarding? ==> p.next < n && (p.msg.UpdateTargets? || p.msg.UpdateMetadata?))
    && (p.Stopping? ==> p.next < n)
  }

  predicate LanesInv(c: Config, now: nat, lanes: seq<Lane>) {
    forall w :: 0 <= w < |lanes| ==> LaneInv(c, now, lanes[w])
  }

  ghost predicate ReportsInv(c: Config, lanes: seq<Lane>) {
    forall w :: 0 <= w < |lanes| ==> ReportInv(c, lanes[w].worker, lanes[w].report)
  }

  predicate ShutdownsInv(p: TimerPhase, lanes: seq<Lane>) {
    forall w :: 0 <= w < |lanes| ==> ShutdownInv(p, w, lanes[w])
  }

  ghost predicate Inv(c: Config, s: State) {
    && PhaseInv(s.timer.phase, |s.lanes|)
    && LanesInv(c, s.now, s.lanes)
    && ReportsInv(c, s.lanes)
    && ShutdownsInv(s.timer.phase, s.lanes)
    && MergeInv(s.timer, s.lanes)
    && CounterInv(s)
    && CoordInv(c, s.coord, s.lanes)
  }

  /** The lane a step acts on, if any, and what the step makes of it. */
  function Target(s: State, step: Step): Option<nat> {
    match step
    case ForwardOne => if s.timer.phase.Forwarding? then Some(s.timer.phase.next) else None
    case StopOne => if s.timer.phase.Stopping? then Some(s.timer.phase.next) else None
    case Dispatch(e, _) => Some(e.worker)
    case Receive(w, _) => Some(w)
    case HangUp(w) => Some(w)
    case Idle(w, _) => Some(w)
    case Finish(w) => Some(w)
    case Complete(w, _, _) => Some(w)
    case Crash(w) => Some(w)
    case MergeOne(w) => Some(w)
    case _ => None
  }

  /** A step changes at most its target's lane. */
  lemma OneLane(c: Config, s: State, step: Step, at: nat)
    requires Enabled(c, s, step, at)
    ensures var s', t := Apply(c, s, step, at), Target(s, step);
            && s'.now == at && |s'.lanes| == |s.lanes|
            && (t.None? ==> s'.lanes == s.lanes)
            && (t.Some? ==> t.value < |s.lanes| && s'.lanes == s.lanes[t.value := s'.lanes[t.value]])
  {
    hide M.Merge, M.Of, HandleFire, SendSnapshot, MergeParcel, DispatchTimer;
  }

  lemma SetPhaseInv(c: Config, at: nat, l: Lane, p: WorkerPhase)
    requires LaneInv(c, at, l) && Open(l) && (p.Finishing? || p.Crashed?)
    ensures LaneInv(c, at, SetPhase(l, p))
  {
  }

  lemma StepLane(c: Config, s: State, step: Step, at: nat)
    requires Inv(c, s) && Enabled(c, s, step, at) && Target(s, step).Some?
    requires Target(s, step).value < |s.lanes| && LaneInv(c, at, s.lanes[Target(s, step).value])
    ensures LaneInv(c, at, Apply(c, s, step, at).lanes[Target(s, step).value])
  {
    hide MergeInv, CounterInv, CoordInv, ReportsInv, LanesInv;
    var w := Target(s, step).value;
    var l := s.lanes[w];
    assert ShutdownInv(s.timer.phase, w, l);
    match step
    case ForwardOne => if Open(l) { EnqueueLaneInv(c, at, l, s.timer.phase.msg); }
    case StopOne => if Open(l) && |l.chan.queue| < c.capacity { EnqueueLaneInv(c, at, l, Stop); }
    case Dispatch(e, next) =>
      PendingEntry(s, e);
      DispatchLaneInv(c, at, l, Fire(e.time, at), next);
    case Receive(_, dispatchAt) => ReceiveLaneInv(c, w, at, l, dispatchAt);
    case HangUp(_) => SetPhaseInv(c, at, l, Finishing);
    case Idle(_, due) => IdleLaneInv(c, at, l, due);
    case Finish(_) => FinishLaneInv(c, at, l);
    case Complete(_, i, r) => CompleteLaneInv(c, at, l, i, r);
    case Crash(_) => SetPhaseInv(c, at, l, Crashed);
    case MergeOne(_) => DeliverLaneInv(c, at, l);
  }

  lemma PendingEntry(s: State, e: Entry)
    requires MergeInv(s.timer, s.lanes) && e in s.timer.heap
    ensures e.worker < |s.lanes| && s.lanes[e.worker].sched.pending == Some(e.time)
  {
  }

  lemma StepTime(c: Config, s: State, step: Step, at: nat)
    requires Enabled(c, s, step, at)
    ensures s.now <= at
  {
  }

  lemma InvLane(c: Config, s: State, w: nat)
    requires Inv(c, s) && w < |s.lanes|
    ensures LaneInv(c, s.now, s.lanes[w])
  {
    hide LaneInv, PhaseInv, ShutdownsInv, MergeInv, CounterInv, CoordInv, ReportsInv;
  }

  lemma StepLaneAt(c: Config, s: State, step: Step, at: nat, w: nat)
    requires Inv(c, s) && Enabled(c, s, step, at) && w < |s.lanes|
    ensures w < |Apply(c, s, step, at).lanes| && LaneInv(c, at, Apply(c, s, step, at).lanes[w])
  {
    hide *;
    StepTime(c, s, step, at);
    OneLane(c, s, step, at);
    InvLane(c, s, w);
    LaterLane(c, s.now, at, s.lanes[w]);
    if Target(s, step) == Some(w) { StepLane(c, s, step, at); }
  }

  lemma StepLanes(c: Config, s: State, step: Step, at: nat)
    requires Inv(c, s) && Enabled(c, s, step, at)
    ensures LanesInv(c, at, Apply(c, s, step, at).lanes)
  {
    hide Apply, Enabled, LaneInv, Inv;
    OneLane(c, s, step, at);
    var s' := Apply(c, s, step, at);
    forall w | 0 <= w < |s'.lanes| ensures LaneInv(c, at, s'.lanes[w]) {
      StepLaneAt(c, s, step, at, w);
    }
  }

  lemma ReceiveReport(c: Config, core: nat, l: Lane, at: nat, dispatchAt: nat)
    requires ReportInv(c, l.worker, l.report) && l.chan.queue != [] && !l.worker.phase.Done?
    ensures var l' := ReceiveLane(c, core, l, at, dispatchAt); ReportInv(c, l'.worker, l'.report)
  {
    hide M.StatsOf;
    var r := l.(chan := l.chan.(queue := l.chan.queue[1..]));
    SnapshotReport(c, r, r.worker.(phase := Done));
    hide SendSnapshot;
  }

  lemma StepReport(c: Config, s: State, step: Step, at: nat)
    requires ReportsInv(c, s.lanes) && ShutdownsInv(s.timer.phase, s.lanes) && PhaseInv(s.timer.phase, |s.lanes|)
    requires Enabled(c, s, step, at) && Target(s, step).Some? && Target(s, step).value < |s.lanes|
    ensures var l' := Apply(c, s, step, at).lanes[Target(s, step).value]; ReportInv(c, l'.worker, l'.report)
  {
    hide M.StatsOf, M.Merge, M.Of;
    var w := Target(s, step).value;
    var l := s.lanes[w];
    assert ReportInv(c, l.worker, l.report) && ShutdownInv(s.timer.phase, w, l);
    var l' := Apply(c, s, step, at).lanes[w];
    match step
    case Receive(_, dispatchAt) =>
      hide ReceiveLane, ReportInv;
      ReceiveReport(c, w, l, at, dispatchAt);
    case Idle(_, due) => SnapshotReport(c, l, l'.worker);
    case Finish(_) => SnapshotReport(c, l, l'.worker);
    case Complete(_, i, r) => CompleteReport(c, l, i, r);
    case MergeOne(_) => DeliverReport(c, l);
    case _ =>
  }

  lemma StepReports(c: Config, s: State, step: Step, at: nat)
    requires Inv(c, s) && Enabled(c, s, step, at)
    ensures ReportsInv(c, Apply(c, s, step, at).lanes)
  {
    hide Apply, Enabled, Target, ReportInv, MergeInv, CounterInv, CoordInv, LanesInv, ShutdownsInv;
    OneLane(c, s, step, at);
    var s' := Apply(c, s, step, at);
    forall w | 0 <= w < |s.lanes| ensures ReportInv(c, s'.lanes[w].worker, s'.lanes[w].report) {
      if Target(s, step) == Some(w) { StepReport(c, s, step, at); }
    }
  }

  lemma StepShutdowns(c: Config, s: State, step: Step, at: nat)
    requires PhaseInv(s.timer.phase, |s.lanes|) && ShutdownsInv(s.timer.phase, s.lanes)
    requires Enabled(c, s, step, at)
    ensures var s' := Apply(c, s, step, at);
            PhaseInv(s'.timer.phase, |s'.lanes|) && ShutdownsInv(s'.timer.phase, s'.lanes)
  {
    StepPhase(c, s, step, at);
    hide PhaseInv, ShutdownInv, Enabled, Apply;
    var s' := Apply(c, s, step, at);
    forall w | 0 <= w < |s'.lanes| ensures ShutdownInv(s'.timer.phase, w, s'.lanes[w]) {
      assert ShutdownInv(s.timer.phase, w, s.lanes[w]);
      StepShutdown(c, s, step, at, w);
    }
  }

  lemma StepPhase(c: Config, s: State, step: Step, at: nat)
    requires PhaseInv(s.timer.phase, |s.lanes|) && Enabled(c, s, step, at)
    ensures PhaseInv(Apply(c, s, step, at).timer.phase, |s.lanes|)
  {
    hide M.Merge, M.Of, DispatchTimer, DispatchLane, MergeParcel, ReceiveLane, CompleteLane, IdleLane, FinishLane;
    if step.Dispatch? {
      DispatchPops(c, s.timer, s.lanes[step.entry.worker], step.entry, step.next);
    }
  }

  lemma StepShutdown(c: Config, s: State, step: Step, at: nat, w: nat)
    requires PhaseInv(s.timer.phase, |s.lanes|) && Enabled(c, s, step, at)
    requires w < |s.lanes| && ShutdownInv(s.timer.phase, w, s.lanes[w])
    ensures ShutdownInv(Apply(c, s, step, at).timer.phase, w, Apply(c, s, step, at).lanes[w])
  {
    hide M.Merge, M.Of, SendSnapshot, DispatchTimer, MergeParcel, ReceiveLane;
    if step.Dispatch? {
      DispatchPops(c, s.timer, s.lanes[step.entry.worker], step.entry, step.next);
    }
    if step.Receive? && step.w == w {
      ReceiveShutdown(c, s.timer.phase, w, s.lanes[w], at, step.dispatchAt);
    }
  }

  lemma SchedulesKept(c: Config, s: State, step: Step, at: nat)
    requires Enabled(c, s, step, at) && !step.Dispatch?
    ensures var s' := Apply(c, s, step, at);
            && s'.timer.heap == s.timer.heap && s'.timer.popped == s.timer.popped
            && (Target(s, step).Some? && Target(s, step).value < |s.lanes| ==>
                  s'.lanes[Target(s, step).value].sched == s.lanes[Target(s, step).value].sched)
  {
    hide M.Merge, M.Of, HandleFire, SendSnapshot, MergeParcel;
  }

  lemma MergeSame(t: Timer, t': Timer, lanes: seq<Lane>)
    requires MergeInv(t, lanes) && t'.heap == t.heap && t'.popped == t.popped
    ensures MergeInv(t', lanes)
  {
  }

  lemma StepMerge(c: Config, s: State, step: Step, at: nat)
    requires MergeInv(s.timer, s.lanes) && Enabled(c, s, step, at)
    ensures var s' := Apply(c, s, step, at); MergeInv(s'.timer, s'.lanes)
  {
    if step.Dispatch? {
      hide MergeInv, DispatchTimer, DispatchLane;
      DispatchMerge(c, s.timer, s.lanes, Fire(step.entry.time, at), step.entry, step.next);
    } else {
      hide Apply, Enabled, Target, MergeInv;
      OneLane(c, s, step, at);
      SchedulesKept(c, s, step, at);
      var s', t := Apply(c, s, step, at), Target(s, step);
      if t.Some? {
        MergeFrame(s.timer, s'.timer, s.lanes, t.value, s'.lanes[t.value]);
      } else {
        MergeSame(s.timer, s'.timer, s.lanes);
      }
    }
  }

  /** Only a dispatch moves the timer's counters and the channels' accounts of Fires. */
  lemma CountersFrame(c: Config, s: State, step: Step, at: nat)
    requires Enabled(c, s, step, at) && !step.Dispatch?
    ensures var s', t := Apply(c, s, step, at), Target(s, step);
            && s'.timer.dispatched == s.timer.dispatched && s'.timer.dropped == s.timer.dropped
            && s'.timer.popped == s.timer.popped
            && (t.Some? && t.value < |s.lanes| ==>
                  && ACCEPTED(s'.lanes[t.value]) == ACCEPTED(s.lanes[t.value])
                  && FULL(s'.lanes[t.value]) == FULL(s.lanes[t.value])
                  && CLOSED(s'.lanes[t.value]) == CLOSED(s.lanes[t.value]))
  {
    hide M.Merge, M.Of, HandleFire, SendSnapshot, MergeParcel;
  }

  lemma DispatchCounters(c: Config, t: Timer, l: Lane, m: Message, e: Entry, next: Option<nat>)
    ensures var t', l' := DispatchTimer(c, t, l, e, next), DispatchLane(c, l, m, next);
            && t'.dispatched - t.dispatched == ACCEPTED(l') - ACCEPTED(l)
            && t'.dropped - t.dropped == FULL(l') - FULL(l)
            && |t'.popped| == |t.popped| + 1
            && ACCEPTED(l') + FULL(l') + CLOSED(l') == ACCEPTED(l) + FULL(l) + CLOSED(l) + 1
  {
  }

  lemma StepCounters(c: Config, s: State, step: Step, at: nat)
    requires CounterInv(s) && Enabled(c, s, step, at)
    ensures CounterInv(Apply(c, s, step, at))
  {
    OneLane(c, s, step, at);
    var s' := Apply(c, s, step, at);
    var t := Target(s, step);
    if t.Some? {
      SumUpdate(s.lanes, ACCEPTED, t.value, s'.lanes[t.value]);
      SumUpdate(s.lanes, FULL, t.value, s'.lanes[t.value]);
      SumUpdate(s.lanes, CLOSED, t.value, s'.lanes[t.value]);
    }
    if step.Dispatch? {
      var l := s.lanes[step.entry.worker];
      DispatchCounters(c, s.timer, l, Fire(step.entry.time, at), step.entry, step.next);
      hide DispatchTimer, DispatchLane;
    } else {
      CountersFrame(c, s, step, at);
      hide Apply;
    }
  }

  lemma Cancel<T>(a: multiset<T>, b: multiset<T>, x: multiset<T>)
    requires a + x == b + x
    ensures a == b
  {
    assert forall e :: (a + x)[e] == a[e] + x[e] && (b + x)[e] == b[e] + x[e];
  }

  lemma DeliveredMore(lanes: seq<Lane>, w: nat, p: Parcel)
    requires w < |lanes| && lanes[w].report.outbox != [] && p == lanes[w].report.outbox[0]
    ensures var lanes' := lanes[w := DeliverLane(lanes[w])];
            && DeliveredResults(lanes') == DeliveredResults(lanes) + multiset(p.results)
            && Sum(lanes', DELIVERED_DROPS) == Sum(lanes, DELIVERED_DROPS) + p.drops
  {
    var l, l' := lanes[w], DeliverLane(lanes[w]);
    SumUpdate(lanes, DELIVERED_DROPS, w, l');
    DeliveredUpdate(lanes, w, l');
    var d, q := multiset(l.report.delivered), multiset(p.results);
    assert multiset(l'.report.delivered) == q + d;
    assert DeliveredResults(lanes) + (q + d) == (DeliveredResults(lanes) + q) + d;
    Cancel(DeliveredResults(lanes[w := l']), DeliveredResults(lanes) + q, d);
  }

  lemma MergeParcelStats(c: Config, k: Coordinator, p: Parcel)
    requires k.total == M.StatsOf(c.metrics, k.log) && k.tick == M.StatsOf(c.metrics, k.tickLog)
    requires p.stats == M.StatsOf(c.metrics, p.results)
    ensures var k' := MergeParcel(c, k, p);
            && k'.total == M.StatsOf(c.metrics, k'.log) && k'.tick == M.StatsOf(c.metrics, k'.tickLog)
            && (forall r :: r in k'.tickLog ==> r in k.tickLog || r in multiset(p.results))
            && multiset(k'.log) + multiset(k'.warmup) == multiset(k.log) + multiset(k.warmup) + multiset(p.results)
            && k'.totalDrops + k'.warmupDrops == k.totalDrops + k.warmupDrops + p.drops
  {
    hide M.StatsOf, M.Merge;
    M.StatsOfConcat(c.metrics, k.log, p.results);
    M.StatsOfConcat(c.metrics, k.tickLog, p.results);
  }

  lemma MergeParcelInv(c: Config, k: Coordinator, lanes: seq<Lane>, w: nat)
    requires CoordInv(c, k, lanes) && w < |lanes| && lanes[w].report.outbox != []
    requires ReportInv(c, lanes[w].worker, lanes[w].report)
    ensures CoordInv(c, MergeParcel(c, k, lanes[w].report.outbox[0]), lanes[w := DeliverLane(lanes[w])])
  {
    hide M.StatsOf, MergeParcel, DeliverLane, Sum, DeliveredResults;
    MergeParcelStats(c, k, lanes[w].report.outbox[0]);
    DeliveredMore(lanes, w, lanes[w].report.outbox[0]);
  }

  lemma StepCoord(c: Config, s: State, step: Step, at: nat)
    requires CoordInv(c, s.coord, s.lanes) && ReportsInv(c, s.lanes) && Enabled(c, s, step, at)
    ensures var s' := Apply(c, s, step, at); CoordInv(c, s'.coord, s'.lanes)
  {
    if step.MergeOne? {
      hide CoordInv, ReportInv, MergeParcel, DeliverLane;
      assert ReportInv(c, s.lanes[step.w].worker, s.lanes[step.w].report);
      MergeParcelInv(c, s.coord, s.lanes, step.w);
    } else {
      CoordSame(c, s, step, at);
    }
  }

  lemma CoordSame(c: Config, s: State, step: Step, at: nat)
    requires CoordInv(c, s.coord, s.lanes) && Enabled(c, s, step, at) && !step.MergeOne?
    ensures var s' := Apply(c, s, step, at); CoordInv(c, s'.coord, s'.lanes)
  {
    hide M.Merge, M.Of, M.StatsOf, Sum, DeliveredResults;
    if Target(s, step).Some? {
      hide Apply, Enabled, Target;
      DeliveredSame(c, s, step, at);
    } else {
      OneLane(c, s, step, at);
      M.StatsOfNone(c.metrics);
    }
  }

  lemma LaneDelivered(c: Config, s: State, step: Step, at: nat)
    requires Enabled(c, s, step, at) && !step.MergeOne? && Target(s, step).Some? && Target(s, step).value < |s.lanes|
    ensures var s', w := Apply(c, s, step, at), Target(s, step).value;
            && s'.coord == s.coord && s'.lanes[w].report.delivered == s.lanes[w].report.delivered
            && s'.lanes[w].report.deliveredDrops == s.lanes[w].report.deliveredDrops
  {
    hide M.Merge, M.Of, HandleFire, DispatchTimer, MergeParcel;
  }

  lemma DeliveredSame(c: Config, s: State, step: Step, at: nat)
    requires Enabled(c, s, step, at) && !step.MergeOne? && Target(s, step).Some?
    ensures var s' := Apply(c, s, step, at);
            && s'.coord == s.coord
            && DeliveredResults(s'.lanes) == DeliveredResults(s.lanes)
            && Sum(s'.lanes, DELIVERED_DROPS) == Sum(s.lanes, DELIVERED_DROPS)
  {
    hide Apply, Enabled, Target;
    OneLane(c, s, step, at);
    LaneDelivered(c, s, step, at);
    var s', w := Apply(c, s, step, at), Target(s, step).value;
    SumUpdate(s.lanes, DELIVERED_DROPS, w, s'.lanes[w]);
    DeliveredUpdate(s.lanes, w, s'.lanes[w]);
    Cancel(DeliveredResults(s'.lanes), DeliveredResults(s.lanes), multiset(s.lanes[w].report.delivered));
  }

  lemma StepInv(c: Config, s: State, step: Step, at: nat)
    requires Inv(c, s) && Enabled(c, s, step, at)
    ensures Inv(c, Apply(c, s, step, at))
  {
    hide Apply, Enabled, LanesInv, ReportsInv, ShutdownsInv, MergeInv, CoordInv, PhaseInv;
    StepNow(c, s, step, at);
    StepLanes(c, s, step, at);
    StepReports(c, s, step, at);
    StepShutdowns(c, s, step, at);
    StepMerge(c, s, step, at);
    StepCounters(c, s, step, at);
    StepCoord(c, s, step, at);
  }

  lemma StepNow(c: Config, s: State, step: Step, at: nat)
    requires Enabled(c, s, step, at)
    ensures Apply(c, s, step, at).now == at
  {
  }

  // ---------------------------------------------------------------------------
  // The start state and whole runs
  // ---------------------------------------------------------------------------

  lemma SeededEntries(firsts: seq<Option<nat>>)
    ensures forall e :: e in Seeded(firsts) ==>
              e.worker < |firsts| && firsts[e.worker] == Some(e.time) && Seeded(firsts)[e] == 1
    ensures forall w :: 0 <= w < |firsts| && firsts[w].Some? ==> Entry(firsts[w].value, w) in Seeded(firsts)
  {
    forall e ensures Seeded(firsts)[e] == if e.worker < |firsts| && firsts[e.worker] == Some(e.time) then 1 else 0 {
      SeededIff(firsts, e);
    }
  }

  lemma {:induction false} FreshSums(lanes: seq<Lane>)
    requires forall l :: l in lanes ==> FreshChannel(l.chan) && FreshReport(l.report)
    ensures Sum(lanes, ACCEPTED) == 0 && Sum(lanes, FULL) == 0 && Sum(lanes, CLOSED) == 0
    ensures Sum(lanes, DELIVERED_DROPS) == 0 && DeliveredResults(lanes) == multiset{}
  {
    if lanes != [] {
      assert lanes[|lanes|-1] in lanes;
      FreshSums(lanes[..|lanes|-1]);
    }
  }

  lemma StartMerge(s: State, firsts: seq<Option<nat>>)
    requires Started(s, firsts)
    ensures MergeInv(s.timer, s.lanes)
  {
    hide Seeded;
    SeededEntries(firsts);
    forall w | 0 <= w < |s.lanes|
      ensures s.lanes[w].sched.pending == firsts[w] && s.lanes[w].sched.produced == PendingSeq(s.lanes[w].sched)
    {
      assert FreshLane(s.lanes[w], firsts[w]);
    }
    hide FreshLane;
    assert HeapInv(Seeded(firsts), s.lanes);
    assert forall w :: Popped([], w) == [];
  }

  lemma StartLanes(c: Config, s: State, firsts: seq<Option<nat>>)
    requires Started(s, firsts)
    ensures LanesInv(c, s.now, s.lanes) && ReportsInv(c, s.lanes) && ShutdownsInv(s.timer.phase, s.lanes)
  {
    M.StatsOfNone(c.metrics);
    hide LaneInv, Seeded, M.StatsOf, M.Blank;
    forall w | 0 <= w < |s.lanes|
      ensures LaneInv(c, s.now, s.lanes[w]) && ReportInv(c, s.lanes[w].worker, s.lanes[w].report)
    {
      M.BlankIsZero(s.lanes[w].report.collector);
      FreshLaneInv(c, s.now, s.lanes[w], firsts[w]);
    }
  }

  lemma StartCoord(c: Config, s: State, firsts: seq<Option<nat>>)
    requires Started(s, firsts)
    ensures CounterInv(s) && CoordInv(c, s.coord, s.lanes)
  {
    M.StatsOfNone(c.metrics);
    hide Seeded, M.StatsOf, M.Blank;
    M.BlankIsZero(s.coord.tick);
    M.BlankIsZero(s.coord.total);
    FreshSums(s.lanes);
  }

  lemma StartInv(c: Config, s: State, firsts: seq<Option<nat>>)
    requires Started(s, firsts)
    ensures Inv(c, s)
  {
    hide LanesInv, ReportsInv, ShutdownsInv, MergeInv, CounterInv, CoordInv;
    StartLanes(c, s, firsts);
    StartMerge(s, firsts);
    StartCoord(c, s, firsts);
  }

  lemma {:induction false} RunInv(c: Config, states: seq<State>, moves: seq<Move>, i: nat)
    requires Run(c, states, moves) && i < |states|
    ensures Inv(c, states[i])
  {
    hide Inv, Enabled, Apply, Started;
    if i == 0 {
      var firsts :| Started(states[0], firsts);
      StartInv(c, states[0], firsts);
    } else {
      RunInv(c, states, moves, i - 1);
      var m := moves[i-1];
      assert Enabled(c, states[i-1], m.step, m.at) && states[i-1+1] == Apply(c, states[i-1], m.step, m.at);
      StepInv(c, states[i-1], m.step, m.at);
    }
  }

  /** The invariant of a reached state, part by part. */
  lemma RunParts(c: Config, states: seq<State>, moves: seq<Move>, i: nat)
    requires Run(c, states, moves) && i < |states|
    ensures var s := states[i];
            && LanesInv(c, s.now, s.lanes) && ReportsInv(c, s.lanes) && ShutdownsInv(s.timer.phase, s.lanes)
            && MergeInv(s.timer, s.lanes) && CounterInv(s) && CoordInv(c, s.coord, s.lanes)
  {
    hide Run, LanesInv, ReportsInv, ShutdownsInv, MergeInv, CounterInv, CoordInv;
    RunInv(c, states, moves, i);
  }

  lemma RunStep(c: Config, states: seq<State>, moves: seq<Move>, i: nat)
    requires Run(c, states, moves) && i < |moves|
    ensures |states| == |moves| + 1
    ensures Enabled(c, states[i], moves[i].step, moves[i].at)
    ensures states[i+1] == Apply(c, states[i], moves[i].step, moves[i].at)
    ensures moves[..i+1] == moves[..i] + [moves[i]]
  {
    hide Enabled, Apply, Started;
  }

  lemma RunStart(c: Config, states: seq<State>, moves: seq<Move>) returns (firsts: seq<Option<nat>>)
    requires Run(c, states, moves)
    ensures states != [] && Started(states[0], firsts)
  {
    hide Enabled, Apply, Started;
    firsts :| Started(states[0], firsts);
  }

  // ---------------------------------------------------------------------------
  // Theorems
  // ---------------------------------------------------------------------------

  /** Snapshots stamped so far, whether or not the coordinator has taken them. */
  function StampedDrops(l: Lane): nat { l.report.deliveredDrops + SumParcelDrops(l.report.outbox) }

  /**
   In every state of every run, each instant popped for a worker is accounted for exactly
   once: lost to a full or closed channel, still queued, dropped at the in-flight limit,
   holding a permit, or recorded. Permits respect the limit, only a crashed worker's channel
   is ever found closed, and at most once; the drop deltas on all snapshots plus the
   unreported remainder are the worker's drop counter, with no remainder once it is done.
   */
  lemma Conservation(c: Config, states: seq<State>, moves: seq<Move>, i: nat, w: nat)
    requires Run(c, states, moves) && i < |states| && w < |states[i].lanes|
    ensures var s := states[i];
            var l := s.lanes[w];
            && |Popped(s.timer.popped, w)| == l.chan.full + l.chan.disconnected + |Fires(l.chan.queue)|
                                             + l.worker.drops + l.worker.inFlight + |l.worker.results|
            && (c.maxInFlight > 0 ==> l.worker.inFlight <= c.maxInFlight)
            && |l.chan.queue| <= c.capacity
            && (l.chan.disconnected > 0 ==> l.worker.phase.Crashed? && l.chan.disconnected == 1)
            && l.worker.lastDrops <= l.worker.drops
            && (!l.worker.phase.Done? ==> StampedDrops(l) + (l.worker.drops - l.worker.lastDrops) == l.worker.drops)
            && (l.worker.phase.Done? ==> StampedDrops(l) == l.worker.drops)
  {
    RunParts(c, states, moves, i);
    hide Run, ReportsInv, ShutdownsInv, CounterInv, CoordInv, Popped, SortedEntries, HeapInv;
    hide Sorted, TimingInv, Fires, SumParcelDrops;
    var s := states[i];
    assert LaneInv(c, s.now, s.lanes[w]);
    assert s.lanes[w].sched.produced == Popped(s.timer.popped, w) + PendingSeq(s.lanes[w].sched);
  }

  lemma HeapUnique(t: Timer, lanes: seq<Lane>)
    requires MergeInv(t, lanes)
    ensures forall e, f :: e in t.heap && f in t.heap && e.worker == f.worker ==> e == f
    ensures forall e :: e in t.heap ==> t.heap[e] == 1
    ensures SortedEntries(t.popped) && forall e :: e in t.popped ==> e.worker < |lanes|
  {
    hide Popped, SortedEntries;
  }

  lemma PoppedPrefix(c: Config, now: nat, t: Timer, lanes: seq<Lane>, w: nat)
    requires MergeInv(t, lanes) && LanesInv(c, now, lanes) && w < |lanes|
    ensures Sorted(lanes[w].sched.produced)
    ensures t.heap == multiset{} ==> lanes[w].sched.produced == Popped(t.popped, w)
    ensures Popped(t.popped, w) <= lanes[w].sched.produced
    ensures |lanes[w].sched.produced| <= |Popped(t.popped, w)| + 1
  {
    hide Popped, SortedEntries, Sorted, ChannelInv, WorkerInv, DropInv, TimingInv;
    assert LaneInv(c, now, lanes[w]);
  }

  /**
   In every state of every run, the popped entries are in order of time then worker, each
   worker's popped instants are its scheduler's outputs in order up to the one still in the
   heap, and the heap never holds two entries for one worker.
   */
  lemma ExactMerge(c: Config, states: seq<State>, moves: seq<Move>, i: nat)
    requires Run(c, states, moves) && i < |states|
    ensures var s := states[i];
            && SortedEntries(s.timer.popped)
            && (forall e, f :: e in s.timer.heap && f in s.timer.heap && e.worker == f.worker ==> e == f)
            && (forall e :: e in s.timer.heap ==> s.timer.heap[e] == 1)
            && (forall e :: e in s.timer.popped ==> e.worker < |s.lanes|)
            && (forall w :: 0 <= w < |s.lanes| ==>
                  && Sorted(s.lanes[w].sched.produced)
                  && (s.timer.heap == multiset{} ==> s.lanes[w].sched.produced == Popped(s.timer.popped, w))
                  && Popped(s.timer.popped, w) <= s.lanes[w].sched.produced
                  && |s.lanes[w].sched.produced| <= |Popped(s.timer.popped, w)| + 1)
  {
    hide *;
    RunParts(c, states, moves, i);
    var s := states[i];
    HeapUnique(s.timer, s.lanes);
    forall w | 0 <= w < |s.lanes|
      ensures Sorted(s.lanes[w].sched.produced)
      ensures s.timer.heap == multiset{} ==> s.lanes[w].sched.produced == Popped(s.timer.popped, w)
      ensures Popped(s.timer.popped, w) <= s.lanes[w].sched.produced
      ensures |s.lanes[w].sched.produced| <= |Popped(s.timer.popped, w)| + 1
    {
      PoppedPrefix(c, s.now, s.timer, s.lanes, w);
    }
  }

  /**
   In every state of every run nothing follows a Stop in any channel, and a worker that has
   left its loop through Stop or disconnection was given every Fire its channel accepted.
   */
  lemma ShutdownLosesNothing(c: Config, states: seq<State>, moves: seq<Move>, i: nat, w: nat)
    requires Run(c, states, moves) && i < |states| && w < |states[i].lanes|
    ensures var l := states[i].lanes[w];
            && (forall j :: 0 <= j < |l.chan.queue| - 1 ==> l.chan.queue[j] != Stop)
            && (l.worker.phase.Finishing? || l.worker.phase.Done? ==>
                  l.worker.handled == l.chan.accepted && l.chan.queue == [])
  {
    RunParts(c, states, moves, i);
    hide Run, ReportsInv, MergeInv, CounterInv, CoordInv;
    assert LaneInv(c, states[i].now, states[i].lanes[w]);
    assert ShutdownInv(states[i].timer.phase, w, states[i].lanes[w]);
  }
}
