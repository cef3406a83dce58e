/**
 The threads of the pipeline as objects that update their own fields: the timer thread, an I/O
 worker with its in-flight limit and collector, and the bounded channel between them. Every method
 is one action of the transition system in `Pipeline`, and is proved to change the state exactly as
 that action says, so the theorems about runs are about interleavings of these methods.
 */
module Threads {
  import opened Wrappers
  import opened Pipeline
  import M = Metrics
  import C = Collectors

  class InFlightLimit {
    const max: nat
    var count: nat

    constructor (max: nat)
      ensures this.max == max && count == 0
    {
      this.max := max;
      count := 0;
    }

    /** A limit of zero never refuses. */
    method TryAcquire() returns (permitted: bool)
      modifies this
      ensures permitted <==> max == 0 || old(count) < max
      ensures count == old(count) + if permitted then 1 else 0
      ensures max > 0 && old(count) <= max ==> count <= max
    {
      if max > 0 && count >= max { return false; }
      count := count + 1;
      return true;
    }

    method Release()
      requires count > 0
      modifies this
      ensures count == old(count) - 1
    {
      count := count - 1;
    }
  }

  datatype SendResult = Sent | Full | Disconnected

  class FireChannel {
    const capacity: nat
    var queue: seq<Message>
    var receiving: bool // the receiver is alive

    constructor (capacity: nat)
      ensures this.capacity == capacity && queue == [] && receiving
    {
      this.capacity := capacity;
      queue, receiving := [], true;
    }

    method TrySend(m: Message) returns (r: SendResult)
      modifies `queue
      ensures r == if !receiving then Disconnected else if |old(queue)| >= capacity then Full else Sent
      ensures queue == if r.Sent? then old(queue) + [m] else old(queue)
    {
      if !receiving { return Disconnected; }
      if |queue| >= capacity { return Full; }
      queue := queue + [m];
      return Sent;
    }

    method TryRecv() returns (m: Option<Message>)
      modifies `queue
      ensures old(queue) == [] ==> m == None && queue == []
      ensures old(queue) != [] ==> m == Some(old(queue)[0]) && queue == old(queue)[1..]
    {
      if queue == [] { return None; }
      m := Some(queue[0]);
      queue := queue[1..];
    }
  }

  // ---------------------------------------------------------------------------
  // The timer thread
  // ---------------------------------------------------------------------------

  lemma LeqTotal(a: Entry, b: Entry, c: Entry)
    ensures Leq(a, b) || Leq(b, a)
    ensures Leq(a, b) && Leq(b, c) ==> Leq(a, c)
  {
  }

  lemma DispatchOutcome(c: Config, t: Timer, l: Lane, e: Entry, next: Option<nat>)
    ensures DispatchTimer(c, t.(heap := t.heap + multiset{e}), l, e, next) ==
            t.(heap := if Open(l) && next.Some? then t.heap + multiset{Entry(next.value, e.worker)} else t.heap,
               dispatched := t.dispatched + (if Open(l) && |l.chan.queue| < c.capacity then 1 else 0),
               dropped := t.dropped + (if Open(l) && |l.chan.queue| >= c.capacity then 1 else 0),
               popped := t.popped + [e])
  {
    assert t.heap + multiset{e} - multiset{e} == t.heap;
  }

  lemma FireOutcome(c: Config, core: nat, v: Worker, m: Message, now: nat, dispatchAt: nat)
    requires m.Fire?
    ensures var id := core * REQUEST_ID_STRIDE + v.nextSeq;
            HandleFire(c, core, v, m, now, dispatchAt) ==
            if c.maxInFlight > 0 && v.inFlight >= c.maxInFlight then
              Worker(Draining, v.nextSeq, v.inFlight, v.drops + 1, v.lastDrops, v.tasks, v.handled + [m], v.issued, v.results)
            else
              Worker(Draining, v.nextSeq + 1, v.inFlight + 1, v.drops, v.lastDrops,
                     v.tasks + [Task(id, m.intended, m.sent, now, dispatchAt)], v.handled + [m], v.issued + [id], v.results)
  {
  }

  lemma DispatchApplied(c: Config, s: State, e: Entry, next: Option<nat>, now: nat)
    requires Enabled(c, s, Step.Dispatch(e, next), now)
    ensures e.worker < |s.lanes|
    ensures var s' := Apply(c, s, Step.Dispatch(e, next), now);
            && s'.timer == DispatchTimer(c, s.timer, s.lanes[e.worker], e, next)
            && s'.lanes[e.worker].chan.queue == DispatchLane(c, s.lanes[e.worker], Message.Fire(e.time, now), next).chan.queue
  {
    hide DispatchTimer, DispatchLane;
  }

  method Least(heap: multiset<Entry>) returns (least: Entry)
    requires heap != multiset{}
    ensures least in heap && forall f :: f in heap ==> Leq(least, f)
  {
    least :| least in heap;
    var rest := heap - multiset{least};
    while rest != multiset{}
      invariant least in heap && forall f :: f in rest ==> f in heap
      invariant forall f :: f in heap ==> Leq(least, f) || f in rest
      decreases |rest|
    {
      var f :| f in rest;
      LeqTotal(least, f, f);
      if Leq(f, least) {
        forall g | g in heap && Leq(least, g)
          ensures Leq(f, g)
        {
          LeqTotal(f, least, g);
        }
        least := f;
      }
      rest := rest - multiset{f};
    }
  }

  class TimerThread {
    var heap: multiset<Entry>
    var rates: seq<real> // one per scheduler
    var dispatched: nat
    var dropped: nat
    ghost var popped: seq<Entry>

    constructor (firsts: seq<Option<nat>>, rates: seq<real>)
      ensures FreshTimer(Value(), firsts) && this.rates == rates
    {
      var seeded := SeedHeap(firsts);
      heap := seeded;
      this.rates := rates;
      dispatched, dropped, popped := 0, 0, [];
    }

    ghost function Value(): Timer
      reads this
    {
      Timer(Looping, heap, rates, dispatched, dropped, popped)
    }

    method UpdateRate(rps: real)
      modifies `rates
      ensures rates == RatesFor(rps, |old(rates)|)
    {
      if rates == [] { return; }
      var perWorker := rps / |rates| as real;
      for i := 0 to |rates|
        invariant |rates| == |old(rates)| && forall j :: 0 <= j < i ==> rates[j] == perWorker
      {
        rates := rates[i := perWorker];
      }
    }

    /** Takes the least entry off the heap. */
    method Pop() returns (e: Option<Entry>)
      modifies `heap
      ensures old(heap) == multiset{} ==> e == None && heap == old(heap)
      ensures old(heap) != multiset{} ==>
                && e.Some? && e.value in old(heap) && heap == old(heap) - multiset{e.value}
                && forall f :: f in old(heap) ==> Leq(e.value, f)
    {
      if heap == multiset{} { return None; }
      var least := Least(heap);
      heap := heap - multiset{least};
      return Some(least);
    }

    /** Sends the popped entry, counts the outcome, and refills the heap from the worker's scheduler. */
    method Offer(c: Config, e: Entry, chan: FireChannel, now: nat, next: Option<nat>, ghost l: Lane)
      requires chan.capacity == c.capacity && chan.queue == l.chan.queue && chan.receiving == Open(l)
      modifies this, chan`queue
      ensures var before := old(Value()).(heap := old(heap) + multiset{e});
              Value() == DispatchTimer(c, before, l, e, next)
      ensures chan.queue == DispatchLane(c, l, Message.Fire(e.time, now), next).chan.queue
    {
      DispatchOutcome(c, Value(), l, e, next);
      hide DispatchTimer;
      popped := popped + [e];
      var r := chan.TrySend(Message.Fire(e.time, now));
      match r {
        case Sent => dispatched := dispatched + 1;
        case Full => dropped := dropped + 1;
        case Disconnected => return;
      }
      if next.Some? { heap := heap + multiset{Entry(next.value, e.worker)}; }
    }

    /** From the state `s` with the popped entry still on the heap, this is the system's dispatch move. */
    method Dispatch(c: Config, e: Entry, chan: FireChannel, now: nat, next: Option<nat>, ghost s: State)
      requires s.timer == Value().(heap := heap + multiset{e}) && Enabled(c, s, Step.Dispatch(e, next), now)
      requires var l := s.lanes[e.worker];
               chan.capacity == c.capacity && chan.queue == l.chan.queue && chan.receiving == Open(l)
      modifies this, chan`queue
      ensures Value() == Apply(c, s, Step.Dispatch(e, next), now).timer
      ensures chan.queue == Apply(c, s, Step.Dispatch(e, next), now).lanes[e.worker].chan.queue
    {
      hide *;
      DispatchApplied(c, s, e, next, now);
      Offer(c, e, chan, now, next, s.lanes[e.worker]);
    }

    /** Offers Stop to every channel without waiting for room. */
    method StopAll(c: Config, channels: seq<FireChannel>, ghost lanes: seq<Lane>)
      requires |lanes| == |channels| && forall i, j :: 0 <= i < j < |channels| ==> channels[i] != channels[j]
      requires forall i :: 0 <= i < |channels| ==>
                             && channels[i].capacity == c.capacity && channels[i].receiving == Open(lanes[i])
                             && channels[i].queue == lanes[i].chan.queue
      modifies channels
      ensures forall i :: 0 <= i < |channels| ==> channels[i].queue == StopLane(c, lanes[i]).chan.queue
    {
      for k := 0 to |channels|
        invariant forall i :: 0 <= i < |channels| ==> channels[i].receiving == Open(lanes[i])
        invariant forall i :: 0 <= i < k ==> channels[i].queue == StopLane(c, lanes[i]).chan.queue
        invariant forall i :: k <= i < |channels| ==> channels[i].queue == lanes[i].chan.queue
      {
        var _ := channels[k].TrySend(Stop);
      }
    }
  }

  // ---------------------------------------------------------------------------
  // An I/O worker
  // ---------------------------------------------------------------------------

  class IoWorker {
    const core: nat
    const config: Config
    const limit: InFlightLimit
    const collector: C.Collector
    const chan: FireChannel
    var phase: WorkerPhase
    var requestSeq: nat
    var drops: nat
    var lastDrops: nat
    var tasks: seq<Task>
    var outbox: seq<Parcel> // the unbounded metrics channel
    var window: seq<M.ExecutionResult> // history, carried by each parcel
    ghost var handled: seq<Message>
    ghost var issued: seq<nat>
    ghost var results: seq<M.ExecutionResult>

    constructor (core: nat, config: Config, now: nat, ghost l: Lane)
      ensures Valid() && fresh(limit) && fresh(collector) && fresh(chan)
      ensures this.config == config
      ensures FreshWorker(Value(l).worker) && Value(l).report.collector == M.Zero()
      ensures Value(l).report.outbox == [] && Value(l).report.window == []
    {
      this.core, this.config := core, config;
      limit := new InFlightLimit(config.maxInFlight);
      collector := new C.Collector(config.metrics, now);
      chan := new FireChannel(config.capacity);
      phase, requestSeq, drops, lastDrops, tasks, outbox := Receiving, 0, 0, 0, [], [];
      handled, issued, results, window := [], [], [], [];
    }

    ghost predicate Valid() {
      limit.max == config.maxInFlight && collector.config == config.metrics && chan.capacity == config.capacity
    }

    /** The worker's lane, taking from `l` what the worker does not own. */
    ghost function Value(l: Lane): Lane
      reads this, limit, collector, chan
    {
      l.(chan := l.chan.(queue := chan.queue),
         worker := Worker(phase, requestSeq, limit.count, drops, lastDrops, tasks, handled, issued, results),
         report := l.report.(collector := collector.Value(), outbox := outbox, window := window))
    }

    /** A Fire takes a permit and starts a request, or is counted as dropped. */
    method StartOrDrop(m: Message, now: nat, dispatchAt: nat)
      requires Valid() && m.Fire?
      modifies `requestSeq, `drops, `tasks, `handled, `issued, limit
      ensures var refused := config.maxInFlight > 0 && old(limit.count) >= config.maxInFlight;
              var id := core * REQUEST_ID_STRIDE + old(requestSeq);
              && handled == old(handled) + [m] && drops == old(drops) + (if refused then 1 else 0)
              && limit.count == old(limit.count) + (if refused then 0 else 1)
              && requestSeq == old(requestSeq) + (if refused then 0 else 1)
              && issued == (if refused then old(issued) else old(issued) + [id])
              && tasks == if refused then old(tasks) else old(tasks) + [Task(id, m.intended, m.sent, now, dispatchAt)]
    {
      handled := handled + [m];
      var permitted := limit.TryAcquire();
      if !permitted {
        drops := drops + 1;
        return;
      }
      var id := core * REQUEST_ID_STRIDE + requestSeq;
      requestSeq := requestSeq + 1;
      tasks, issued := tasks + [Task(id, m.intended, m.sent, now, dispatchAt)], issued + [id];
    }

    /** False asks the caller to leave its loop. */
    method HandleMessage(m: Message, now: nat, dispatchAt: nat, ghost l: Lane) returns (go: bool)
      requires Valid()
      modifies `phase, `requestSeq, `drops, `tasks, `handled, `issued, limit
      ensures go <==> !m.Stop?
      ensures m.Fire? ==> Value(l) == old(Value(l)).(worker := HandleFire(config, core, old(Value(l)).worker, m, now, dispatchAt))
      ensures !m.Fire? ==> Value(l) == old(Value(l)).(worker := old(Value(l)).worker.(phase := if go then Draining else old(phase)))
    {
      if m.Stop? { return false; }
      phase := Draining;
      if m.Fire? {
        hide HandleFire;
        FireOutcome(config, core, old(Value(l)).worker, m, now, dispatchAt);
        StartOrDrop(m, now, dispatchAt);
      }
      return true;
    }

    /** Stamps the drop delta and in-flight figures on a snapshot and sends it. */
    method SendReport(now: nat, ghost l: Lane)
      requires Valid() && lastDrops <= drops
      modifies `outbox, `window, collector
      ensures Value(l) == old(Value(l)).(report := SendSnapshot(config, old(Value(l))))
    {
      var snapshot := collector.Snap(now);
      outbox := outbox + [Parcel(snapshot.stats, drops - lastDrops, limit.count, limit.max, window)];
      window := [];
    }

    /** Receives and handles one message; a Stop met while draining sends the final snapshot at once. */
    method Receive(now: nat, dispatchAt: nat, ghost l: Lane)
      requires Valid() && chan.queue != [] && lastDrops <= drops
      modifies this, limit, collector, chan`queue
      ensures Value(l) == ReceiveLane(config, core, old(Value(l)), now, dispatchAt)
    {
      var m := chan.TryRecv();
      var go := HandleMessage(m.value, now, dispatchAt, l);
      if !go {
        if phase.Receiving? {
          phase := Finishing;
        } else {
          Finish(now, l);
        }
      }
    }

    /** The channel ran empty: report if the interval has passed. */
    method Idle(due: bool, now: nat, ghost l: Lane)
      requires Valid() && lastDrops <= drops
      modifies this, collector
      ensures Value(l) == IdleLane(config, old(Value(l)), due)
    {
      if due {
        SendReport(now, l);
        lastDrops := drops;
      }
      phase := Receiving;
    }

    method Finish(now: nat, ghost l: Lane)
      requires Valid() && lastDrops <= drops
      modifies this, collector
      ensures Value(l) == FinishLane(config, old(Value(l)))
    {
      SendReport(now, l);
      phase := Done;
    }

    /** A spawned task ends: its result is recorded, then its permit is dropped. */
    method Complete(i: nat, r: M.ExecutionResult, ghost l: Lane)
      requires Valid() && i < |tasks| && limit.count > 0
      modifies this, limit, collector
      ensures Value(l) == CompleteLane(config, old(Value(l)), i, r)
    {
      hide M.Merge, M.Of;
      tasks := tasks[..i] + tasks[i+1..];
      collector.Record(r);
      limit.Release();
      results, window := results + [r], window + [r];
    }
  }
}
