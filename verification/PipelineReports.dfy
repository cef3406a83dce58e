/**
 What the coordinator reports over whole runs of the pipeline: delay means, in-flight capacity,
 final totals with and without a warm-up, how every worker comes to its final snapshot once the
 timer has returned, and the request ids.
 */
module PipelineReports {
  import opened Wrappers
  import opened Pipeline
  import opened PipelineTheorems
  import M = Metrics

  // ---------------------------------------------------------------------------
  // Delays
  // ---------------------------------------------------------------------------

  predicate Additive(d: M.Delays) { d.lag.sum + d.transit.sum + d.gap.sum == d.total.sum }

  /** No mean delay, as the saturation report divides it, exceeds its maximum. */
  predicate MeansBounded(s: M.Stats) {
    var n := s.counts.requests;
    && M.Mean(s.delays.lag.sum, n) <= s.delays.lag.max && M.Mean(s.delays.transit.sum, n) <= s.delays.transit.max
    && M.Mean(s.delays.gap.sum, n) <= s.delays.gap.max && M.Mean(s.delays.total.sum, n) <= s.delays.total.max
  }

  lemma {:induction false} DeliveredSource(lanes: seq<Lane>, r: M.ExecutionResult)
    requires r in DeliveredResults(lanes)
    ensures exists w :: 0 <= w < |lanes| && r in lanes[w].report.delivered
  {
    var k := |lanes| - 1;
    if r !in lanes[k].report.delivered {
      DeliveredSource(lanes[..k], r);
      var w :| 0 <= w < k && r in lanes[..k][w].report.delivered;
      assert r in lanes[w].report.delivered;
    }
  }

  lemma {:induction false} ParcelSource(ps: seq<Parcel>, j: nat)
    requires j < |ps|
    ensures forall r :: r in ps[j].results ==> r in ParcelResults(ps)
  {
    if j > 0 {
      ParcelSource(ps[1..], j - 1);
      assert ps[1..][j-1] == ps[j];
    }
  }

  lemma LaneDelays(c: Config, now: nat, l: Lane)
    requires LaneInv(c, now, l) && ReportInv(c, l.worker, l.report)
    ensures forall r :: r in l.worker.results ==> M.Forward(r)
    ensures Additive(l.report.collector.delays)
    ensures forall j :: 0 <= j < |l.report.outbox| ==> Additive(l.report.outbox[j].stats.delays)
  {
    hide M.StatsOf, M.Forward;
    M.DelayDecomposition(c.metrics, l.report.window);
    forall j | 0 <= j < |l.report.outbox|
      ensures Additive(l.report.outbox[j].stats.delays)
    {
      ParcelSource(l.report.outbox, j);
      M.DelayDecomposition(c.metrics, l.report.outbox[j].results);
    }
  }

  lemma DeliveredForward(c: Config, now: nat, lanes: seq<Lane>, r: M.ExecutionResult)
    requires LanesInv(c, now, lanes) && ReportsInv(c, lanes) && r in DeliveredResults(lanes)
    ensures M.Forward(r)
  {
    hide M.StatsOf, M.Forward;
    DeliveredSource(lanes, r);
    var w :| 0 <= w < |lanes| && r in lanes[w].report.delivered;
    assert ReportInv(c, lanes[w].worker, lanes[w].report) && LaneInv(c, now, lanes[w]);
    assert r in lanes[w].worker.results;
  }

  lemma CoordDelays(c: Config, now: nat, k: Coordinator, lanes: seq<Lane>)
    requires LanesInv(c, now, lanes) && ReportsInv(c, lanes) && CoordInv(c, k, lanes)
    ensures Additive(k.tick.delays) && Additive(k.total.delays)
  {
    hide M.StatsOf, M.Forward, LanesInv, ReportsInv;
    forall r | r in k.log || r in k.tickLog
      ensures M.Forward(r)
    {
      assert r in k.log ==> r in multiset(k.log) + multiset(k.warmup);
      DeliveredForward(c, now, lanes, r);
    }
    M.DelayDecomposition(c.metrics, k.log);
    M.DelayDecomposition(c.metrics, k.tickLog);
  }

  /**
   In every state of every run, every recorded result is stamped in order, so in every
   collector, snapshot in flight and aggregate, the tick's as well as the total, the three
   delay sums add up exactly to the total delay.
   */
  lemma DelaysAddUp(c: Config, states: seq<State>, moves: seq<Move>, i: nat)
    requires Run(c, states, moves) && i < |states|
    ensures var s := states[i];
            && (forall w, r :: 0 <= w < |s.lanes| && r in s.lanes[w].worker.results ==> M.Forward(r))
            && (forall w :: 0 <= w < |s.lanes| ==> Additive(s.lanes[w].report.collector.delays))
            && (forall w, j :: 0 <= w < |s.lanes| && 0 <= j < |s.lanes[w].report.outbox| ==>
                  Additive(s.lanes[w].report.outbox[j].stats.delays))
            && Additive(s.coord.tick.delays) && Additive(s.coord.total.delays)
  {
    RunParts(c, states, moves, i);
    hide Run, LaneInv, ReportInv, M.Forward, Additive, CoordInv;
    var s := states[i];
    CoordDelays(c, s.now, s.coord, s.lanes);
    forall w | 0 <= w < |s.lanes|
      ensures forall r :: r in s.lanes[w].worker.results ==> M.Forward(r)
      ensures Additive(s.lanes[w].report.collector.delays)
      ensures forall j :: 0 <= j < |s.lanes[w].report.outbox| ==> Additive(s.lanes[w].report.outbox[j].stats.delays)
    {
      assert LaneInv(c, s.now, s.lanes[w]) && ReportInv(c, s.lanes[w].worker, s.lanes[w].report);
      LaneDelays(c, s.now, s.lanes[w]);
    }
  }

  /** In every state of every run, no mean delay of the tick's or the total aggregate exceeds its maximum. */
  lemma ReportedMeans(c: Config, states: seq<State>, moves: seq<Move>, i: nat)
    requires Run(c, states, moves) && i < |states|
    ensures MeansBounded(states[i].coord.tick) && MeansBounded(states[i].coord.total)
  {
    hide *;
    RunParts(c, states, moves, i);
    CoordMeans(c, states[i].coord, states[i].lanes);
  }

  lemma MeansOf(c: M.Config, rs: seq<M.ExecutionResult>)
    ensures MeansBounded(M.StatsOf(c, rs))
  {
    hide M.StatsOf, M.Mean;
    M.MeansBelowMaxima(c, rs);
  }

  lemma CoordMeans(c: Config, k: Coordinator, lanes: seq<Lane>)
    requires CoordInv(c, k, lanes)
    ensures MeansBounded(k.tick) && MeansBounded(k.total)
  {
    hide M.StatsOf, MeansBounded, DeliveredResults, Sum;
    MeansOf(c.metrics, k.tickLog);
    MeansOf(c.metrics, k.log);
  }

  // ---------------------------------------------------------------------------
  // Capacity
  // ---------------------------------------------------------------------------

  predicate Stamped(c: Config, p: Parcel) {
    p.capacity == c.maxInFlight && (c.maxInFlight > 0 ==> p.inFlight <= c.maxInFlight)
  }

  predicate AllStamped(c: Config, l: Lane) {
    forall j :: 0 <= j < |l.report.outbox| ==> Stamped(c, l.report.outbox[j])
  }

  predicate StampInv(c: Config, lanes: seq<Lane>) {
    forall w :: 0 <= w < |lanes| ==> AllStamped(c, lanes[w])
  }

  predicate Finalized(moves: seq<Move>) { exists k :: 0 <= k < |moves| && moves[k].step.Finalize? }

  /** How many snapshots the moves have merged since the last tick, up to the final drains. */
  function TickMerges(moves: seq<Move>): nat {
    if moves == [] then 0
    else
      var before, step := moves[..|moves|-1], moves[|moves|-1].step;
      if step.Tick? then 0
      else TickMerges(before) + if step.MergeOne? && !Finalized(before) then 1 else 0
  }

  lemma StampStep(c: Config, s: State, step: Step, at: nat)
    requires StampInv(c, s.lanes) && LanesInv(c, s.now, s.lanes) && Enabled(c, s, step, at)
    ensures StampInv(c, Apply(c, s, step, at).lanes)
  {
    hide Apply, Enabled;
    OneLane(c, s, step, at);
    var s', t := Apply(c, s, step, at), Target(s, step);
    hide Target;
    if t.Some? {
      var w := t.value;
      assert AllStamped(c, s.lanes[w]) && LaneInv(c, s.now, s.lanes[w]);
      StampLane(c, s, step, at, w);
    }
  }

  lemma StampLane(c: Config, s: State, step: Step, at: nat, w: nat)
    requires Enabled(c, s, step, at) && Target(s, step) == Some(w) && w < |s.lanes|
    requires AllStamped(c, s.lanes[w]) && LaneInv(c, s.now, s.lanes[w])
    ensures AllStamped(c, Apply(c, s, step, at).lanes[w])
  {
    hide M.Merge, M.Of, HandleFire, DispatchTimer, MergeParcel, ScheduleInv, ChannelInv, DropInv, TimingInv;
  }

  /** One step's effect on the figures of the tick aggregate. */
  lemma TickStep(c: Config, s: State, step: Step, at: nat)
    requires StampInv(c, s.lanes) && Enabled(c, s, step, at)
    ensures var k, k' := s.coord, Apply(c, s, step, at).coord;
            && (k'.phase.Finalizing? <==> k.phase.Finalizing? || step.Finalize?)
            && (step.Tick? ==> k'.tickCapacity == 0 && k'.tickInFlight == 0)
            && (step.MergeOne? && k.phase.Ticking? ==>
                  && k'.tickCapacity == k.tickCapacity + c.maxInFlight
                  && (c.maxInFlight > 0 ==> k'.tickInFlight <= k.tickInFlight + c.maxInFlight))
            && (!step.Tick? && !(step.MergeOne? && k.phase.Ticking?) ==>
                  k'.tickCapacity == k.tickCapacity && k'.tickInFlight == k.tickInFlight)
  {
    hide M.Merge, M.Of, HandleFire, SendSnapshot, DispatchTimer, DispatchLane;
    if step.MergeOne? {
      assert AllStamped(c, s.lanes[step.w]);
      assert Stamped(c, s.lanes[step.w].report.outbox[0]);
    }
  }

  lemma Multiple(n: nat, m: nat)
    ensures m * (n + 1) == m * n + m && m * 0 == 0
  {
  }

  lemma {:induction false} TickInv(c: Config, states: seq<State>, moves: seq<Move>, i: nat)
    requires Run(c, states, moves) && i < |states| == |moves| + 1
    ensures var k := states[i].coord;
            && StampInv(c, states[i].lanes) && (k.phase.Finalizing? <==> Finalized(moves[..i]))
            && k.tickCapacity == c.maxInFlight * TickMerges(moves[..i])
            && (c.maxInFlight > 0 ==> k.tickInFlight <= k.tickCapacity)
  {
    hide *;
    if i == 0 {
      var firsts := RunStart(c, states, moves);
      TickStart(c, states[0], firsts, moves);
      Multiple(0, c.maxInFlight);
    } else {
      RunStep(c, states, moves, i - 1);
      TickInv(c, states, moves, i - 1);
      RunParts(c, states, moves, i - 1);
      var m, before := moves[i-1], moves[..i-1];
      StampStep(c, states[i-1], m.step, m.at);
      TickStep(c, states[i-1], m.step, m.at);
      MovesStep(before, m);
      Multiple(TickMerges(before), c.maxInFlight);
    }
  }

  lemma TickStart(c: Config, s: State, firsts: seq<Option<nat>>, moves: seq<Move>)
    requires Started(s, firsts)
    ensures StampInv(c, s.lanes) && s.coord.phase.Ticking? && !Finalized(moves[..0]) && TickMerges(moves[..0]) == 0
    ensures s.coord.tickCapacity == 0 && s.coord.tickInFlight == 0
  {
    hide M.Blank, Seeded;
  }

  lemma MovesStep(before: seq<Move>, m: Move)
    ensures Finalized(before + [m]) <==> Finalized(before) || m.step.Finalize?
    ensures TickMerges(before + [m]) == if m.step.Tick? then 0
                                        else TickMerges(before) + if m.step.MergeOne? && !Finalized(before) then 1 else 0
  {
    var all := before + [m];
    assert all[..|all|-1] == before;
    if Finalized(before) {
      var k :| 0 <= k < |before| && before[k].step.Finalize?;
      assert all[k].step.Finalize?;
    }
    if m.step.Finalize? { assert all[|before|].step.Finalize?; }
    if Finalized(all) {
      var k :| 0 <= k < |all| && all[k].step.Finalize?;
      assert k < |before| ==> before[k].step.Finalize?;
    }
    hide Finalized;
  }

  /**
   The tick's capacity is the workers' limits together exactly when as many snapshots were merged
   since the last tick as there are workers: it is summed over snapshots, not over cores. The
   in-flight figure summed beside it never exceeds it.
   */
  lemma CapacityReported(c: Config, states: seq<State>, moves: seq<Move>, i: nat)
    requires Run(c, states, moves) && i < |states|
    ensures var k := states[i].coord;
            && k.tickCapacity == c.maxInFlight * TickMerges(moves[..i])
            && (k.tickCapacity == c.maxInFlight * |states[i].lanes| <==>
                  c.maxInFlight == 0 || TickMerges(moves[..i]) == |states[i].lanes|)
            && (c.maxInFlight > 0 ==> k.tickInFlight <= k.tickCapacity)
  {
    TickInv(c, states, moves, i);
    hide Run, TickMerges, StampInv;
    SameProduct(c.maxInFlight, TickMerges(moves[..i]), |states[i].lanes|);
  }

  lemma Spread(m: nat, a: nat, d: nat)
    requires m > 0 && d > 0
    ensures m * (a + d) > m * a
  {
    assert m * (a + d) == m * a + m * d;
  }

  lemma SameProduct(m: nat, a: nat, b: nat)
    ensures m * a == m * b <==> m == 0 || a == b
  {
    if m > 0 && a < b {
      Spread(m, a, b - a);
    } else if m > 0 && b < a {
      Spread(m, b, a - b);
    }
  }

  // A run in which the only worker reports twice before the coordinator drains.

  /** Each move leads from one state to the next. */
  ghost predicate Chain(c: Config, states: seq<State>, moves: seq<Move>) {
    && |states| == |moves| + 1
    && forall i :: 0 <= i < |moves| ==>
         Enabled(c, states[i], moves[i].step, moves[i].at) &&
         states[i+1] == Apply(c, states[i], moves[i].step, moves[i].at)
  }

  lemma Extend(c: Config, states: seq<State>, moves: seq<Move>, step: Step) returns (longer: seq<State>, more: seq<Move>)
    requires Chain(c, states, moves) && Enabled(c, states[|moves|], step, states[|moves|].now)
    ensures more == moves + [Move(step, states[|moves|].now)]
    ensures longer == states + [Apply(c, states[|moves|], step, states[|moves|].now)] && Chain(c, longer, more)
  {
    var s := states[|moves|];
    hide Enabled, Apply;
    longer, more := states + [Apply(c, s, step, s.now)], moves + [Move(step, s.now)];
    forall i | 0 <= i < |more|
      ensures Enabled(c, longer[i], more[i].step, more[i].at) && longer[i+1] == Apply(c, longer[i], more[i].step, more[i].at)
    {
      if i < |moves| {
        assert longer[i] == states[i] && longer[i+1] == states[i+1] && more[i] == moves[i];
      }
    }
  }

  /** One idle worker with `n` snapshots sent and not yet taken. */
  predicate Quiet(s: State, n: nat) {
    && |s.lanes| == 1 && s.timer.phase.Looping? && s.coord.phase.Ticking?
    && s.lanes[0].worker.phase.Receiving? && s.lanes[0].chan.queue == [] && |s.lanes[0].report.outbox| == n
  }

  predicate Plain(moves: seq<Move>) {
    forall i :: 0 <= i < |moves| ==> !moves[i].step.Tick? && !moves[i].step.MergeOne? && !moves[i].step.Finalize?
  }

  /** A control message wakes the worker, which reports and waits again. */
  lemma ReportOnce(c: Config, states: seq<State>, moves: seq<Move>, n: nat) returns (longer: seq<State>, more: seq<Move>)
    requires c.capacity > 0 && Chain(c, states, moves) && Quiet(states[|moves|], n) && Plain(moves)
    ensures Chain(c, longer, more) && Plain(more) && Quiet(longer[|more|], n + 1) && longer[0] == states[0]
  {
    hide Chain, M.Merge, M.Of;
    longer, more := states, moves;
    assert |longer| == |more| + 1 by { ChainLength(c, states, moves); }
    longer, more := Extend(c, longer, more, ForwardCommand(UpdateTargets));
    longer, more := Extend(c, longer, more, ForwardOne);
    longer, more := Extend(c, longer, more, Receive(0, longer[|more|].now));
    longer, more := Extend(c, longer, more, Idle(0, true));
  }

  lemma ChainLength(c: Config, states: seq<State>, moves: seq<Move>)
    requires Chain(c, states, moves)
    ensures |states| == |moves| + 1
  {
    hide Enabled, Apply;
  }

  lemma {:induction false} PlainMerges(moves: seq<Move>)
    requires Plain(moves)
    ensures TickMerges(moves) == 0 && !Finalized(moves)
  {
    if moves != [] { PlainMerges(moves[..|moves|-1]); }
  }

  lemma FirstState(c: Config) returns (s: State)
    ensures Started(s, [None]) && Quiet(s, 0)
  {
    M.BlankIsZero(M.Zero());
    hide M.Blank;
    var lane := Lane(Schedule([], None), Channel([], [], 0, 0), Worker(Receiving, 0, 0, 0, 0, [], [], [], []),
                     Report(M.Zero(), [], [], [], 0));
    var firsts: seq<Option<nat>> := [None];
    assert firsts[..0] == [] && Seeded(firsts) == multiset{};
    s := State(0, Timer(Looping, multiset{}, [], 0, 0, []), [lane],
               Coordinator(Ticking, false, M.Zero(), 0, 0, M.Zero(), 0, [], [], [], 0));
  }

  lemma CountedTwice(c: Config) returns (states: seq<State>, moves: seq<Move>)
    requires c.capacity > 0
    ensures Run(c, states, moves) && |states[|moves|].lanes| == 1
    ensures states[|moves|].coord.tickCapacity == 2 * c.maxInFlight
  {
    var s := FirstState(c);
    hide Started, Quiet, TickMerges, Finalized, Apply, Enabled, Plain;
    states, moves := [s], [];
    assert Plain([]) by { PlainNone(); }
    states, moves := ReportOnce(c, states, moves, 0);
    states, moves := ReportOnce(c, states, moves, 1);
    PlainMerges(moves);
    states, moves := DrainTwice(c, states, moves);
    assert Run(c, states, moves);
    hide Run, Chain;
    assert moves[..|moves|] == moves;
    CapacityReported(c, states, moves, |moves|);
  }

  lemma PlainNone()
    ensures Plain([])
  {
  }

  lemma DrainTwice(c: Config, states: seq<State>, moves: seq<Move>) returns (longer: seq<State>, more: seq<Move>)
    requires Chain(c, states, moves) && Quiet(states[|moves|], 2) && TickMerges(moves) == 0 && !Finalized(moves)
    ensures Chain(c, longer, more) && longer[0] == states[0] && |longer[|more|].lanes| == 1 && TickMerges(more) == 2
  {
    hide Chain, M.Merge, M.Of, TickMerges, Finalized, MergeParcel;
    longer, more := states, moves;
    assert |longer| == |more| + 1 by { ChainLength(c, states, moves); }
    longer, more := Extend(c, longer, more, MergeOne(0));
    MovesStep(moves, more[|moves|]);
    var before := more;
    longer, more := Extend(c, longer, more, MergeOne(0));
    MovesStep(before, more[|before|]);
  }

  // ---------------------------------------------------------------------------
  // Final totals
  // ---------------------------------------------------------------------------

  const DROPS: Lane -> nat := (l: Lane) => l.worker.drops
  const IN_FLIGHT: Lane -> nat := (l: Lane) => l.worker.inFlight
  const RECORDED: Lane -> nat := (l: Lane) => |l.worker.results|

  const QUEUED: Lane -> nat := (l: Lane) => |Fires(l.chan.queue)|
  const LOST_DROPS: Lane -> nat := (l: Lane) => if l.worker.phase.Crashed? then Delta(l.worker) else 0

  function AllResults(ls: seq<Lane>): seq<M.ExecutionResult> {
    if ls == [] then [] else AllResults(ls[..|ls|-1]) + ls[|ls|-1].worker.results
  }

  /** What collectors still held when their workers crashed. */
  function LostResults(ls: seq<Lane>): seq<M.ExecutionResult> {
    if ls == [] then [] else LostResults(ls[..|ls|-1]) + ls[|ls|-1].report.window
  }

  predicate Over(l: Lane) { (l.worker.phase.Done? || l.worker.phase.Crashed?) && l.report.outbox == [] }

  /** Every worker left its loop or crashed, and the coordinator took every snapshot. */
  predicate Settled(s: State) {
    forall w :: 0 <= w < |s.lanes| ==> Over(s.lanes[w])
  }

  predicate NoCrash(lanes: seq<Lane>) {
    forall w :: 0 <= w < |lanes| ==> !lanes[w].worker.phase.Crashed?
  }

  /** Nothing was left in a channel, a collector or a drop counter, and no send found its receiver gone. */
  predicate NothingLost(lanes: seq<Lane>) {
    && LostResults(lanes) == []
    && Sum(lanes, LOST_DROPS) == 0 && Sum(lanes, QUEUED) == 0 && Sum(lanes, CLOSED) == 0
  }

  lemma SettledLane(c: Config, now: nat, p: TimerPhase, w: nat, l: Lane)
    requires LaneInv(c, now, l) && ReportInv(c, l.worker, l.report) && ShutdownInv(p, w, l) && Over(l)
    ensures l.report.delivered + l.report.window == l.worker.results
    ensures DELIVERED_DROPS(l) + LOST_DROPS(l) == DROPS(l)
    ensures ACCEPTED(l) == DROPS(l) + IN_FLIGHT(l) + RECORDED(l) + QUEUED(l)
    ensures !l.worker.phase.Crashed? ==> l.report.window == [] && LOST_DROPS(l) == 0 && QUEUED(l) == 0 && CLOSED(l) == 0
  {
    hide M.StatsOf, TimingInv, ScheduleInv;
  }

  lemma {:induction false} SettledSums(c: Config, now: nat, p: TimerPhase, lanes: seq<Lane>)
    requires LanesInv(c, now, lanes) && ReportsInv(c, lanes) && ShutdownsInv(p, lanes)
    requires forall w :: 0 <= w < |lanes| ==> Over(lanes[w])
    ensures DeliveredResults(lanes) + multiset(LostResults(lanes)) == multiset(AllResults(lanes))
    ensures Sum(lanes, DELIVERED_DROPS) + Sum(lanes, LOST_DROPS) == Sum(lanes, DROPS)
    ensures Sum(lanes, ACCEPTED) == Sum(lanes, DROPS) + Sum(lanes, IN_FLIGHT) + Sum(lanes, RECORDED) + Sum(lanes, QUEUED)
    ensures |AllResults(lanes)| == Sum(lanes, RECORDED)
    ensures NoCrash(lanes) ==> NothingLost(lanes)
  {
    hide LaneInv, ReportInv, ShutdownInv, Over, Fires;
    if lanes != [] {
      var k := |lanes| - 1;
      SettledSums(c, now, p, lanes[..k]);
      SettledLane(c, now, p, k, lanes[k]);
      var d, x, z := DeliveredResults(lanes[..k]), multiset(LostResults(lanes[..k])), multiset(AllResults(lanes[..k]));
      var d', x', z' := multiset(lanes[k].report.delivered), multiset(lanes[k].report.window), multiset(lanes[k].worker.results);
      assert d' + x' == z';
      assert (d + d') + (x + x') == (d + x) + (d' + x') == z + z';
      if NoCrash(lanes) { assert NoCrash(lanes[..k]) && !lanes[k].worker.phase.Crashed?; }
    }
  }

  /**
   When a run has settled, every result of every worker is in the total, was kept out of it by the
   warm-up or was lost in a crashed worker's collector; the total is what one collector over the
   results let in would report; and every popped instant is a channel drop, an in-flight drop, a
   recorded request or a task abandoned at exit, or was left to a crashed worker. Without a crash
   nothing is lost.
   */
  lemma EndToEnd(c: Config, states: seq<State>, moves: seq<Move>, i: nat)
    requires Run(c, states, moves) && i < |states| && Settled(states[i])
    ensures var s := states[i];
            && s.coord.total == M.StatsOf(c.metrics, s.coord.log)
            && multiset(s.coord.log) + multiset(s.coord.warmup) + multiset(LostResults(s.lanes)) == multiset(AllResults(s.lanes))
            && s.coord.totalDrops + s.coord.warmupDrops + Sum(s.lanes, LOST_DROPS) == Sum(s.lanes, DROPS)
            && |s.timer.popped| == s.timer.dropped + Sum(s.lanes, CLOSED) + Sum(s.lanes, QUEUED)
                                   + s.coord.totalDrops + s.coord.warmupDrops + Sum(s.lanes, LOST_DROPS)
                                   + Sum(s.lanes, IN_FLIGHT)
                                   + s.coord.total.counts.requests + |s.coord.warmup| + |LostResults(s.lanes)|
            && (NoCrash(s.lanes) ==> NothingLost(s.lanes))
  {
    RunParts(c, states, moves, i);
    hide M.StatsOf, Run, LanesInv, ReportsInv, ShutdownsInv, MergeInv, NoCrash, NothingLost, LostResults, AllResults;
    var s := states[i];
    SettledSums(c, s.now, s.timer.phase, s.lanes);
    M.CountersOrdered(c.metrics, s.coord.log);
    var lost := LostResults(s.lanes);
    assert |multiset(s.coord.log) + multiset(s.coord.warmup) + multiset(lost)| == |s.coord.log| + |s.coord.warmup| + |lost|;
    assert |multiset(AllResults(s.lanes))| == |AllResults(s.lanes)|;
  }

  /** The moves include a tick after the warm-up, or the start of the final drains. */
  predicate Opened(moves: seq<Move>) {
    exists k :: 0 <= k < |moves| && (moves[k].step == Tick(true) || moves[k].step.Finalize?)
  }

  predicate NoWarmup(moves: seq<Move>) {
    forall j :: 0 <= j < |moves| && moves[j].step.MergeOne? ==> Opened(moves[..j])
  }

  lemma OpenedStep(before: seq<Move>, m: Move)
    ensures Opened(before + [m]) <==> Opened(before) || m.step == Tick(true) || m.step.Finalize?
  {
    var all := before + [m];
    if Opened(before) {
      var k :| 0 <= k < |before| && (before[k].step == Tick(true) || before[k].step.Finalize?);
      assert all[k] == before[k];
    }
    if m.step == Tick(true) || m.step.Finalize? { assert all[|before|] == m; }
    if Opened(all) {
      var k :| 0 <= k < |all| && (all[k].step == Tick(true) || all[k].step.Finalize?);
      assert k < |before| ==> before[k] == all[k];
    }
  }

  lemma WarmStep(c: Config, s: State, step: Step, at: nat)
    requires Enabled(c, s, step, at)
    ensures var k, k' := s.coord, Apply(c, s, step, at).coord;
            && (k'.warm || k'.phase.Finalizing? <==> k.warm || k.phase.Finalizing? || step == Tick(true) || step.Finalize?)
            && (!step.MergeOne? || k.warm || k.phase.Finalizing? ==> k'.warmup == k.warmup && k'.warmupDrops == k.warmupDrops)
  {
    hide M.Merge, M.Of, HandleFire, SendSnapshot, DispatchTimer, DispatchLane;
  }

  /** If no snapshot is merged before the warm-up is over, the warm-up keeps nothing out. */
  lemma {:induction false} WarmupEmpty(c: Config, states: seq<State>, moves: seq<Move>, i: nat)
    requires Run(c, states, moves) && i < |states| == |moves| + 1 && NoWarmup(moves[..i])
    ensures var k := states[i].coord;
            && k.warmup == [] && k.warmupDrops == 0
            && (k.warm || k.phase.Finalizing? <==> Opened(moves[..i]))
  {
    hide *;
    if i == 0 {
      var firsts := RunStart(c, states, moves);
      WarmStart(states[0], firsts, moves);
    } else {
      RunStep(c, states, moves, i - 1);
      var m, before := moves[i-1], moves[..i-1];
      EarlierNoWarmup(moves, i);
      WarmupEmpty(c, states, moves, i - 1);
      WarmStep(c, states[i-1], m.step, m.at);
      OpenedStep(before, m);
    }
  }

  lemma EarlierNoWarmup(moves: seq<Move>, i: nat)
    requires 0 < i <= |moves| && NoWarmup(moves[..i])
    ensures NoWarmup(moves[..i-1]) && (moves[i-1].step.MergeOne? ==> Opened(moves[..i-1]))
  {
    hide Opened;
    forall j | 0 <= j < i && moves[j].step.MergeOne?
      ensures Opened(moves[..j])
    {
      assert moves[..i][j] == moves[j] && moves[..i][..j] == moves[..j];
    }
    var before := moves[..i-1];
    forall j | 0 <= j < |before| && before[j].step.MergeOne?
      ensures Opened(before[..j])
    {
      assert before[..j] == moves[..j];
    }
  }

  lemma WarmStart(s: State, firsts: seq<Option<nat>>, moves: seq<Move>)
    requires Started(s, firsts)
    ensures s.coord.warmup == [] && s.coord.warmupDrops == 0 && !s.coord.warm && s.coord.phase.Ticking?
    ensures !Opened(moves[..0])
  {
    hide M.Blank, Seeded, FreshLane;
  }

  /**
   Without a warm-up, the totals of a settled run and what crashed collectors held are together one
   collector's over every result of every worker; without a crash the totals alone are.
   */
  lemma EndToEndAtOnce(c: Config, states: seq<State>, moves: seq<Move>, i: nat)
    requires Run(c, states, moves) && i < |states| && Settled(states[i]) && NoWarmup(moves[..i])
    ensures var s := states[i];
            && M.Merge(s.coord.total, M.StatsOf(c.metrics, LostResults(s.lanes))) == M.StatsOf(c.metrics, AllResults(s.lanes))
            && s.coord.totalDrops + Sum(s.lanes, LOST_DROPS) == Sum(s.lanes, DROPS)
            && (NoCrash(s.lanes) ==>
                  && s.coord.total == M.StatsOf(c.metrics, AllResults(s.lanes))
                  && s.coord.totalDrops == Sum(s.lanes, DROPS)
                  && |s.timer.popped| == s.timer.dropped + s.coord.totalDrops + Sum(s.lanes, IN_FLIGHT)
                                         + s.coord.total.counts.requests)
  {
    assert |states| == |moves| + 1;
    hide Run, Settled, NoWarmup, M.StatsOf, M.Merge, AllResults, LostResults, Opened, NoCrash;
    WarmupEmpty(c, states, moves, i);
    EndToEnd(c, states, moves, i);
    var s := states[i];
    var log, lost := s.coord.log, LostResults(s.lanes);
    assert multiset(log + lost) == multiset(log) + multiset(s.coord.warmup) + multiset(lost);
    M.StatsOfPermutation(c.metrics, log + lost, AllResults(s.lanes));
    M.StatsOfConcat(c.metrics, log, lost);
    if NoCrash(s.lanes) { assert log + lost == log; }
  }

  // ---------------------------------------------------------------------------
  // Shutdown
  // ---------------------------------------------------------------------------

  function Rank(l: Lane): nat {
    4 * |l.chan.queue| + match l.worker.phase
                         case Draining => 3
                         case Receiving => 2
                         case Finishing => 1
                         case Done => 0
                         case Crashed => 0
  }

  /** A step of worker `w`'s own loop. */
  predicate Own(step: Step, w: nat) {
    match step
    case Receive(v, _) => v == w
    case HangUp(v) => v == w
    case Idle(v, _) => v == w
    case Finish(v) => v == w
    case _ => false
  }

  lemma OwnLowers(c: Config, s: State, step: Step, at: nat, w: nat)
    requires Enabled(c, s, step, at) && Own(step, w)
    ensures w < |s.lanes| && Rank(Apply(c, s, step, at).lanes[w]) < Rank(s.lanes[w])
  {
    hide M.Merge, M.Of, SendSnapshot;
  }

  lemma NoRise(c: Config, s: State, step: Step, at: nat, w: nat)
    requires Enabled(c, s, step, at) && w < |s.lanes| && s.timer.phase.Exited?
    ensures Apply(c, s, step, at).timer.phase.Exited? && Rank(Apply(c, s, step, at).lanes[w]) <= Rank(s.lanes[w])
  {
    hide M.Merge, M.Of, SendSnapshot;
  }

  /**
   Once the timer has returned, whether or not its Stop fitted in the channel, a worker can take a
   step of its own exactly until it is done, unless it crashes.
   */
  lemma ShutdownProgress(c: Config, s: State, w: nat)
    requires w < |s.lanes| && s.timer.phase.Exited?
    ensures (exists step :: Own(step, w) && Enabled(c, s, step, s.now)) <==>
            !s.lanes[w].worker.phase.Done? && !s.lanes[w].worker.phase.Crashed?
  {
    var l := s.lanes[w];
    var step := if l.worker.phase.Finishing? then Finish(w)
                else if l.chan.queue != [] then Receive(w, s.now)
                else if l.worker.phase.Draining? then Idle(w, false)
                else HangUp(w);
    if Open(l) {
      assert Own(step, w) && Enabled(c, s, step, s.now);
    }
  }

  function OwnSteps(moves: seq<Move>, w: nat): nat {
    if moves == [] then 0 else OwnSteps(moves[..|moves|-1], w) + if Own(moves[|moves|-1].step, w) then 1 else 0
  }

  lemma OwnStepsNone(w: nat)
    ensures OwnSteps([], w) == 0
  {
  }

  lemma OwnStepsLast(moves: seq<Move>, m: Move, w: nat)
    ensures OwnSteps(moves + [m], w) == OwnSteps(moves, w) + if Own(m.step, w) then 1 else 0
  {
    assert (moves + [m])[..|moves + [m]|-1] == moves;
  }

  /**
   Over any stretch of any run after the timer has returned, each step of a worker's own uses up
   some of its rank: it takes at most as many as the rank it started with, whatever the others do,
   and once it has taken that many it is done or has crashed.
   */
  lemma {:induction false} ShutdownBounded(c: Config, states: seq<State>, moves: seq<Move>, i: nat, j: nat, w: nat)
    requires Run(c, states, moves) && |states| == |moves| + 1
    requires i <= j < |states| && w < |states[i].lanes| && states[i].timer.phase.Exited?
    ensures states[j].timer.phase.Exited? && w < |states[j].lanes|
    ensures OwnSteps(moves[i..j], w) + Rank(states[j].lanes[w]) <= Rank(states[i].lanes[w])
    ensures OwnSteps(moves[i..j], w) == Rank(states[i].lanes[w]) ==>
              states[j].lanes[w].worker.phase.Done? || states[j].lanes[w].worker.phase.Crashed?
    decreases j
  {
    hide *;
    if i == j {
      assert moves[i..j] == [];
      OwnStepsNone(w);
    } else {
      ShutdownBounded(c, states, moves, i, j - 1, w);
      RunStep(c, states, moves, j - 1);
      var m := moves[j-1];
      assert moves[i..j] == moves[i..j-1] + [m];
      OwnStepsLast(moves[i..j-1], m, w);
      OneLane(c, states[j-1], m.step, m.at);
      NoRise(c, states[j-1], m.step, m.at, w);
      if Own(m.step, w) { OwnLowers(c, states[j-1], m.step, m.at, w); }
    }
    RankZero(states[j].lanes[w]);
  }

  lemma RankZero(l: Lane)
    ensures Rank(l) == 0 ==> l.worker.phase.Done? || l.worker.phase.Crashed?
  {
  }

  // ---------------------------------------------------------------------------
  // Rates
  // ---------------------------------------------------------------------------

  /** The rate of the last rate command among the moves. */
  function LastRate(moves: seq<Move>): Option<real> {
    if moves == [] then None
    else if moves[|moves|-1].step.RateCommand? then Some(moves[|moves|-1].step.rps)
    else LastRate(moves[..|moves|-1])
  }

  lemma RateStep(c: Config, s: State, step: Step, at: nat)
    requires Enabled(c, s, step, at)
    ensures Apply(c, s, step, at).timer.rates == if step.RateCommand? then RatesFor(step.rps, |s.lanes|) else s.timer.rates
  {
    hide M.Merge, M.Of, HandleFire, SendSnapshot, MergeParcel, DispatchLane, ReceiveLane;
  }

  lemma LastRateStep(before: seq<Move>, m: Move)
    ensures LastRate(before + [m]) == if m.step.RateCommand? then Some(m.step.rps) else LastRate(before)
  {
    assert (before + [m])[..|before + [m]|-1] == before;
  }

  lemma NoRate()
    ensures LastRate([]) == None
  {
  }

  /** On every run each scheduler's rate is its equal part of the last rate commanded. */
  lemma {:induction false} RatesFollow(c: Config, states: seq<State>, moves: seq<Move>, i: nat)
    requires Run(c, states, moves) && i < |states| == |moves| + 1
    ensures LastRate(moves[..i]).Some? ==> states[i].timer.rates == RatesFor(LastRate(moves[..i]).value, |states[i].lanes|)
  {
    hide *;
    if i == 0 {
      assert moves[..0] == [];
      NoRate();
    } else {
      RunStep(c, states, moves, i - 1);
      var m := moves[i-1];
      RatesFollow(c, states, moves, i - 1);
      OneLane(c, states[i-1], m.step, m.at);
      RateStep(c, states[i-1], m.step, m.at);
      LastRateStep(moves[..i-1], m);
    }
  }

  // ---------------------------------------------------------------------------
  // Request ids
  // ---------------------------------------------------------------------------

  /** A core's ids are numbered on from the start of its range; those in flight are among them, in order. */
  predicate IdsInv(core: nat, w: Worker) {
    && |w.issued| == w.nextSeq
    && (forall k :: 0 <= k < |w.issued| ==> w.issued[k] == core * REQUEST_ID_STRIDE + k)
    && (forall k :: 0 <= k < |w.tasks| ==>
          core * REQUEST_ID_STRIDE <= w.tasks[k].id < core * REQUEST_ID_STRIDE + w.nextSeq)
    && (forall j, k :: 0 <= j < k < |w.tasks| ==> w.tasks[j].id < w.tasks[k].id)
  }

  lemma IdsLane(c: Config, s: State, step: Step, at: nat, w: nat)
    requires Enabled(c, s, step, at) && Target(s, step) == Some(w) && w < |s.lanes| && IdsInv(w, s.lanes[w].worker)
    ensures IdsInv(w, Apply(c, s, step, at).lanes[w].worker)
  {
    hide M.Merge, M.Of, SendSnapshot, DispatchTimer, MergeParcel;
    if step.Receive? {
      hide IdsInv, ReceiveLane;
      IdsReceive(c, w, s.lanes[w], at, step.dispatchAt);
    } else if step.Complete? {
      hide IdsInv, CompleteLane;
      IdsComplete(c, w, s.lanes[w], step.task, step.result);
    } else {
      hide IdsInv;
      IdsSame(w, s.lanes[w].worker, Apply(c, s, step, at).lanes[w].worker);
    }
  }

  lemma IdsSame(core: nat, w: Worker, w': Worker)
    requires IdsInv(core, w) && w'.tasks == w.tasks && w'.nextSeq == w.nextSeq && w'.issued == w.issued
    ensures IdsInv(core, w')
  {
  }

  lemma IdsReceive(c: Config, core: nat, l: Lane, at: nat, dispatchAt: nat)
    requires l.chan.queue != [] && IdsInv(core, l.worker)
    ensures IdsInv(core, ReceiveLane(c, core, l, at, dispatchAt).worker)
  {
    hide M.Merge, M.Of, SendSnapshot;
  }

  lemma IdsComplete(c: Config, core: nat, l: Lane, i: nat, r: M.ExecutionResult)
    requires i < |l.worker.tasks| && l.worker.inFlight > 0 && IdsInv(core, l.worker)
    ensures IdsInv(core, CompleteLane(c, l, i, r).worker)
  {
    hide M.Merge, M.Of;
  }

  lemma StartIds(s: State, firsts: seq<Option<nat>>, w: nat)
    requires Started(s, firsts) && w < |s.lanes|
    ensures IdsInv(w, s.lanes[w].worker)
  {
    assert FreshLane(s.lanes[w], firsts[w]);
  }

  lemma {:induction false} RunIds(c: Config, states: seq<State>, moves: seq<Move>, i: nat, w: nat)
    requires Run(c, states, moves) && i < |states| == |moves| + 1 && w < |states[i].lanes|
    ensures IdsInv(w, states[i].lanes[w].worker)
  {
    hide *;
    if i == 0 {
      var firsts := RunStart(c, states, moves);
      StartIds(states[0], firsts, w);
    } else {
      RunStep(c, states, moves, i - 1);
      var m := moves[i-1];
      OneLane(c, states[i-1], m.step, m.at);
      RunIds(c, states, moves, i - 1, w);
      if Target(states[i-1], m.step) == Some(w) { IdsLane(c, states[i-1], m.step, m.at, w); }
    }
  }

  /**
   In every state of every run two requests in flight share an id only if they are on different
   workers and the lower-numbered one has started more requests than fit between their ranges.
   */
  lemma RequestIds(c: Config, states: seq<State>, moves: seq<Move>, i: nat, v: nat, j: nat, w: nat, k: nat)
    requires Run(c, states, moves) && i < |states|
    requires v < |states[i].lanes| && j < |states[i].lanes[v].worker.tasks|
    requires w < |states[i].lanes| && k < |states[i].lanes[w].worker.tasks|
    requires states[i].lanes[v].worker.tasks[j].id == states[i].lanes[w].worker.tasks[k].id && (v != w || j != k)
    ensures v != w
    ensures v < w ==> states[i].lanes[v].worker.nextSeq > (w - v) * REQUEST_ID_STRIDE
    ensures w < v ==> states[i].lanes[w].worker.nextSeq > (v - w) * REQUEST_ID_STRIDE
  {
    assert |states| == |moves| + 1;
    hide Run;
    RunIds(c, states, moves, i, v);
    RunIds(c, states, moves, i, w);
  }

  /** Of all ids ever issued, no two are equal. */
  predicate IdsDistinct(lanes: seq<Lane>) {
    forall v, j, w, k :: 0 <= v < |lanes| && 0 <= j < |lanes[v].worker.issued| &&
                         0 <= w < |lanes| && 0 <= k < |lanes[w].worker.issued| && (v != w || j != k) ==>
                         lanes[v].worker.issued[j] != lanes[w].worker.issued[k]
  }

  /** No worker below one that has started a request has started more than fit between their ranges. */
  predicate RangesApart(lanes: seq<Lane>) {
    forall v, w :: 0 <= v < w < |lanes| ==>
      lanes[w].worker.nextSeq == 0 || lanes[v].worker.nextSeq <= (w - v) * REQUEST_ID_STRIDE
  }

  lemma ApartDistinct(lanes: seq<Lane>, v: nat, j: nat, w: nat, k: nat)
    requires v < w < |lanes| && IdsInv(v, lanes[v].worker) && IdsInv(w, lanes[w].worker) && RangesApart(lanes)
    requires j < |lanes[v].worker.issued| && k < |lanes[w].worker.issued|
    ensures lanes[v].worker.issued[j] != lanes[w].worker.issued[k]
  {
  }

  lemma OverlapShared(lanes: seq<Lane>, v: nat, w: nat)
    requires v < w < |lanes| && IdsInv(v, lanes[v].worker) && IdsInv(w, lanes[w].worker)
    requires lanes[w].worker.nextSeq > 0 && lanes[v].worker.nextSeq > (w - v) * REQUEST_ID_STRIDE
    ensures lanes[v].worker.issued[(w - v) * REQUEST_ID_STRIDE] == lanes[w].worker.issued[0]
  {
  }

  /**
   In every state of every run, the ids issued so far are distinct exactly when no worker has run
   into the range of a higher-numbered one that has started a request. The highest-numbered worker
   may pass a billion.
   */
  lemma RequestIdsDistinct(c: Config, states: seq<State>, moves: seq<Move>, i: nat)
    requires Run(c, states, moves) && i < |states|
    ensures IdsDistinct(states[i].lanes) <==> RangesApart(states[i].lanes)
  {
    assert |states| == |moves| + 1;
    var lanes := states[i].lanes;
    forall w | 0 <= w < |lanes| ensures IdsInv(w, lanes[w].worker) { RunIds(c, states, moves, i, w); }
    hide Run, Enabled, Apply;
    if RangesApart(lanes) {
      forall v, j, w, k | 0 <= v < w < |lanes| && 0 <= j < |lanes[v].worker.issued| && 0 <= k < |lanes[w].worker.issued|
        ensures lanes[v].worker.issued[j] != lanes[w].worker.issued[k]
      {
        ApartDistinct(lanes, v, j, w, k);
      }
    } else {
      var v, w :| 0 <= v < w < |lanes| && lanes[w].worker.nextSeq != 0 && lanes[v].worker.nextSeq > (w - v) * REQUEST_ID_STRIDE;
      OverlapShared(lanes, v, w);
    }
  }

  // A run in which two workers issue the same id: the first starts a billion and one requests, the second one.

  predicate Waiting(l: Lane, n: nat) {
    && l.worker.phase.Receiving? && l.chan.queue == [] && l.worker.inFlight == 0 && l.worker.tasks == []
    && l.worker.nextSeq == n
  }

  /** Two idle workers; the first has started `n` requests and the second none. */
  predicate Counting(s: State, n: nat, heap: multiset<Entry>) {
    && |s.lanes| == 2 && s.timer.phase.Looping? && s.timer.heap == heap
    && Waiting(s.lanes[0], n) && Waiting(s.lanes[1], 0)
  }

  function ResultOf(t: Task): (r: M.ExecutionResult)
    ensures Result(t, r)
  {
    M.ExecutionResult(t.intended, t.sent, t.actual, t.dispatched, 0, None, 0, 0, None, None, None)
  }

  const BOTH: multiset<Entry> := multiset{Entry(0, 0), Entry(0, 1)}

  lemma TwoWorkers() returns (s: State)
    ensures Started(s, [Some(0), Some(0)]) && Counting(s, 0, BOTH)
  {
    M.BlankIsZero(M.Zero());
    hide M.Blank;
    var lane := Lane(Schedule([0], Some(0)), Channel([], [], 0, 0), Worker(Receiving, 0, 0, 0, 0, [], [], [], []),
                     Report(M.Zero(), [], [], [], 0));
    var firsts: seq<Option<nat>> := [Some(0), Some(0)];
    assert firsts[..1] == [Some(0)] && firsts[..1][..0] == [];
    assert Seeded(firsts[..1]) == multiset{Entry(0, 0)};
    assert Seeded(firsts) == BOTH;
    s := State(0, Timer(Looping, BOTH, [], 0, 0, []), [lane, lane],
               Coordinator(Ticking, false, M.Zero(), 0, 0, M.Zero(), 0, [], [], [], 0));
  }

  /** The first worker has started its request number `n` and nothing else is under way. */
  predicate Serving(s: State, n: nat, heap: multiset<Entry>) {
    && |s.lanes| == 2 && s.timer.phase.Looping? && s.timer.heap == heap && Waiting(s.lanes[1], 0)
    && s.lanes[0].worker.phase.Draining? && s.lanes[0].chan.queue == [] && s.lanes[0].worker.inFlight == 1
    && |s.lanes[0].worker.tasks| == 1 && s.lanes[0].worker.nextSeq == n + 1
  }

  lemma FirstStarts(c: Config, states: seq<State>, moves: seq<Move>, n: nat, next: Option<nat>)
    returns (longer: seq<State>, more: seq<Move>)
    requires c.capacity > 0 && Chain(c, states, moves) && (next.Some? ==> next.value == 0)
    requires Counting(states[|moves|], n, BOTH)
    ensures Chain(c, longer, more) && longer[0] == states[0]
    ensures Serving(longer[|more|], n, if next.Some? then BOTH else multiset{Entry(0, 1)})
  {
    hide Chain, M.Merge, M.Of, SendSnapshot;
    longer, more := states, moves;
    assert |longer| == |more| + 1 by { ChainLength(c, states, moves); }
    longer, more := Extend(c, longer, more, Dispatch(Entry(0, 0), next));
    longer, more := Extend(c, longer, more, Receive(0, longer[|more|].now));
  }

  lemma FirstEnds(c: Config, states: seq<State>, moves: seq<Move>, n: nat, heap: multiset<Entry>)
    returns (longer: seq<State>, more: seq<Move>)
    requires Chain(c, states, moves) && Serving(states[|moves|], n, heap)
    ensures Chain(c, longer, more) && longer[0] == states[0] && Counting(longer[|more|], n + 1, heap)
  {
    hide Chain, M.Merge, M.Of, SendSnapshot;
    longer, more := states, moves;
    assert |longer| == |more| + 1 by { ChainLength(c, states, moves); }
    longer, more := Extend(c, longer, more, Complete(0, 0, ResultOf(longer[|more|].lanes[0].worker.tasks[0])));
    longer, more := Extend(c, longer, more, Idle(0, false));
  }

  lemma SecondRequest(c: Config, states: seq<State>, moves: seq<Move>, n: nat)
    returns (longer: seq<State>, more: seq<Move>)
    requires c.capacity > 0 && Chain(c, states, moves) && Counting(states[|moves|], n, multiset{Entry(0, 1)})
    ensures Chain(c, longer, more) && longer[0] == states[0] && |longer[|more|].lanes| == 2
    ensures longer[|more|].lanes[0].worker.nextSeq == n && longer[|more|].lanes[1].worker.nextSeq == 1
  {
    hide Chain, M.Merge, M.Of;
    longer, more := states, moves;
    assert |longer| == |more| + 1 by { ChainLength(c, states, moves); }
    longer, more := Extend(c, longer, more, Dispatch(Entry(0, 1), None));
    longer, more := Extend(c, longer, more, Receive(1, longer[|more|].now));
  }

  lemma ChainOne(c: Config, s: State)
    ensures Chain(c, [s], [])
  {
  }

  lemma RunOf(c: Config, states: seq<State>, moves: seq<Move>, firsts: seq<Option<nat>>)
    requires Chain(c, states, moves) && Started(states[0], firsts)
    ensures Run(c, states, moves)
  {
    hide Started, Enabled, Apply;
  }

  lemma NotApart(lanes: seq<Lane>)
    requires |lanes| == 2 && lanes[0].worker.nextSeq > REQUEST_ID_STRIDE && lanes[1].worker.nextSeq > 0
    ensures !RangesApart(lanes)
  {
    assert lanes[0].worker.nextSeq > (1 - 0) * REQUEST_ID_STRIDE;
  }

  lemma {:induction false} ManyRequests(c: Config, n: nat) returns (states: seq<State>, moves: seq<Move>)
    requires c.capacity > 0
    ensures Chain(c, states, moves) && Started(states[0], [Some(0), Some(0)]) && Counting(states[|moves|], n, BOTH)
  {
    hide *;
    if n == 0 {
      var s := TwoWorkers();
      states, moves := [s], [];
      ChainOne(c, s);
    } else {
      states, moves := ManyRequests(c, n - 1);
      states, moves := FirstStarts(c, states, moves, n - 1, Some(0));
      states, moves := FirstEnds(c, states, moves, n - 1, BOTH);
    }
  }

  /**
   Whatever the limits, two workers come to issue one id: there is a run in which the first has
   started a billion and one requests and the second its first.
   */
  lemma IdsCollide(c: Config) returns (states: seq<State>, moves: seq<Move>)
    requires c.capacity > 0
    ensures Run(c, states, moves) && |states[|moves|].lanes| == 2 && !IdsDistinct(states[|moves|].lanes)
  {
    hide *;
    states, moves := ManyRequests(c, REQUEST_ID_STRIDE);
    states, moves := FirstStarts(c, states, moves, REQUEST_ID_STRIDE, None);
    states, moves := FirstEnds(c, states, moves, REQUEST_ID_STRIDE, multiset{Entry(0, 1)});
    states, moves := SecondRequest(c, states, moves, REQUEST_ID_STRIDE + 1);
    ChainLength(c, states, moves);
    RunOf(c, states, moves, [Some(0), Some(0)]);
    RequestIdsDistinct(c, states, moves, |moves|);
    NotApart(states[|moves|].lanes);
  }
}
