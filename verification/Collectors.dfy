/**
 The per-core collector and the coordinator's aggregates as objects that update their fields,
 proved against the values and folds of `Metrics`.
 */
module Collectors {
  import opened Wrappers
  import opened Metrics

  /** A collector's snapshot with what the worker stamps onto it before sending. */
  datatype Snapshot = Snapshot(
    stats: Stats, lasts: map<string, real>, start: nat, end: nat, drops: nat, inFlight: nat, capacity: nat)

  function AddDelay(d: Delay, v: nat): Delay {
    Delay(d.sum + v, if v > d.max then v else d.max)
  }

  function AddSignal(m: map<string, Signal>, name: string, v: real): map<string, Signal> {
    var acc := SignalAt(m, name);
    m[name := Signal(acc.sum + v, acc.count + 1, if v > acc.max then v else acc.max)]
  }

  lemma AddSignalMerges(m: map<string, Signal>, c: SignalConfig, h: Header)
    ensures MergeSignals(m, SignalHit(c, h)) ==
            if SameName(h.name, c.header) && h.number.Some? then AddSignal(m, c.name, h.number.value) else m
  {
    if SameName(h.name, c.header) && h.number.Some? {
      var l, r := MergeSignals(m, SignalHit(c, h)), AddSignal(m, c.name, h.number.value);
      assert l.Keys == r.Keys;
      assert forall k :: k in l.Keys ==> l[k] == r[k];
    } else {
      assert MergeSignals(m, map[]) == m;
    }
  }

  lemma LastHitLater(m: map<string, real>, c: SignalConfig, h: Header)
    ensures Later(m, LastHit(c, h)) ==
            if SameName(h.name, c.header) && h.number.Some? then m[c.name := h.number.value] else m
  {
  }

  lemma NoLasts(m: map<string, real>)
    ensures Later(m, map[]) == m
  {
  }

  class Collector {
    const config: Config
    var counts: Counts
    var delays: Delays
    var latency: multiset<nat>
    var sizes: multiset<nat>
    var headers: multiset<(string, string)>
    var md5Mismatches: nat
    var signals: map<string, Signal>
    var lasts: map<string, real>
    var windowStart: nat

    function Value(): Stats
      reads this
    {
      Stats(counts, delays, latency, sizes, headers, md5Mismatches, signals)
    }

    constructor (config: Config, now: nat)
      ensures this.config == config && Value() == Zero() && lasts == map[] && windowStart == now
    {
      this.config, windowStart, lasts := config, now, map[];
      counts := Counts(0, 0, 0, 0, 0);
      delays := Delays(Delay(0, 0), Delay(0, 0), Delay(0, 0), Delay(0, 0), 0);
      latency, sizes, headers := multiset{}, multiset{}, multiset{};
      md5Mismatches, signals := 0, map[];
      new;
      BlankIsZero(Value());
    }

    method Record(r: ExecutionResult)
      modifies this
      ensures Value() == Merge(old(Value()), Of(config, r)) && lasts == Later(old(lasts), LastsOf(config, r))
      ensures windowStart == old(windowStart)
    {
      hide MergeCounts, MergeDelays, MergeSignals, CountsOf, DelaysOf, LatencyValues, SizeValues, HeadersOf, SignalsOf, Later;
      RecordCounts(r);
      if r.error == Some(Timeout) {
        ZeroIsIdentity(old(Value()));
        NoLasts(lasts);
      } else {
        RecordCompleted(r);
      }
    }

    method RecordCompleted(r: ExecutionResult)
      modifies `delays, `latency, `sizes, `headers, `md5Mismatches, `signals, `lasts
      ensures delays == MergeDelays(old(delays), DelaysOf(r))
      ensures latency == old(latency) + LatencyValues(r)
      ensures sizes == old(sizes) + SizeValues(r)
      ensures headers == old(headers) + HeadersOf(config, r)
      ensures md5Mismatches == old(md5Mismatches) + Md5Mismatch(config, r)
      ensures signals == MergeSignals(old(signals), SignalsOf(config, r))
      ensures r.error != Some(Timeout) ==> lasts == Later(old(lasts), LastsOf(config, r))
    {
      hide MergeSignals, Later, SignalHits, LastHits, Hits, DelaysOf, LatencyValues, SizeValues, MergeDelays;
      RecordTiming(r);
      RecordSize(r);
      if r.headers.Some? {
        RecordHeaders(r.headers.value);
        RecordSignals(r.headers.value);
      } else {
        NoSignals(signals);
        NoLasts(lasts);
      }
      md5Mismatches := md5Mismatches + Md5Mismatch(config, r);
    }

    method RecordSize(r: ExecutionResult)
      modifies `sizes
      ensures sizes == old(sizes) + SizeValues(r)
    {
      if r.responseSize > 0 {
        sizes := sizes + Accepted(Max(r.responseSize, 1), SIZE_LIMIT);
      }
    }

    method RecordCounts(r: ExecutionResult)
      modifies `counts
      ensures counts == MergeCounts(old(counts), CountsOf(config, r))
    {
      counts := counts.(requests := counts.requests + 1);
      if r.error == Some(Timeout) {
        counts := counts.(timeouts := counts.timeouts + 1, errors := counts.errors + 1,
                          bytesSent := counts.bytesSent + r.bytesSent);
        return;
      }
      if IsError(config, r) {
        counts := counts.(errors := counts.errors + 1);
      }
      counts := counts.(bytesSent := counts.bytesSent + r.bytesSent,
                        bytesReceived := counts.bytesReceived + r.responseSize);
    }

    method RecordTiming(r: ExecutionResult)
      modifies `delays, `latency
      ensures delays == MergeDelays(old(delays), DelaysOf(r))
      ensures latency == old(latency) + LatencyValues(r)
    {
      latency := latency + Accepted(Max(r.latency, 1), LATENCY_LIMIT);
      var totalDelay := Since(r.dispatched, r.intended);
      delays := Delays(AddDelay(delays.lag, Since(r.sent, r.intended)),
                       AddDelay(delays.transit, Since(r.actual, r.sent)),
                       AddDelay(delays.gap, Since(r.dispatched, r.actual)),
                       AddDelay(delays.total, totalDelay),
                       if totalDelay > ONE_MS then delays.over1ms + 1 else delays.over1ms);
      if totalDelay > CORRECTION_THRESHOLD {
        latency := latency + Accepted(Max(r.latency + totalDelay, 1), LATENCY_LIMIT);
      }
    }

    method RecordHeaders(hs: seq<Header>)
      modifies `headers
      ensures headers == old(headers) + Hits(config.tracked, hs)
    {
      for i := 0 to |config.tracked|
        invariant headers == old(headers) + Hits(config.tracked[..i], hs)
      {
        RecordHeader(config.tracked[i], hs);
        assert config.tracked[..i+1][..i] == config.tracked[..i];
      }
      assert config.tracked[..|config.tracked|] == config.tracked;
    }

    method RecordHeader(t: string, hs: seq<Header>)
      modifies `headers
      ensures headers == old(headers) + HitsFor(t, hs)
    {
      for j := 0 to |hs|
        invariant headers == old(headers) + HitsFor(t, hs[..j])
      {
        if SameName(hs[j].name, t) {
          headers := headers + multiset{(t, hs[j].value)};
        }
        assert hs[..j+1][..j] == hs[..j];
      }
      assert hs[..|hs|] == hs;
    }

    method RecordSignals(hs: seq<Header>)
      modifies `signals, `lasts
      ensures signals == MergeSignals(old(signals), SignalHits(config.signals, hs))
      ensures lasts == Later(old(lasts), LastHits(config.signals, hs))
    {
      var cs := config.signals;
      NoSignals(signals);
      NoLasts(lasts);
      hide MergeSignals, Later, SignalsFor, LastsFor;
      for i := 0 to |cs|
        invariant signals == MergeSignals(old(signals), SignalHits(cs[..i], hs))
        invariant lasts == Later(old(lasts), LastHits(cs[..i], hs))
      {
        RecordSignal(cs[i], hs);
        assert cs[..i+1][..i] == cs[..i];
        MergeSignalsAssociates(old(signals), SignalHits(cs[..i], hs), SignalsFor(cs[i], hs));
        LaterAssociates(old(lasts), LastHits(cs[..i], hs), LastsFor(cs[i], hs));
      }
      assert cs[..|cs|] == cs;
    }

    method RecordSignal(c: SignalConfig, hs: seq<Header>)
      modifies `signals, `lasts
      ensures signals == MergeSignals(old(signals), SignalsFor(c, hs))
      ensures lasts == Later(old(lasts), LastsFor(c, hs))
    {
      NoSignals(signals);
      NoLasts(lasts);
      hide MergeSignals, Later, SignalHit, LastHit, AddSignal, SameName;
      for j := 0 to |hs|
        invariant signals == MergeSignals(old(signals), SignalsFor(c, hs[..j]))
        invariant lasts == Later(old(lasts), LastsFor(c, hs[..j]))
      {
        AddSignalMerges(signals, c, hs[j]);
        LastHitLater(lasts, c, hs[j]);
        if SameName(hs[j].name, c.header) && hs[j].number.Some? {
          signals := AddSignal(signals, c.name, hs[j].number.value);
          lasts := lasts[c.name := hs[j].number.value];
        }
        assert hs[..j+1][..j] == hs[..j];
        MergeSignalsAssociates(old(signals), SignalsFor(c, hs[..j]), SignalHit(c, hs[j]));
        LaterAssociates(old(lasts), LastsFor(c, hs[..j]), LastHit(c, hs[j]));
      }
      assert hs[..|hs|] == hs;
    }

    /** Hands out everything recorded since the last snapshot and starts an empty window where this one ends. */
    method Snap(now: nat) returns (s: Snapshot)
      modifies this
      ensures s == Snapshot(old(Value()), old(lasts), old(windowStart), now, 0, 0, 0)
      ensures Value() == Zero() && lasts == map[] && windowStart == now
    {
      s := Snapshot(Value(), lasts, windowStart, now, 0, 0, 0);
      latency, sizes := multiset{}, multiset{};
      counts := Counts(0, 0, 0, 0, 0);
      delays := Delays(Delay(0, 0), Delay(0, 0), Delay(0, 0), Delay(0, 0), 0);
      windowStart := now;
      md5Mismatches := 0;
      headers, signals, lasts := multiset{}, map[], map[];
      BlankIsZero(Value());
    }
  }

  // ---------------------------------------------------------------------------
  // The aggregate
  // ---------------------------------------------------------------------------

  datatype Window = Window(start: nat, end: nat)

  /** Everything an aggregate holds. */
  datatype Totals = Totals(
    stats: Stats, lasts: map<string, real>, window: Option<Window>,
    sources: nat, drops: nat, inFlight: nat, capacity: nat)

  function Hull(w: Option<Window>, s: Snapshot): Window {
    match w
    case None => Window(s.start, s.end)
    case Some(x) => Window(if x.start < s.start then x.start else s.start, Max(x.end, s.end))
  }

  function Add(t: Totals, s: Snapshot): Totals {
    Totals(Merge(t.stats, s.stats), Later(t.lasts, s.lasts), Some(Hull(t.window, s)),
           t.sources + 1, t.drops + s.drops, t.inFlight + s.inFlight, t.capacity + s.capacity)
  }

  function AddAll(t: Totals, ss: seq<Snapshot>): Totals {
    if ss == [] then t else Add(AddAll(t, ss[..|ss|-1]), ss[|ss|-1])
  }

  ghost function NoTotals(): Totals { Totals(Zero(), map[], None, 0, 0, 0, 0) }

  method NoStats() returns (s: Stats)
    ensures s == Zero()
  {
    var none := Delay(0, 0);
    s := Stats(Counts(0, 0, 0, 0, 0), Delays(none, none, none, none, 0), multiset{}, multiset{}, multiset{}, 0, map[]);
    BlankIsZero(s);
  }

  class Aggregate {
    var stats: Stats
    var lasts: map<string, real>
    var window: Option<Window>
    var sources: nat
    var drops: nat
    var inFlight: nat
    var capacity: nat

    function Value(): Totals
      reads this
    {
      Totals(stats, lasts, window, sources, drops, inFlight, capacity)
    }

    constructor ()
      ensures Value() == NoTotals()
    {
      var none := NoStats();
      stats, lasts, window, sources, drops, inFlight, capacity := none, map[], None, 0, 0, 0, 0;
    }

    method MergeSnapshot(s: Snapshot)
      modifies this
      ensures Value() == Add(old(Value()), s)
    {
      var merged := MergeAccumulators(stats.signals, s.stats.signals);
      stats := Merge(stats, s.stats).(signals := merged);
      lasts := Later(lasts, s.lasts);
      window := Some(Hull(window, s));
      sources := sources + 1;
      drops := drops + s.drops;
      inFlight := inFlight + s.inFlight;
      capacity := capacity + s.capacity;
    }

    method Reset()
      modifies this
      ensures Value() == NoTotals()
    {
      var none := NoStats();
      stats, lasts, window, sources, drops, inFlight, capacity := none, map[], None, 0, 0, 0, 0;
    }
  }

  lemma MergeName(into: map<string, Signal>, done: map<string, Signal>, k: string, x: Signal)
    requires k !in done
    ensures var merged := MergeSignals(into, done);
            MergeSignals(into, done[k := x]) == merged[k := MergeSignal(SignalAt(merged, k), x)]
  {
    var merged := MergeSignals(into, done);
    var l, r := MergeSignals(into, done[k := x]), merged[k := MergeSignal(SignalAt(merged, k), x)];
    assert SignalAt(merged, k) == SignalAt(into, k) by {
      MergeSignalAt(into, done, k);
      NothingMerged(SignalAt(into, k));
    }
    assert l.Keys == r.Keys;
    forall j | j in l.Keys ensures l[j] == r[j] {
      assert j != k ==> SignalAt(done[k := x], j) == SignalAt(done, j);
    }
  }

  lemma NothingMerged(x: Signal)
    ensures MergeSignal(x, Signal(0.0, 0, 0.0)) == x
  {
  }

  /** The merge of two accumulator maps, one name of the second after the other. */
  method MergeAccumulators(into: map<string, Signal>, from: map<string, Signal>) returns (merged: map<string, Signal>)
    ensures merged == MergeSignals(into, from)
  {
    hide MergeSignals, MergeSignal, SignalAt;
    merged := into;
    var names := from.Keys;
    NoSignals(into);
    assert from - names == map[];
    while names != {}
      invariant names <= from.Keys && merged == MergeSignals(into, from - names)
    {
      var k :| k in names;
      ghost var done := from - names;
      MergeName(into, done, k, from[k]);
      merged := merged[k := MergeSignal(SignalAt(merged, k), from[k])];
      names := names - {k};
      assert from - names == done[k := from[k]];
    }
    assert from - {} == from;
  }

  /**
   The coordinator's tick: the tick aggregate is reset and takes every snapshot waiting in every
   worker's channel; the total takes them too unless the warm-up is still on.
   */
  method Collect(tick: Aggregate, total: Aggregate, channels: seq<seq<Snapshot>>, warm: bool)
    requires tick != total
    modifies tick, total
    ensures tick.Value() == AddAll(NoTotals(), Flatten(channels))
    ensures total.Value() == if warm then AddAll(old(total.Value()), Flatten(channels)) else old(total.Value())
  {
    hide Add;
    tick.Reset();
    for i := 0 to |channels|
      invariant tick.Value() == AddAll(NoTotals(), Flatten(channels[..i]))
      invariant total.Value() == if warm then AddAll(old(total.Value()), Flatten(channels[..i])) else old(total.Value())
    {
      var waiting := channels[i];
      ghost var before, sum := tick.Value(), total.Value();
      for j := 0 to |waiting|
        invariant tick.Value() == AddAll(before, waiting[..j])
        invariant total.Value() == if warm then AddAll(sum, waiting[..j]) else old(total.Value())
      {
        assert waiting[..j + 1][..j] == waiting[..j];
        tick.MergeSnapshot(waiting[j]);
        if warm { total.MergeSnapshot(waiting[j]); }
      }
      assert waiting[..|waiting|] == waiting && channels[..i + 1][..i] == channels[..i];
      AddAllConcat(NoTotals(), Flatten(channels[..i]), waiting);
      AddAllConcat(old(total.Value()), Flatten(channels[..i]), waiting);
    }
    assert channels[..|channels|] == channels;
  }

  lemma {:induction false} AddAllConcat(t: Totals, a: seq<Snapshot>, b: seq<Snapshot>)
    ensures AddAll(t, a + b) == AddAll(AddAll(t, a), b)
  {
    hide Add;
    if b == [] {
      assert a + b == a;
    } else {
      assert (a + b)[..|a + b|-1] == a + b[..|b|-1];
      AddAllConcat(t, a, b[..|b|-1]);
    }
  }

  // ---------------------------------------------------------------------------
  // What a drained aggregate reports
  // ---------------------------------------------------------------------------

  /** Each snapshot is one collector's, over one window of results. */
  ghost predicate Taken(c: Config, ss: seq<Snapshot>, ws: seq<seq<ExecutionResult>>) {
    |ss| == |ws| && forall i :: 0 <= i < |ss| ==> ss[i].stats == StatsOf(c, ws[i]) && ss[i].lasts == LastsAfter(c, ws[i])
  }

  lemma AddLast(t: Totals, ss: seq<Snapshot>)
    requires ss != []
    ensures var before, after, x := AddAll(t, ss[..|ss|-1]), AddAll(t, ss), ss[|ss|-1];
            && after.stats == Merge(before.stats, x.stats) && after.lasts == Later(before.lasts, x.lasts)
            && after.window == Some(Hull(before.window, x)) && after.sources == before.sources + 1
            && after.inFlight == before.inFlight + x.inFlight && after.capacity == before.capacity + x.capacity
  {
    hide Merge, Hull;
  }

  /**
   Drained from empty, the aggregate's statistics are one collector's over all the results of all
   the windows, and its last signal values are those of recording them in the order of the merges.
   */
  lemma {:induction false} DrainedTotals(c: Config, ss: seq<Snapshot>, ws: seq<seq<ExecutionResult>>, t: Totals)
    requires Taken(c, ss, ws) && t.stats == Zero() && t.lasts == map[]
    ensures AddAll(t, ss).stats == StatsOf(c, Flatten(ws)) && AddAll(t, ss).lasts == LastsAfter(c, Flatten(ws))
    ensures AddAll(t, ss).sources == t.sources + |ss|
  {
    hide StatsOf, LastsAfter, Merge, Hull, Add;
    if ss == [] {
      DrainedNothing(c);
    } else {
      var n := |ss| - 1;
      DrainedTotals(c, ss[..n], ws[..n], t);
      AddLast(t, ss);
      StatsOfConcat(c, Flatten(ws[..n]), ws[n]);
      LastsAfterConcat(c, Flatten(ws[..n]), ws[n]);
    }
  }

  lemma DrainedNothing(c: Config)
    ensures StatsOf(c, []) == Zero() && LastsAfter(c, []) == map[]
  {
    StatsOfNone(c);
  }

  function SumOver(ss: seq<Snapshot>, f: Snapshot -> nat): nat {
    if ss == [] then 0 else SumOver(ss[..|ss|-1], f) + f(ss[|ss|-1])
  }

  const DROPS: Snapshot -> nat := (s: Snapshot) => s.drops
  const IN_FLIGHT: Snapshot -> nat := (s: Snapshot) => s.inFlight
  const CAPACITY: Snapshot -> nat := (s: Snapshot) => s.capacity

  /** What the workers stamp on their snapshots is summed over the snapshots. */
  lemma {:induction false} DrainedSums(ss: seq<Snapshot>, t: Totals)
    ensures AddAll(t, ss).drops == t.drops + SumOver(ss, DROPS)
    ensures AddAll(t, ss).inFlight == t.inFlight + SumOver(ss, IN_FLIGHT)
    ensures AddAll(t, ss).capacity == t.capacity + SumOver(ss, CAPACITY)
  {
    hide Merge, Hull, Later;
    if ss != [] { DrainedSums(ss[..|ss|-1], t); }
  }

  /** The aggregate's window is the least that covers every snapshot merged. */
  predicate Covers(w: Window, ss: seq<Snapshot>) {
    && (forall i :: 0 <= i < |ss| ==> w.start <= ss[i].start && ss[i].end <= w.end)
    && (exists i :: 0 <= i < |ss| && ss[i].start == w.start)
    && (exists i :: 0 <= i < |ss| && ss[i].end == w.end)
  }

  lemma {:induction false} DrainedWindow(ss: seq<Snapshot>, t: Totals)
    requires t.window == None
    ensures if ss == [] then AddAll(t, ss).window == None
            else AddAll(t, ss).window.Some? && Covers(AddAll(t, ss).window.value, ss)
  {
    hide Add;
    if ss != [] {
      var n := |ss| - 1;
      DrainedWindow(ss[..n], t);
      AddLast(t, ss);
      var w := AddAll(t, ss).window.value;
      hide AddAll;
      if n == 0 {
        assert ss[0].start == w.start && ss[0].end == w.end;
      } else {
        CoversMore(AddAll(t, ss[..n]).window.value, ss);
      }
    }
  }

  lemma CoversMore(w: Window, ss: seq<Snapshot>)
    requires ss != [] && Covers(w, ss[..|ss|-1])
    ensures Covers(Hull(Some(w), ss[|ss|-1]), ss)
  {
    var n, h := |ss| - 1, Hull(Some(w), ss[|ss|-1]);
    var i :| 0 <= i < n && ss[..n][i].start == w.start;
    var j :| 0 <= j < n && ss[..n][j].end == w.end;
    assert forall k :: 0 <= k < n ==> ss[k] == ss[..n][k];
    assert ss[if h.start == w.start then i else n].start == h.start;
    assert ss[if h.end == w.end then j else n].end == h.end;
  }
}
