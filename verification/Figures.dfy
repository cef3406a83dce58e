/**
 What each figure of a collector's record is, in terms of the raw fields of the results it was
 taken over: sums, largest values, counts, and how often a value occurs in a distribution. With
 `Metrics.ShardingInvisible` the same holds of every aggregate.
 */
module Figures {
  import opened Wrappers
  import opened Metrics

  function SumOf(rs: seq<ExecutionResult>, f: ExecutionResult -> nat): nat {
    if rs == [] then 0 else SumOf(rs[..|rs|-1], f) + f(rs[|rs|-1])
  }

  function CountOf(rs: seq<ExecutionResult>, p: ExecutionResult -> bool): nat {
    if rs == [] then 0 else CountOf(rs[..|rs|-1], p) + if p(rs[|rs|-1]) then 1 else 0
  }

  /** `m` is the largest value of `f`, or zero for no results. */
  predicate IsMax(m: nat, rs: seq<ExecutionResult>, f: ExecutionResult -> nat) {
    && (forall i :: 0 <= i < |rs| ==> f(rs[i]) <= m)
    && (m > 0 ==> exists i :: 0 <= i < |rs| && f(rs[i]) == m)
  }

  // ---------------------------------------------------------------------------
  // From one merge to any number of results
  // ---------------------------------------------------------------------------

  lemma {:induction false} SumFigure(c: Config, rs: seq<ExecutionResult>, f: Stats -> nat, g: ExecutionResult -> nat)
    requires f(Zero()) == 0 && (forall a, b :: f(Merge(a, b)) == f(a) + f(b)) && forall r :: f(Of(c, r)) == g(r)
    ensures f(StatsOf(c, rs)) == SumOf(rs, g)
  {
    hide Merge, Of, Zero;
    if rs != [] { SumFigure(c, rs[..|rs|-1], f, g); }
  }

  lemma {:induction false} CountFigure(c: Config, rs: seq<ExecutionResult>, f: Stats -> nat, p: ExecutionResult -> bool)
    requires f(Zero()) == 0 && (forall a, b :: f(Merge(a, b)) == f(a) + f(b))
    requires forall r :: f(Of(c, r)) == if p(r) then 1 else 0
    ensures f(StatsOf(c, rs)) == CountOf(rs, p)
  {
    hide Merge, Of, Zero;
    if rs != [] { CountFigure(c, rs[..|rs|-1], f, p); }
  }

  lemma MaxStep(m: nat, rs: seq<ExecutionResult>, x: ExecutionResult, f: ExecutionResult -> nat)
    requires IsMax(m, rs, f)
    ensures IsMax(Max(m, f(x)), rs + [x], f)
  {
    var all := rs + [x];
    assert all[|rs|] == x;
    if m > 0 {
      var i :| 0 <= i < |rs| && f(rs[i]) == m;
      assert all[i] == rs[i];
    }
  }

  lemma {:induction false} MaxFigure(c: Config, rs: seq<ExecutionResult>, f: Stats -> nat, g: ExecutionResult -> nat)
    requires f(Zero()) == 0 && (forall a, b :: f(Merge(a, b)) == Max(f(a), f(b))) && forall r :: f(Of(c, r)) == g(r)
    ensures IsMax(f(StatsOf(c, rs)), rs, g)
  {
    if rs == [] {
      StatsOfNone(c);
    } else {
      hide *;
      var rs', x := rs[..|rs|-1], rs[|rs|-1];
      assert rs == rs' + [x];
      MaxFigure(c, rs', f, g);
      StatsOfLast(c, rs', x);
      MaxStep(f(StatsOf(c, rs')), rs', x, g);
    }
  }

  // ---------------------------------------------------------------------------
  // Delays
  // ---------------------------------------------------------------------------

  const LAG: ExecutionResult -> nat := (r: ExecutionResult) =>
    if r.error == Some(Timeout) || r.sent < r.intended then 0 else r.sent - r.intended

  const TRANSIT: ExecutionResult -> nat := (r: ExecutionResult) =>
    if r.error == Some(Timeout) || r.actual < r.sent then 0 else r.actual - r.sent

  const GAP: ExecutionResult -> nat := (r: ExecutionResult) =>
    if r.error == Some(Timeout) || r.dispatched < r.actual then 0 else r.dispatched - r.actual

  const TOTAL: ExecutionResult -> nat := (r: ExecutionResult) =>
    if r.error == Some(Timeout) || r.dispatched < r.intended then 0 else r.dispatched - r.intended

  const LATE: ExecutionResult -> bool := (r: ExecutionResult) =>
    r.error != Some(Timeout) && r.dispatched > r.intended + 1_000_000

  lemma DelayParts(c: Config)
    ensures NoDelays(Zero().delays)
    ensures forall a, b :: Merge(a, b).delays == MergeDelays(a.delays, b.delays)
    ensures forall r :: Of(c, r).delays ==
                        Delays(Delay(LAG(r), LAG(r)), Delay(TRANSIT(r), TRANSIT(r)), Delay(GAP(r), GAP(r)),
                               Delay(TOTAL(r), TOTAL(r)), if LATE(r) then 1 else 0)
  {
    forall a, b ensures Merge(a, b).delays == MergeDelays(a.delays, b.delays) { MergeParts(a, b); }
    forall r
      ensures Of(c, r).delays ==
              Delays(Delay(LAG(r), LAG(r)), Delay(TRANSIT(r), TRANSIT(r)), Delay(GAP(r), GAP(r)),
                     Delay(TOTAL(r), TOTAL(r)), if LATE(r) then 1 else 0)
    {
      OfParts(c, r);
      hide Of;
    }
  }

  /**
   Each delay's sum and maximum run over the results that did not time out, with a delay of zero
   where the clock readings are not in order: intended to sent, sent to dequeued, dequeued to
   dispatched, and intended to dispatched.
   */
  lemma DelayFigures(c: Config, rs: seq<ExecutionResult>)
    ensures var d := StatsOf(c, rs).delays;
            && d.lag.sum == SumOf(rs, LAG) && IsMax(d.lag.max, rs, LAG)
            && d.transit.sum == SumOf(rs, TRANSIT) && IsMax(d.transit.max, rs, TRANSIT)
            && d.gap.sum == SumOf(rs, GAP) && IsMax(d.gap.max, rs, GAP)
            && d.total.sum == SumOf(rs, TOTAL) && IsMax(d.total.max, rs, TOTAL)
            && d.over1ms == CountOf(rs, LATE)
  {
    DelayParts(c);
    hide Merge, Of, Zero, StatsOf, IsMax, SumOf, CountOf, LAG, TRANSIT, GAP, TOTAL, LATE;
    SumFigure(c, rs, (s: Stats) => s.delays.lag.sum, LAG);
    MaxFigure(c, rs, (s: Stats) => s.delays.lag.max, LAG);
    SumFigure(c, rs, (s: Stats) => s.delays.transit.sum, TRANSIT);
    MaxFigure(c, rs, (s: Stats) => s.delays.transit.max, TRANSIT);
    SumFigure(c, rs, (s: Stats) => s.delays.gap.sum, GAP);
    MaxFigure(c, rs, (s: Stats) => s.delays.gap.max, GAP);
    SumFigure(c, rs, (s: Stats) => s.delays.total.sum, TOTAL);
    MaxFigure(c, rs, (s: Stats) => s.delays.total.max, TOTAL);
    CountFigure(c, rs, (s: Stats) => s.delays.over1ms, LATE);
  }

  // ---------------------------------------------------------------------------
  // Counters
  // ---------------------------------------------------------------------------

  const TIMED_OUT: ExecutionResult -> bool := (r: ExecutionResult) => r.error == Some(Timeout)
  const BYTES_SENT: ExecutionResult -> nat := (r: ExecutionResult) => r.bytesSent
  const BYTES_RECEIVED: ExecutionResult -> nat := (r: ExecutionResult) => if r.error == Some(Timeout) then 0 else r.responseSize

  /** A timeout, a transport error, or a status from the configured threshold on. */
  function FailedBy(c: Config): ExecutionResult -> bool {
    (r: ExecutionResult) =>
      r.error != None ||
      (c.errorThreshold != 0 && r.status.Some? && c.errorThreshold <= r.status.value)
  }

  lemma CountParts(c: Config)
    ensures NoCounts(Zero().counts)
    ensures forall a, b :: Merge(a, b).counts == MergeCounts(a.counts, b.counts)
    ensures forall r :: Of(c, r).counts ==
                        Counts(1, if FailedBy(c)(r) then 1 else 0, if TIMED_OUT(r) then 1 else 0, BYTES_SENT(r), BYTES_RECEIVED(r))
  {
    forall a, b ensures Merge(a, b).counts == MergeCounts(a.counts, b.counts) { MergeParts(a, b); }
    forall r
      ensures Of(c, r).counts ==
              Counts(1, if FailedBy(c)(r) then 1 else 0, if TIMED_OUT(r) then 1 else 0, BYTES_SENT(r), BYTES_RECEIVED(r))
    {
      OfParts(c, r);
      hide Of;
    }
  }

  /** Requests, errors and timeouts count results; the byte totals are sums, received bytes without timeouts. */
  lemma CounterFigures(c: Config, rs: seq<ExecutionResult>)
    ensures var n := StatsOf(c, rs).counts;
            && n.requests == |rs|
            && n.errors == CountOf(rs, FailedBy(c))
            && n.timeouts == CountOf(rs, TIMED_OUT)
            && n.bytesSent == SumOf(rs, BYTES_SENT)
            && n.bytesReceived == SumOf(rs, BYTES_RECEIVED)
  {
    CountParts(c);
    CountersOrdered(c, rs);
    hide Merge, Of, Zero, StatsOf, SumOf, CountOf, FailedBy, TIMED_OUT, BYTES_SENT, BYTES_RECEIVED;
    CountFigure(c, rs, (s: Stats) => s.counts.errors, FailedBy(c));
    CountFigure(c, rs, (s: Stats) => s.counts.timeouts, TIMED_OUT);
    SumFigure(c, rs, (s: Stats) => s.counts.bytesSent, BYTES_SENT);
    SumFigure(c, rs, (s: Stats) => s.counts.bytesReceived, BYTES_RECEIVED);
  }

  // ---------------------------------------------------------------------------
  // Distributions
  // ---------------------------------------------------------------------------

  /** The response's own latency, at least one nanosecond, is `v`. */
  function Measured(v: nat): ExecutionResult -> bool {
    (r: ExecutionResult) =>
      r.error != Some(Timeout) && v <= 60_000_000_000 && (if r.latency == 0 then v == 1 else v == r.latency)
  }

  /** The request left more than 100 microseconds late, and its latency from the intended instant is `v`. */
  function Corrected(v: nat): ExecutionResult -> bool {
    (r: ExecutionResult) =>
      r.error != Some(Timeout) && v <= 60_000_000_000 &&
      r.dispatched > r.intended + 100_000 && v == r.latency + (r.dispatched - r.intended)
  }

  function Sized(v: nat): ExecutionResult -> bool {
    (r: ExecutionResult) => r.error != Some(Timeout) && v == r.responseSize && 0 < v <= 1_073_741_824
  }

  function Occurs(p: bool): nat { if p then 1 else 0 }

  lemma OfDistributions(c: Config, r: ExecutionResult)
    ensures if r.error == Some(Timeout)
            then Blank(Of(c, r).(counts := Zero().counts))
            else && Of(c, r).latency == LatencyValues(r) && Of(c, r).sizes == SizeValues(r) && Of(c, r).headers == HeadersOf(c, r)
                 && Of(c, r).md5Mismatches == Md5Mismatch(c, r) && Of(c, r).signals == SignalsOf(c, r)
  {
    hide CountsOf, DelaysOf, LatencyValues, SizeValues, HeadersOf, SignalsOf, Md5Mismatch;
  }

  lemma MergeDistributions(a: Stats, b: Stats)
    ensures var m := Merge(a, b);
            && m.latency == a.latency + b.latency && m.sizes == a.sizes + b.sizes && m.headers == a.headers + b.headers
            && m.md5Mismatches == a.md5Mismatches + b.md5Mismatches && m.signals == MergeSignals(a.signals, b.signals)
  {
    hide MergeCounts, MergeDelays, MergeSignals;
  }

  lemma ResultHistograms(c: Config, r: ExecutionResult, v: nat)
    ensures Of(c, r).latency[v] == Occurs(Measured(v)(r)) + Occurs(Corrected(v)(r))
    ensures Of(c, r).sizes[v] == Occurs(Sized(v)(r))
  {
    OfDistributions(c, r);
    hide Of, HeadersOf, SignalsOf, Md5Mismatch, NoDelays, NoCounts;
  }

  lemma HistogramParts(c: Config, v: nat)
    ensures Zero().latency == multiset{} && Zero().sizes == multiset{}
    ensures forall a, b :: Merge(a, b).latency == a.latency + b.latency && Merge(a, b).sizes == a.sizes + b.sizes
    ensures forall r :: Of(c, r).latency[v] == Occurs(Measured(v)(r)) + Occurs(Corrected(v)(r))
    ensures forall r :: Of(c, r).sizes[v] == Occurs(Sized(v)(r))
  {
    hide Merge, Of, Measured, Corrected, Sized, Occurs;
    forall a, b ensures Merge(a, b).latency == a.latency + b.latency && Merge(a, b).sizes == a.sizes + b.sizes {
      MergeDistributions(a, b);
    }
    forall r
      ensures Of(c, r).latency[v] == Occurs(Measured(v)(r)) + Occurs(Corrected(v)(r)) && Of(c, r).sizes[v] == Occurs(Sized(v)(r))
    {
      ResultHistograms(c, r, v);
    }
  }

  lemma {:induction false} BothCounted(rs: seq<ExecutionResult>, p: ExecutionResult -> bool, q: ExecutionResult -> bool)
    ensures SumOf(rs, (r: ExecutionResult) => Occurs(p(r)) + Occurs(q(r))) == CountOf(rs, p) + CountOf(rs, q)
  {
    if rs != [] { BothCounted(rs[..|rs|-1], p, q); }
  }

  /**
   A latency stands in the histogram once for each response that measured it and once more for each
   request sent late whose latency from the intended instant it is; values past a minute are not
   kept. A response size stands there once for each response of that size, if positive and at most
   a gibibyte.
   */
  lemma HistogramFigures(c: Config, rs: seq<ExecutionResult>, v: nat)
    ensures StatsOf(c, rs).latency[v] == CountOf(rs, Measured(v)) + CountOf(rs, Corrected(v))
    ensures StatsOf(c, rs).sizes[v] == CountOf(rs, Sized(v))
  {
    HistogramParts(c, v);
    hide Merge, Of, Zero, StatsOf, SumOf, CountOf, Measured, Corrected, Sized;
    BothCounted(rs, Measured(v), Corrected(v));
    SumFigure(c, rs, (s: Stats) => s.latency[v], (r: ExecutionResult) => Occurs(Measured(v)(r)) + Occurs(Corrected(v)(r)));
    CountFigure(c, rs, (s: Stats) => s.sizes[v], Sized(v));
  }

  /** Names are equal up to the case of ASCII letters. */
  lemma SameNameIff(a: string, b: string)
    ensures SameName(a, b) <==>
            |a| == |b| && forall i :: 0 <= i < |a| ==>
                            || a[i] == b[i]
                            || ('a' <= a[i] <= 'z' && b[i] as int == a[i] as int - 32)
                            || ('A' <= a[i] <= 'Z' && b[i] as int == a[i] as int + 32)
  {
    if SameName(a, b) {
      assert |Lower(a)| == |a| && |Lower(b)| == |b|;
      forall i | 0 <= i < |a| ensures LowerChar(a[i]) == LowerChar(b[i]) {
        assert Lower(a)[i] == LowerChar(a[i]) && Lower(b)[i] == LowerChar(b[i]);
      }
    }
  }

  /** The first header named content-md5 carries another digest than the captured body's. */
  function Corrupt(c: Config): ExecutionResult -> bool {
    (r: ExecutionResult) =>
      r.error != Some(Timeout) && c.md5Check && r.bodyMd5.Some? && r.headers.Some? &&
      exists i :: 0 <= i < |r.headers.value| && FirstMd5(r.headers.value, i) && !SameName(r.headers.value[i].value, r.bodyMd5.value)
  }

  predicate FirstMd5(hs: seq<Header>, i: nat) {
    i < |hs| && SameName(hs[i].name, "content-md5") && forall j :: 0 <= j < i ==> !SameName(hs[j].name, "content-md5")
  }

  lemma {:induction false} FindsFirst(hs: seq<Header>, i: nat)
    ensures FirstMd5(hs, i) ==> FindMd5(hs) == Some(hs[i].value)
    ensures FindMd5(hs).None? ==> !FirstMd5(hs, i)
  {
    hide SameName;
    if i > 0 && hs != [] && FirstMd5(hs, i) {
      assert hs[1..][i-1] == hs[i];
      forall j | 0 <= j < i - 1 ensures !SameName(hs[1..][j].name, "content-md5") { assert hs[1..][j] == hs[j+1]; }
      FindsFirst(hs[1..], i - 1);
    }
  }

  lemma ResultCorrupt(c: Config, r: ExecutionResult)
    ensures Of(c, r).md5Mismatches == if Corrupt(c)(r) then 1 else 0
  {
    OfDistributions(c, r);
    hide Of, LatencyValues, SizeValues, HeadersOf, SignalsOf, SameName, FindMd5, NoDelays, NoCounts;
    if r.headers.Some? && r.bodyMd5.Some? {
      var hs, body := r.headers.value, r.bodyMd5.value;
      SameDigest(hs, body);
    }
  }

  lemma SameDigest(hs: seq<Header>, body: string)
    ensures (FindMd5(hs).Some? && !SameName(body, FindMd5(hs).value)) <==>
            exists i :: 0 <= i < |hs| && FirstMd5(hs, i) && !SameName(hs[i].value, body)
  {
    hide Lower;
    forall i: nat ensures FirstMd5(hs, i) ==> FindMd5(hs) == Some(hs[i].value) { FindsFirst(hs, i); }
    if FindMd5(hs).Some? {
      var i := FoundAt(hs);
      assert FirstMd5(hs, i);
    }
  }

  lemma {:induction false} FoundAt(hs: seq<Header>) returns (i: nat)
    requires FindMd5(hs).Some?
    ensures FirstMd5(hs, i)
  {
    hide SameName;
    i := 0;
    if !SameName(hs[0].name, "content-md5") {
      var k := FoundAt(hs[1..]);
      i := k + 1;
      forall j | 0 <= j < i ensures !SameName(hs[j].name, "content-md5") {
        assert j > 0 ==> hs[j] == hs[1..][j-1];
      }
    }
  }

  /** How often a result adds the value `v` to the distribution tracked under `u`. */
  function Tracked(c: Config, u: string, v: string): ExecutionResult -> nat {
    (r: ExecutionResult) =>
      if r.error == Some(Timeout) || r.headers.None? then 0
      else Occurrences(u, c.tracked) * Matching(u, v, r.headers.value)
  }

  lemma ResultTracked(c: Config, r: ExecutionResult, u: string, v: string)
    ensures Of(c, r).headers[(u, v)] == Tracked(c, u, v)(r)
  {
    OfDistributions(c, r);
    hide Of, LatencyValues, SizeValues, SignalsOf, Md5Mismatch, Hits, Occurrences, Matching, NoDelays, NoCounts;
    if r.headers.Some? { HitsCount(c.tracked, r.headers.value, u, v); }
  }

  /** Digest mismatches count results; a header value is counted as often as the results' headers carry it. */
  lemma HeaderFigures(c: Config, rs: seq<ExecutionResult>, u: string, v: string)
    ensures StatsOf(c, rs).md5Mismatches == CountOf(rs, Corrupt(c))
    ensures StatsOf(c, rs).headers[(u, v)] == SumOf(rs, Tracked(c, u, v))
  {
    hide Merge, Of, StatsOf, SumOf, CountOf, Corrupt, Tracked;
    forall a, b
      ensures Merge(a, b).md5Mismatches == a.md5Mismatches + b.md5Mismatches && Merge(a, b).headers == a.headers + b.headers
    {
      MergeDistributions(a, b);
    }
    forall r ensures Of(c, r).md5Mismatches == if Corrupt(c)(r) then 1 else 0 { ResultCorrupt(c, r); }
    forall r ensures Of(c, r).headers[(u, v)] == Tracked(c, u, v)(r) { ResultTracked(c, r, u, v); }
    CountFigure(c, rs, (s: Stats) => s.md5Mismatches, Corrupt(c));
    SumFigure(c, rs, (s: Stats) => s.headers[(u, v)], Tracked(c, u, v));
  }

  /** The numbers signal `k` takes from the results' headers, timeouts apart, in the order they are read. */
  function SignalStream(c: Config, rs: seq<ExecutionResult>, k: string): seq<real> {
    if rs == [] then []
    else
      var r := rs[|rs|-1];
      SignalStream(c, rs[..|rs|-1], k) +
      if r.error == Some(Timeout) || r.headers.None? then [] else SignalValues(c.signals, r.headers.value, k)
  }

  lemma ResultSignals(c: Config, r: ExecutionResult, k: string)
    ensures Tallies(SignalAt(Of(c, r).signals, k),
                    if r.error == Some(Timeout) || r.headers.None? then [] else SignalValues(c.signals, r.headers.value, k))
  {
    OfDistributions(c, r);
    hide Of, LatencyValues, SizeValues, HeadersOf, Md5Mismatch, SignalHits, SignalValues, NoDelays, NoCounts;
    if r.headers.Some? { SignalHitsTally(c.signals, r.headers.value, k); }
  }

  /** A signal's count, sum and maximum are those of the numbers the results' headers carry for it. */
  lemma {:induction false} SignalFigures(c: Config, rs: seq<ExecutionResult>, k: string)
    ensures Tallies(SignalAt(StatsOf(c, rs).signals, k), SignalStream(c, rs, k))
  {
    if rs == [] {
      StatsOfNone(c);
      hide StatsOf;
    } else {
      hide Merge, Of, StatsOf, Tallies, SignalAt, MergeSignals, SignalValues, MergeSignal;
      var rs', r := rs[..|rs|-1], rs[|rs|-1];
      assert rs == rs' + [r];
      SignalFigures(c, rs', k);
      ResultSignals(c, r, k);
      StatsOfLast(c, rs', r);
      MergeDistributions(StatsOf(c, rs'), Of(c, r));
      var a, b := StatsOf(c, rs').signals, Of(c, r).signals;
      MergeSignalAt(a, b, k);
      MergeTallies(SignalAt(a, k), SignalStream(c, rs', k), SignalAt(b, k),
                   if r.error == Some(Timeout) || r.headers.None? then [] else SignalValues(c.signals, r.headers.value, k));
    }
  }

  /** The last value kept for a signal is the last number the results' headers carried for it, if any did. */
  lemma {:induction false} LastFigures(c: Config, rs: seq<ExecutionResult>, k: string)
    ensures var vs := SignalStream(c, rs, k);
            && (k in LastsAfter(c, rs) <==> vs != [])
            && (vs != [] ==> LastsAfter(c, rs)[k] == vs[|vs|-1])
  {
    if rs != [] {
      LastFigures(c, rs[..|rs|-1], k);
      var r := rs[|rs|-1];
      if r.headers.Some? { LastHitsLast(c.signals, r.headers.value, k); }
      hide LastHits, SignalValues;
    }
  }
}
