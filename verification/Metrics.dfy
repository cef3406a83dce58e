/**
 The per-core collector and the coordinator's aggregate.

 `Stats` is the value both of them hold. A collector adds one result at a time to its
 fields and hands out and clears the whole record on `Snapshot`; an aggregate merges such
 records. The theorems say that how results are spread over cores and reporting windows,
 and the order in which snapshots are merged, never shows in the totals.
 */
module Metrics {
  import opened Wrappers

  // Upper bounds of the two histograms, in nanoseconds and bytes.
  const LATENCY_LIMIT: nat := 60_000_000_000
  const SIZE_LIMIT: nat := 1_073_741_824
  // Delays above this many nanoseconds add a corrected latency to the histogram.
  const CORRECTION_THRESHOLD: nat := 100_000
  const ONE_MS: nat := 1_000_000

  datatype ErrorKind = Timeout | Transport

  /** `number` is what parsing `value` as a float yields. */
  datatype Header = Header(name: string, value: string, number: Option<real>)

  /** `bodyMd5` is the hex digest of the captured body, if a body was captured. */
  datatype ExecutionResult = ExecutionResult(
    intended: nat, sent: nat, actual: nat, dispatched: nat,
    latency: nat, status: Option<nat>, bytesSent: nat, responseSize: nat,
    error: Option<ErrorKind>, headers: Option<seq<Header>>, bodyMd5: Option<string>)

  datatype SignalConfig = SignalConfig(header: string, name: string)
  datatype Config = Config(errorThreshold: nat, tracked: seq<string>, md5Check: bool, signals: seq<SignalConfig>)

  // ---------------------------------------------------------------------------
  // The recorded values
  // ---------------------------------------------------------------------------

  datatype Delay = Delay(sum: nat, max: nat)

  type Peak = r: real | r >= 0.0
  datatype Signal = Signal(sum: real, count: nat, max: Peak)

  datatype Counts = Counts(requests: nat, errors: nat, timeouts: nat, bytesSent: nat, bytesReceived: nat)
  datatype Delays = Delays(lag: Delay, transit: Delay, gap: Delay, total: Delay, over1ms: nat)

  datatype Stats = Stats(
    counts: Counts, delays: Delays, latency: multiset<nat>, sizes: multiset<nat>,
    headers: multiset<(string, string)>, md5Mismatches: nat, signals: map<string, Signal>)

  /** Nothing recorded, field by field. */
  predicate Blank(s: Stats) {
    && NoCounts(s.counts) && NoDelays(s.delays)
    && s.latency == multiset{} && s.sizes == multiset{} && s.headers == multiset{}
    && s.md5Mismatches == 0 && s.signals == map[]
  }

  predicate NoCounts(n: Counts) {
    n.requests == 0 && n.errors == 0 && n.timeouts == 0 && n.bytesSent == 0 && n.bytesReceived == 0
  }

  predicate NoDelays(d: Delays) {
    NoDelay(d.lag) && NoDelay(d.transit) && NoDelay(d.gap) && NoDelay(d.total) && d.over1ms == 0
  }

  predicate NoDelay(d: Delay) { d.sum == 0 && d.max == 0 }

  lemma BlankExists()
    ensures exists z :: Blank(z)
  {
    var none := Delay(0, 0);
    assert Blank(Stats(Counts(0, 0, 0, 0, 0), Delays(none, none, none, none, 0), multiset{}, multiset{}, multiset{}, 0, map[]));
  }

  /** The one record with nothing in it. */
  ghost function Zero(): (z: Stats)
    ensures Blank(z)
  {
    BlankExists();
    var z :| Blank(z);
    z
  }

  lemma BlankIsZero(s: Stats)
    ensures Blank(s) <==> s == Zero()
  {
  }

  function Max(a: nat, b: nat): nat { if a > b then a else b }

  function MergeDelay(a: Delay, b: Delay): Delay {
    Delay(a.sum + b.sum, Max(a.max, b.max))
  }

  function MergeSignal(a: Signal, b: Signal): Signal {
    Signal(a.sum + b.sum, a.count + b.count, if b.max > a.max then b.max else a.max)
  }

  function SignalAt(m: map<string, Signal>, k: string): Signal {
    if k in m then m[k] else Signal(0.0, 0, 0.0)
  }

  function MergeSignals(a: map<string, Signal>, b: map<string, Signal>): map<string, Signal> {
    map k | k in a.Keys + b.Keys :: MergeSignal(SignalAt(a, k), SignalAt(b, k))
  }

  function MergeCounts(a: Counts, b: Counts): Counts {
    Counts(a.requests + b.requests, a.errors + b.errors, a.timeouts + b.timeouts,
           a.bytesSent + b.bytesSent, a.bytesReceived + b.bytesReceived)
  }

  function MergeDelays(a: Delays, b: Delays): Delays {
    Delays(MergeDelay(a.lag, b.lag), MergeDelay(a.transit, b.transit),
           MergeDelay(a.gap, b.gap), MergeDelay(a.total, b.total), a.over1ms + b.over1ms)
  }

  function Merge(a: Stats, b: Stats): Stats {
    Stats(MergeCounts(a.counts, b.counts), MergeDelays(a.delays, b.delays),
          a.latency + b.latency, a.sizes + b.sizes, a.headers + b.headers,
          a.md5Mismatches + b.md5Mismatches, MergeSignals(a.signals, b.signals))
  }

  // ---------------------------------------------------------------------------
  // What one result contributes
  // ---------------------------------------------------------------------------

  function LowerChar(c: char): char {
    if 'A' <= c <= 'Z' then c + 32 as char else c
  }

  function Lower(s: string): string {
    seq(|s|, i requires 0 <= i < |s| => LowerChar(s[i]))
  }

  predicate SameName(a: string, b: string) {
    Lower(a) == Lower(b)
  }

  function Since(later: nat, earlier: nat): nat {
    if later >= earlier then later - earlier else 0
  }

  function Accepted(v: nat, limit: nat): multiset<nat> {
    if v <= limit then multiset{v} else multiset{}
  }

  /** The values that the headers named `t` contribute to the distribution tracked under `t`. */
  function HitsFor(t: string, hs: seq<Header>): multiset<(string, string)> {
    if hs == [] then multiset{}
    else HitsFor(t, hs[..|hs|-1]) +
         (if SameName(hs[|hs|-1].name, t) then multiset{(t, hs[|hs|-1].value)} else multiset{})
  }

  function Hits(tracked: seq<string>, hs: seq<Header>): multiset<(string, string)> {
    if tracked == [] then multiset{}
    else Hits(tracked[..|tracked|-1], hs) + HitsFor(tracked[|tracked|-1], hs)
  }

  function SignalHit(c: SignalConfig, h: Header): map<string, Signal> {
    if SameName(h.name, c.header) && h.number.Some? then
      map[c.name := Signal(h.number.value, 1, if h.number.value > 0.0 then h.number.value else 0.0)]
    else map[]
  }

  function SignalsFor(c: SignalConfig, hs: seq<Header>): map<string, Signal> {
    if hs == [] then map[]
    else MergeSignals(SignalsFor(c, hs[..|hs|-1]), SignalHit(c, hs[|hs|-1]))
  }

  function SignalHits(cs: seq<SignalConfig>, hs: seq<Header>): map<string, Signal> {
    if cs == [] then map[]
    else MergeSignals(SignalHits(cs[..|cs|-1], hs), SignalsFor(cs[|cs|-1], hs))
  }

  function FindMd5(hs: seq<Header>): Option<string> {
    if hs == [] then None
    else if SameName(hs[0].name, "content-md5") then Some(hs[0].value)
    else FindMd5(hs[1..])
  }

  function Md5Mismatch(c: Config, r: ExecutionResult): nat {
    if c.md5Check && r.bodyMd5.Some? && r.headers.Some? && FindMd5(r.headers.value).Some? &&
       !SameName(r.bodyMd5.value, FindMd5(r.headers.value).value)
    then 1 else 0
  }

  predicate IsError(c: Config, r: ExecutionResult) {
    r.error.Some? || (c.errorThreshold > 0 && r.status.Some? && r.status.value >= c.errorThreshold)
  }

  function One(d: nat): Delay { Delay(d, d) }

  function LatencyValues(r: ExecutionResult): multiset<nat> {
    var delay := Since(r.dispatched, r.intended);
    Accepted(Max(r.latency, 1), LATENCY_LIMIT) +
    (if delay > CORRECTION_THRESHOLD then Accepted(Max(r.latency + delay, 1), LATENCY_LIMIT) else multiset{})
  }

  function DelaysOf(r: ExecutionResult): Delays {
    Delays(One(Since(r.sent, r.intended)), One(Since(r.actual, r.sent)),
           One(Since(r.dispatched, r.actual)), One(Since(r.dispatched, r.intended)),
           if Since(r.dispatched, r.intended) > ONE_MS then 1 else 0)
  }

  function SizeValues(r: ExecutionResult): multiset<nat> {
    if r.responseSize > 0 then Accepted(r.responseSize, SIZE_LIMIT) else multiset{}
  }

  function CountsOf(c: Config, r: ExecutionResult): Counts {
    if r.error == Some(Timeout) then Counts(1, 1, 1, r.bytesSent, 0)
    else Counts(1, if IsError(c, r) then 1 else 0, 0, r.bytesSent, r.responseSize)
  }

  function HeadersOf(c: Config, r: ExecutionResult): multiset<(string, string)> {
    if r.headers.Some? then Hits(c.tracked, r.headers.value) else multiset{}
  }

  function SignalsOf(c: Config, r: ExecutionResult): map<string, Signal> {
    if r.headers.Some? then SignalHits(c.signals, r.headers.value) else map[]
  }

  /** A timeout is counted, but leaves no trace in the histograms, delays or headers. */
  ghost function Of(c: Config, r: ExecutionResult): Stats {
    if r.error == Some(Timeout) then Zero().(counts := CountsOf(c, r))
    else Stats(CountsOf(c, r), DelaysOf(r), LatencyValues(r), SizeValues(r),
               HeadersOf(c, r), Md5Mismatch(c, r), SignalsOf(c, r))
  }

  /** What one collector holds after recording `rs` since its last snapshot. */
  ghost function StatsOf(c: Config, rs: seq<ExecutionResult>): Stats {
    if rs == [] then Zero() else Merge(StatsOf(c, rs[..|rs|-1]), Of(c, rs[|rs|-1]))
  }

  /** What an aggregate holds after merging `ss` in this order since its last reset. */
  ghost function MergeAll(ss: seq<Stats>): Stats {
    if ss == [] then Zero() else Merge(MergeAll(ss[..|ss|-1]), ss[|ss|-1])
  }

  // ---------------------------------------------------------------------------
  // Merge is a commutative monoid
  // ---------------------------------------------------------------------------

  lemma MergeCommutes(a: Stats, b: Stats)
    ensures Merge(a, b) == Merge(b, a)
  {
    assert MergeSignals(a.signals, b.signals) == MergeSignals(b.signals, a.signals);
  }

  lemma MergeSignalAt(a: map<string, Signal>, b: map<string, Signal>, k: string)
    ensures SignalAt(MergeSignals(a, b), k) == MergeSignal(SignalAt(a, k), SignalAt(b, k))
  {
  }

  lemma MergeSignalAssociates(x: Signal, y: Signal, z: Signal)
    ensures MergeSignal(MergeSignal(x, y), z) == MergeSignal(x, MergeSignal(y, z))
  {
  }

  lemma MergeSignalsAssociates(a: map<string, Signal>, b: map<string, Signal>, c: map<string, Signal>)
    ensures MergeSignals(MergeSignals(a, b), c) == MergeSignals(a, MergeSignals(b, c))
  {
    var l, r := MergeSignals(MergeSignals(a, b), c), MergeSignals(a, MergeSignals(b, c));
    forall k | k in l.Keys ensures l[k] == r[k] {
      MergeSignalAt(a, b, k);
      MergeSignalAt(b, c, k);
      MergeSignalAssociates(SignalAt(a, k), SignalAt(b, k), SignalAt(c, k));
    }
  }

  lemma MergeAssociates(a: Stats, b: Stats, c: Stats)
    ensures Merge(Merge(a, b), c) == Merge(a, Merge(b, c))
  {
    MergeSignalsAssociates(a.signals, b.signals, c.signals);
  }

  lemma NoSignals(m: map<string, Signal>)
    ensures MergeSignals(m, map[]) == m
  {
  }

  lemma ZeroIsIdentity(a: Stats)
    ensures Merge(Zero(), a) == a && Merge(a, Zero()) == a
  {
    assert MergeSignals(map[], a.signals) == a.signals;
    assert MergeSignals(a.signals, map[]) == a.signals;
  }

  // ---------------------------------------------------------------------------
  // Sharding: cores, windows and merge order do not matter
  // ---------------------------------------------------------------------------

  lemma StatsOfNone(c: Config)
    ensures StatsOf(c, []) == Zero()
  {
  }

  lemma StatsOfLast(c: Config, rs: seq<ExecutionResult>, r: ExecutionResult)
    ensures StatsOf(c, rs + [r]) == Merge(StatsOf(c, rs), Of(c, r))
  {
    hide Merge, Of;
    assert (rs + [r])[..|rs + [r]|-1] == rs;
  }

  lemma OfParts(c: Config, r: ExecutionResult)
    ensures Of(c, r).counts == CountsOf(c, r)
    ensures if r.error == Some(Timeout) then NoDelays(Of(c, r).delays) else Of(c, r).delays == DelaysOf(r)
  {
    hide CountsOf, DelaysOf, LatencyValues, SizeValues, HeadersOf, SignalsOf, Md5Mismatch;
  }

  lemma MergeParts(a: Stats, b: Stats)
    ensures Merge(a, b).counts == MergeCounts(a.counts, b.counts)
    ensures Merge(a, b).delays == MergeDelays(a.delays, b.delays)
  {
    hide MergeCounts, MergeDelays, MergeSignals;
  }

  lemma LastRecorded(c: Config, rs: seq<ExecutionResult>, r: ExecutionResult)
    ensures StatsOf(c, rs + [r]).counts == MergeCounts(StatsOf(c, rs).counts, Of(c, r).counts)
    ensures StatsOf(c, rs + [r]).delays == MergeDelays(StatsOf(c, rs).delays, Of(c, r).delays)
  {
    hide *;
    StatsOfLast(c, rs, r);
    MergeParts(StatsOf(c, rs), Of(c, r));
  }

  lemma NothingRecorded(c: Config)
    ensures NoCounts(StatsOf(c, []).counts) && NoDelays(StatsOf(c, []).delays)
  {
    StatsOfNone(c);
  }

  lemma {:induction false} StatsOfConcat(c: Config, a: seq<ExecutionResult>, b: seq<ExecutionResult>)
    ensures StatsOf(c, a + b) == Merge(StatsOf(c, a), StatsOf(c, b))
  {
    hide Merge, Of, StatsOf;
    if b == [] {
      assert a + b == a;
      StatsOfNone(c);
      ZeroIsIdentity(StatsOf(c, a));
    } else {
      var b', r := b[..|b|-1], b[|b|-1];
      assert a + b == a + b' + [r] && b == b' + [r];
      StatsOfConcat(c, a, b');
      StatsOfLast(c, a + b', r);
      StatsOfLast(c, b', r);
      MergeAssociates(StatsOf(c, a), StatsOf(c, b'), Of(c, r));
    }
  }

  /** The recorded totals depend only on which results were recorded, not on their order. */
  lemma {:induction false} StatsOfPermutation(c: Config, a: seq<ExecutionResult>, b: seq<ExecutionResult>)
    requires multiset(a) == multiset(b)
    ensures StatsOf(c, a) == StatsOf(c, b)
    decreases |a|
  {
    hide Merge, Of, StatsOf;
    if a == [] {
      assert |multiset(b)| == 0;
    } else {
      var r := a[|a|-1];
      assert a == a[..|a|-1] + [r];
      assert r in multiset(b);
      var i :| 0 <= i < |b| && b[i] == r;
      var rest := b[..i] + b[i+1..];
      assert b == b[..i] + [r] + b[i+1..];
      assert multiset(a[..|a|-1]) == multiset(a) - multiset{r};
      assert multiset(rest) == multiset(b) - multiset{r};
      StatsOfPermutation(c, a[..|a|-1], rest);
      StatsOfLast(c, a[..|a|-1], r);
      MoveLast(c, b[..i], r, b[i+1..]);
    }
  }

  lemma MoveLast(c: Config, x: seq<ExecutionResult>, r: ExecutionResult, y: seq<ExecutionResult>)
    ensures StatsOf(c, x + [r] + y) == Merge(StatsOf(c, x + y), Of(c, r))
  {
    hide Merge, Of, StatsOf;
    var sx, sr, sy := StatsOf(c, x), Of(c, r), StatsOf(c, y);
    StatsOfLast(c, x, r);
    StatsOfConcat(c, x + [r], y);
    StatsOfConcat(c, x, y);
    MergeAssociates(sx, sr, sy);
    MergeCommutes(sr, sy);
    MergeAssociates(sx, sy, sr);
  }

  function Flatten<T>(ws: seq<seq<T>>): seq<T> {
    if ws == [] then [] else Flatten(ws[..|ws|-1]) + ws[|ws|-1]
  }

  ghost function Snapshots(c: Config, ws: seq<seq<ExecutionResult>>): seq<Stats> {
    if ws == [] then [] else Snapshots(c, ws[..|ws|-1]) + [StatsOf(c, ws[|ws|-1])]
  }

  /** Each window's snapshot is what one collector holds after that window. */
  lemma {:induction false} SnapshotsAt(c: Config, ws: seq<seq<ExecutionResult>>, i: nat)
    requires i < |ws|
    ensures |Snapshots(c, ws)| == |ws| && Snapshots(c, ws)[i] == StatsOf(c, ws[i])
  {
    hide StatsOf;
    if |ws| > 1 { SnapshotsAt(c, ws[..|ws|-1], if i < |ws| - 1 then i else 0); }
  }

  /**
   Split the results `all` in any way into windows, over any number of cores, and merge the
   windows' snapshots in any order: the aggregate is what one collector recording `all` in
   one window would have reported.
   */
  lemma {:induction false} ShardingInvisible(c: Config, ws: seq<seq<ExecutionResult>>, all: seq<ExecutionResult>)
    requires multiset(all) == multiset(Flatten(ws))
    ensures MergeAll(Snapshots(c, ws)) == StatsOf(c, all)
  {
    MergeAllFlatten(c, ws);
    StatsOfPermutation(c, Flatten(ws), all);
  }

  lemma MergeAllLast(ss: seq<Stats>, x: Stats)
    ensures MergeAll(ss + [x]) == Merge(MergeAll(ss), x)
  {
    hide Merge;
    assert (ss + [x])[..|ss + [x]|-1] == ss;
  }

  lemma {:induction false} MergeAllFlatten(c: Config, ws: seq<seq<ExecutionResult>>)
    ensures MergeAll(Snapshots(c, ws)) == StatsOf(c, Flatten(ws))
  {
    hide Merge, StatsOf;
    if ws == [] {
      StatsOfNone(c);
    } else {
      var ws', w := ws[..|ws|-1], ws[|ws|-1];
      MergeAllLast(Snapshots(c, ws'), StatsOf(c, w));
      MergeAllFlatten(c, ws');
      StatsOfConcat(c, Flatten(ws'), w);
    }
  }

  // ---------------------------------------------------------------------------
  // Delay decomposition and reported means
  // ---------------------------------------------------------------------------

  predicate Forward(r: ExecutionResult) {
    r.intended <= r.sent <= r.actual <= r.dispatched
  }

  predicate Backward(r: ExecutionResult) {
    r.intended >= r.sent >= r.actual >= r.dispatched
  }

  predicate Decomposes(r: ExecutionResult) {
    r.error == Some(Timeout) || Forward(r) || Backward(r)
  }

  function Excess(d: Delays): int {
    d.lag.sum + d.transit.sum + d.gap.sum - d.total.sum
  }

  lemma ExcessOf(r: ExecutionResult)
    ensures Excess(DelaysOf(r)) >= 0
    ensures Excess(DelaysOf(r)) == 0 <==> Forward(r) || Backward(r)
  {
  }

  /**
   The three delay components never sum to less than the total delay, and they sum to it
   exactly when every recorded result's four instants are in order, one way or the other.
   */
  lemma {:induction false} DelayDecomposition(c: Config, rs: seq<ExecutionResult>)
    ensures var d := StatsOf(c, rs).delays; d.lag.sum + d.transit.sum + d.gap.sum >= d.total.sum
    ensures var d := StatsOf(c, rs).delays;
            d.lag.sum + d.transit.sum + d.gap.sum == d.total.sum <==> forall r :: r in rs ==> Decomposes(r)
  {
    ExcessFold(c, rs);
    ExcessTotalZero(rs);
  }

  function ExcessTotal(rs: seq<ExecutionResult>): int {
    if rs == [] then 0
    else ExcessTotal(rs[..|rs|-1]) +
         if rs[|rs|-1].error == Some(Timeout) then 0 else Excess(DelaysOf(rs[|rs|-1]))
  }

  lemma NoExcess(d: Delays)
    ensures ExcessTotal([]) == 0 && (NoDelays(d) ==> Excess(d) == 0)
  {
  }

  lemma ExcessMerge(a: Delays, b: Delays)
    ensures Excess(MergeDelays(a, b)) == Excess(a) + Excess(b)
  {
  }

  lemma ExcessLast(rs: seq<ExecutionResult>, r: ExecutionResult)
    ensures ExcessTotal(rs + [r]) == ExcessTotal(rs) + if r.error == Some(Timeout) then 0 else Excess(DelaysOf(r))
  {
    hide Excess, DelaysOf;
    assert (rs + [r])[..|rs + [r]|-1] == rs;
  }

  lemma {:induction false} ExcessFold(c: Config, rs: seq<ExecutionResult>)
    ensures Excess(StatsOf(c, rs).delays) == ExcessTotal(rs)
  {
    hide *;
    if rs == [] {
      NothingRecorded(c);
      NoExcess(StatsOf(c, []).delays);
    } else {
      var rs', x := rs[..|rs|-1], rs[|rs|-1];
      ExcessFold(c, rs');
      assert rs == rs' + [x];
      LastRecorded(c, rs', x);
      ExcessLast(rs', x);
      ExcessMerge(StatsOf(c, rs').delays, Of(c, x).delays);
      OfParts(c, x);
      NoExcess(Of(c, x).delays);
    }
  }

  lemma {:induction false} ExcessTotalZero(rs: seq<ExecutionResult>)
    ensures ExcessTotal(rs) >= 0
    ensures ExcessTotal(rs) == 0 <==> forall r :: r in rs ==> Decomposes(r)
  {
    if rs != [] {
      var rs', r := rs[..|rs|-1], rs[|rs|-1];
      ExcessTotalZero(rs');
      ExcessOf(r);
      assert rs == rs' + [r];
      assert r in rs && forall x :: x in rs' ==> x in rs;
      if ExcessTotal(rs) == 0 {
        assert Decomposes(r) && ExcessTotal(rs') == 0;
        forall x | x in rs ensures Decomposes(x) {
          assert x in rs' || x == r;
        }
      }
    }
  }

  /** `sum / total_requests`, as the saturation report computes every mean. */
  function Mean(sum: nat, requests: nat): nat {
    if requests > 0 then sum / requests else 0
  }

  /** A mean is the sum over the requests rounded down, and zero for no requests. */
  lemma MeanExactly(sum: nat, requests: nat)
    ensures requests == 0 ==> Mean(sum, requests) == 0
    ensures requests > 0 ==> Mean(sum, requests) * requests <= sum < Mean(sum, requests) * requests + requests
  {
  }

  predicate Bounded(d: Delay, n: nat) { d.sum <= d.max * n }

  lemma MergeBounded(a: Delay, b: Delay, m: nat, n: nat)
    requires Bounded(a, m) && Bounded(b, n)
    ensures Bounded(MergeDelay(a, b), m + n)
  {
    var x := Max(a.max, b.max);
    assert a.max * m <= x * m;
    assert b.max * n <= x * n;
    assert x * (m + n) == x * m + x * n;
  }

  lemma MulMonotone(a: nat, b: nat, n: nat)
    requires a <= b
    ensures a * n <= b * n
  {
  }

  lemma MeanBounded(d: Delay, n: nat)
    requires Bounded(d, n)
    ensures Mean(d.sum, n) <= d.max
  {
    if n > 0 {
      var q := d.sum / n;
      assert q * n <= d.max * n;
      assert q <= d.max by {
        if q >= d.max + 1 { MulMonotone(d.max + 1, q, n); assert false; }
      }
    }
  }

  predicate AllBounded(d: Delays, n: nat) {
    Bounded(d.lag, n) && Bounded(d.transit, n) && Bounded(d.gap, n) && Bounded(d.total, n)
  }

  lemma OneBounded(c: Config, r: ExecutionResult)
    ensures AllBounded(Of(c, r).delays, 1)
  {
    OfParts(c, r);
    hide Of;
  }

  lemma AllMergeBounded(a: Delays, b: Delays, m: nat, n: nat)
    requires AllBounded(a, m) && AllBounded(b, n)
    ensures AllBounded(MergeDelays(a, b), m + n)
  {
    hide Bounded, MergeDelay;
    MergeBounded(a.lag, b.lag, m, n);
    MergeBounded(a.transit, b.transit, m, n);
    MergeBounded(a.gap, b.gap, m, n);
    MergeBounded(a.total, b.total, m, n);
  }

  lemma {:induction false} DelaysBounded(c: Config, rs: seq<ExecutionResult>)
    ensures AllBounded(StatsOf(c, rs).delays, |rs|)
  {
    if rs == [] {
      NothingRecorded(c);
      hide StatsOf;
    } else {
      hide *;
      var rs', x := rs[..|rs|-1], rs[|rs|-1];
      DelaysBounded(c, rs');
      assert rs == rs' + [x];
      LastRecorded(c, rs', x);
      OneBounded(c, x);
      AllMergeBounded(StatsOf(c, rs').delays, Of(c, x).delays, |rs'|, 1);
    }
  }

  lemma OneCounted(c: Config, a: Counts, d: Delays, r: ExecutionResult)
    ensures var n, m := MergeCounts(a, Of(c, r).counts), MergeDelays(d, Of(c, r).delays);
            && n.requests == a.requests + 1
            && a.timeouts <= n.timeouts && n.timeouts - a.timeouts <= n.errors - a.errors <= 1
            && m.over1ms - d.over1ms <= 1 - (n.timeouts - a.timeouts)
  {
    OfParts(c, r);
    hide Of;
  }

  /** Every request is counted once; errors include every timeout and never exceed requests. */
  lemma {:induction false} CountersOrdered(c: Config, rs: seq<ExecutionResult>)
    ensures var s := StatsOf(c, rs);
            && s.counts.requests == |rs| && s.counts.timeouts <= s.counts.errors <= s.counts.requests
            && s.delays.over1ms <= s.counts.requests - s.counts.timeouts
  {
    if rs == [] {
      NothingRecorded(c);
      hide StatsOf;
    } else {
      hide *;
      var rs', x := rs[..|rs|-1], rs[|rs|-1];
      CountersOrdered(c, rs');
      assert rs == rs' + [x];
      LastRecorded(c, rs', x);
      OneCounted(c, StatsOf(c, rs').counts, StatsOf(c, rs').delays, x);
    }
  }

  /** Timeouts count as requests but record no delay; still no reported mean exceeds its maximum. */
  lemma MeansBelowMaxima(c: Config, rs: seq<ExecutionResult>)
    ensures var d, n := StatsOf(c, rs).delays, StatsOf(c, rs).counts.requests;
            && Mean(d.lag.sum, n) <= d.lag.max && Mean(d.transit.sum, n) <= d.transit.max
            && Mean(d.gap.sum, n) <= d.gap.max && Mean(d.total.sum, n) <= d.total.max
  {
    hide StatsOf, Mean;
    var d := StatsOf(c, rs).delays;
    CountersOrdered(c, rs);
    DelaysBounded(c, rs);
    MeanBounded(d.lag, |rs|);
    MeanBounded(d.transit, |rs|);
    MeanBounded(d.gap, |rs|);
    MeanBounded(d.total, |rs|);
  }

  // ---------------------------------------------------------------------------
  // Header-value distribution
  // ---------------------------------------------------------------------------

  function Occurrences(t: string, ts: seq<string>): nat {
    if ts == [] then 0 else Occurrences(t, ts[..|ts|-1]) + if ts[|ts|-1] == t then 1 else 0
  }

  function Matching(t: string, v: string, hs: seq<Header>): nat {
    if hs == [] then 0
    else Matching(t, v, hs[..|hs|-1]) +
         (if SameName(hs[|hs|-1].name, t) && hs[|hs|-1].value == v then 1 else 0)
  }

  lemma {:induction false} HitsForCount(t: string, hs: seq<Header>, u: string, v: string)
    ensures HitsFor(t, hs)[(u, v)] == if u == t then Matching(t, v, hs) else 0
  {
    if hs != [] {
      HitsForCount(t, hs[..|hs|-1], u, v);
    }
  }

  /**
   A header value is counted once per matching header and per time its name is listed as
   tracked, names compared without regard to case.
   */
  lemma {:induction false} HitsCount(tracked: seq<string>, hs: seq<Header>, u: string, v: string)
    ensures Hits(tracked, hs)[(u, v)] == Occurrences(u, tracked) * Matching(u, v, hs)
  {
    if tracked != [] {
      var ts, t := tracked[..|tracked|-1], tracked[|tracked|-1];
      HitsCount(ts, hs, u, v);
      HitsForCount(t, hs, u, v);
      hide HitsFor, Matching;
      Successor(Occurrences(u, ts), Matching(u, v, hs));
    }
  }

  lemma Successor(n: nat, m: nat)
    ensures (n + 1) * m == n * m + m
  {
  }

  // ---------------------------------------------------------------------------
  // Numeric signals
  // ---------------------------------------------------------------------------

  /** The numbers that signal `k` takes from the headers `hs`, in the order they are read. */
  function SignalValues(cs: seq<SignalConfig>, hs: seq<Header>, k: string): seq<real> {
    if cs == [] then []
    else SignalValues(cs[..|cs|-1], hs, k) + if cs[|cs|-1].name == k then NumbersOf(cs[|cs|-1], hs) else []
  }

  function NumbersOf(c: SignalConfig, hs: seq<Header>): seq<real> {
    if hs == [] then []
    else NumbersOf(c, hs[..|hs|-1]) +
         if SameName(hs[|hs|-1].name, c.header) && hs[|hs|-1].number.Some? then [hs[|hs|-1].number.value] else []
  }

  function Sum(vs: seq<real>): real {
    if vs == [] then 0.0 else Sum(vs[..|vs|-1]) + vs[|vs|-1]
  }

  /** `m` is the largest of `vs`, or zero if none is positive. */
  predicate IsPeak(m: real, vs: seq<real>) {
    && (forall v :: v in vs ==> v <= m)
    && m >= 0.0 && (m > 0.0 ==> m in vs)
  }

  predicate Tallies(x: Signal, vs: seq<real>) {
    x.count == |vs| && x.sum == Sum(vs) && IsPeak(x.max, vs)
  }

  lemma {:induction false} SumConcat(a: seq<real>, b: seq<real>)
    ensures Sum(a + b) == Sum(a) + Sum(b)
  {
    if b == [] {
      assert a + b == a;
    } else {
      assert (a + b)[..|a + b|-1] == a + b[..|b|-1];
      SumConcat(a, b[..|b|-1]);
    }
  }

  lemma MergeTallies(x: Signal, a: seq<real>, y: Signal, b: seq<real>)
    requires Tallies(x, a) && Tallies(y, b)
    ensures Tallies(MergeSignal(x, y), a + b)
  {
    SumConcat(a, b);
    hide Sum;
  }

  lemma OneTally(c: SignalConfig, h: Header, k: string)
    ensures Tallies(SignalAt(SignalHit(c, h), k), if c.name == k then NumbersOf(c, [h]) else [])
  {
    assert [h][..0] == [] && NumbersOf(c, []) == [];
    if SameName(h.name, c.header) && h.number.Some? {
      assert [h.number.value][..0] == [] && Sum([h.number.value]) == h.number.value;
    }
    hide SameName;
  }

  lemma {:induction false} SignalsForTally(c: SignalConfig, hs: seq<Header>, k: string)
    ensures Tallies(SignalAt(SignalsFor(c, hs), k), if c.name == k then NumbersOf(c, hs) else [])
  {
    if hs != [] {
      var hs', h := hs[..|hs|-1], hs[|hs|-1];
      SignalsForTally(c, hs', k);
      OneTally(c, h, k);
      assert [h][..0] == [] && NumbersOf(c, hs) == NumbersOf(c, hs') + NumbersOf(c, [h]);
      hide Tallies, MergeSignal, SignalAt, MergeSignals, SignalHit, NumbersOf;
      MergeSignalAt(SignalsFor(c, hs'), SignalHit(c, h), k);
      MergeTallies(SignalAt(SignalsFor(c, hs'), k), if c.name == k then NumbersOf(c, hs') else [],
                   SignalAt(SignalHit(c, h), k), if c.name == k then NumbersOf(c, [h]) else []);
      var none: seq<real> := [];
      assert none + none == none;
    }
  }

  /**
   For each name, a result's headers give the signal's count, sum and maximum over exactly the
   numeric values of the headers that the configurations of that name select.
   */
  lemma {:induction false} SignalHitsTally(cs: seq<SignalConfig>, hs: seq<Header>, k: string)
    ensures Tallies(SignalAt(SignalHits(cs, hs), k), SignalValues(cs, hs, k))
  {
    if cs != [] {
      var cs', c := cs[..|cs|-1], cs[|cs|-1];
      SignalHitsTally(cs', hs, k);
      SignalsForTally(c, hs, k);
      hide Tallies, MergeSignal, SignalAt, MergeSignals, SignalsFor, NumbersOf;
      MergeSignalAt(SignalHits(cs', hs), SignalsFor(c, hs), k);
      MergeTallies(SignalAt(SignalHits(cs', hs), k), SignalValues(cs', hs, k),
                   SignalAt(SignalsFor(c, hs), k), if c.name == k then NumbersOf(c, hs) else []);
    }
  }

  // The last value read for each name; unlike the rest it depends on the order of recording.

  /** `b` recorded after `a`: its values replace those of `a`. */
  function Later(a: map<string, real>, b: map<string, real>): map<string, real> { a + b }

  lemma LaterAssociates(a: map<string, real>, b: map<string, real>, c: map<string, real>)
    ensures Later(Later(a, b), c) == Later(a, Later(b, c))
  {
  }

  function LastHit(c: SignalConfig, h: Header): map<string, real> {
    if SameName(h.name, c.header) && h.number.Some? then map[c.name := h.number.value] else map[]
  }

  function LastsFor(c: SignalConfig, hs: seq<Header>): map<string, real> {
    if hs == [] then map[] else Later(LastsFor(c, hs[..|hs|-1]), LastHit(c, hs[|hs|-1]))
  }

  function LastHits(cs: seq<SignalConfig>, hs: seq<Header>): map<string, real> {
    if cs == [] then map[] else Later(LastHits(cs[..|cs|-1], hs), LastsFor(cs[|cs|-1], hs))
  }

  function LastsOf(c: Config, r: ExecutionResult): map<string, real> {
    if r.error == Some(Timeout) || r.headers.None? then map[] else LastHits(c.signals, r.headers.value)
  }

  function LastsAfter(c: Config, rs: seq<ExecutionResult>): map<string, real> {
    if rs == [] then map[] else Later(LastsAfter(c, rs[..|rs|-1]), LastsOf(c, rs[|rs|-1]))
  }

  lemma {:induction false} LastsAfterConcat(c: Config, a: seq<ExecutionResult>, b: seq<ExecutionResult>)
    ensures LastsAfter(c, a + b) == Later(LastsAfter(c, a), LastsAfter(c, b))
  {
    if b == [] {
      assert a + b == a;
    } else {
      hide LastsOf, Later;
      assert (a + b)[..|a + b|-1] == a + b[..|b|-1];
      LastsAfterConcat(c, a, b[..|b|-1]);
      LaterAssociates(LastsAfter(c, a), LastsAfter(c, b[..|b|-1]), LastsOf(c, b[|b|-1]));
    }
  }

  lemma {:induction false} LastOfNumbers(c: SignalConfig, hs: seq<Header>)
    ensures var vs := NumbersOf(c, hs);
            LastsFor(c, hs) == if vs == [] then map[] else map[c.name := vs[|vs|-1]]
  {
    if hs != [] { LastOfNumbers(c, hs[..|hs|-1]); }
  }

  /** The last value kept for a name is the last number read for it, if any was. */
  lemma {:induction false} LastHitsLast(cs: seq<SignalConfig>, hs: seq<Header>, k: string)
    ensures var vs := SignalValues(cs, hs, k);
            && (k in LastHits(cs, hs) <==> vs != [])
            && (vs != [] ==> LastHits(cs, hs)[k] == vs[|vs|-1])
  {
    if cs != [] {
      LastHitsLast(cs[..|cs|-1], hs, k);
      LastOfNumbers(cs[|cs|-1], hs);
      hide NumbersOf, LastsFor;
    }
  }
}
