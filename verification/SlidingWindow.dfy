/**
 The coordinator's sliding window of per-tick counters, kept as five parallel queues, and the
 smoothed request rate read from it. Times are nanoseconds.
 */
module SlidingWindow {

  datatype Tick = Tick(time: int, requests: nat, errors: nat, sent: nat, received: nat)

  const SECOND: real := 1_000_000_000.0

  function Seconds(nanos: int): real { nanos as real / SECOND }

  function Max(a: real, b: real): real { if a > b then a else b }

  /** The ticks of `h` no older than `cutoff`, in order. */
  function Recent(h: seq<Tick>, cutoff: int): seq<Tick> {
    if h == [] then []
    else Recent(h[..|h|-1], cutoff) + if h[|h|-1].time >= cutoff then [h[|h|-1]] else []
  }

  /** What the window holds after the pushes `h`: those within `span` of the last one. */
  function Held(h: seq<Tick>, span: nat): seq<Tick> {
    if h == [] then [] else Recent(h, h[|h|-1].time - span)
  }

  predicate Ordered(h: seq<Tick>) {
    forall i, j :: 0 <= i < j < |h| ==> h[i].time <= h[j].time
  }

  // ---------------------------------------------------------------------------
  // Filtering
  // ---------------------------------------------------------------------------

  lemma RecentAppend(h: seq<Tick>, x: Tick, cutoff: int)
    ensures Recent(h + [x], cutoff) == Recent(h, cutoff) + if x.time >= cutoff then [x] else []
  {
    assert (h + [x])[..|h + [x]|-1] == h;
  }

  lemma {:induction false} RecentTwice(h: seq<Tick>, c: int, d: int)
    requires c <= d
    ensures Recent(Recent(h, c), d) == Recent(h, d)
  {
    if h != [] {
      var h', x := h[..|h|-1], h[|h|-1];
      RecentTwice(h', c, d);
      if x.time >= c {
        RecentAppend(Recent(h', c), x, d);
      } else {
        assert Recent(h, c) == Recent(h', c) && Recent(h, d) == Recent(h', d);
      }
    }
  }

  lemma {:induction false} RecentConcat(a: seq<Tick>, b: seq<Tick>, cutoff: int)
    ensures Recent(a + b, cutoff) == Recent(a, cutoff) + Recent(b, cutoff)
  {
    if b == [] {
      assert a + b == a;
    } else {
      var b', x := b[..|b|-1], b[|b|-1];
      RecentConcat(a, b', cutoff);
      RecentAppend(a + b', x, cutoff);
      assert a + b == a + b' + [x];
    }
  }

  lemma {:induction false} RecentNone(h: seq<Tick>, cutoff: int)
    requires forall i :: 0 <= i < |h| ==> h[i].time < cutoff
    ensures Recent(h, cutoff) == []
  {
    if h != [] { RecentNone(h[..|h|-1], cutoff); }
  }

  lemma {:induction false} RecentAll(h: seq<Tick>, cutoff: int)
    requires forall i :: 0 <= i < |h| ==> h[i].time >= cutoff
    ensures Recent(h, cutoff) == h
  {
    if h != [] { RecentAll(h[..|h|-1], cutoff); }
  }

  /** In time order, filtering drops a prefix. */
  lemma RecentIsSuffix(h: seq<Tick>, cutoff: int, k: nat)
    requires k <= |h| && (forall i :: 0 <= i < k ==> h[i].time < cutoff)
    requires Ordered(h) && (k < |h| ==> h[k].time >= cutoff)
    ensures Recent(h, cutoff) == h[k..]
  {
    hide Recent;
    assert h == h[..k] + h[k..];
    RecentConcat(h[..k], h[k..], cutoff);
    RecentNone(h[..k], cutoff);
    RecentAll(h[k..], cutoff);
  }

  lemma HeldRecent(h: seq<Tick>, span: nat, cutoff: int)
    requires h != [] ==> h[|h|-1].time - span <= cutoff
    ensures Recent(Held(h, span), cutoff) == Recent(h, cutoff)
  {
    if h != [] {
      RecentTwice(h, h[|h|-1].time - span, cutoff);
    }
  }

  lemma HeldLast(h: seq<Tick>, x: Tick, span: nat)
    ensures Held(h + [x], span) == Recent(h + [x], x.time - span)
  {
    hide Recent;
    assert (h + [x])[|h|] == x;
  }

  /** What the push of `x` adds to and removes from the window. */
  lemma HeldPush(h: seq<Tick>, x: Tick, span: nat)
    requires h != [] ==> h[|h|-1].time <= x.time
    ensures Recent(Held(h, span) + [x], x.time - span) == Held(h + [x], span)
  {
    hide Recent, Held;
    var cutoff := x.time - span;
    HeldRecent(h, span, cutoff);
    HeldLast(h, x, span);
    RecentAppend(Held(h, span), x, cutoff);
    RecentAppend(h, x, cutoff);
  }

  /** In time order the window is a run of consecutive ticks up to the last. */
  lemma HeldIsSuffix(h: seq<Tick>, span: nat) returns (k: nat)
    requires Ordered(h)
    ensures k <= |h| && Held(h, span) == h[k..]
  {
    if h == [] { return 0; }
    var cutoff := h[|h|-1].time - span;
    k := 0;
    while k < |h| && h[k].time < cutoff
      invariant k <= |h| && forall i :: 0 <= i < k ==> h[i].time < cutoff
    {
      k := k + 1;
    }
    RecentIsSuffix(h, cutoff, k);
  }

  lemma OrderedPush(h: seq<Tick>, x: Tick, span: nat)
    requires Ordered(h) && (h != [] ==> h[|h|-1].time <= x.time)
    ensures Ordered(h + [x]) && Ordered(Held(h, span) + [x])
  {
    var k := HeldIsSuffix(h, span);
    hide Held;
  }

  // ---------------------------------------------------------------------------
  // The window
  // ---------------------------------------------------------------------------

  predicate Columns(ts: seq<Tick>, times: seq<int>, requests: seq<nat>, errors: seq<nat>, sent: seq<nat>, received: seq<nat>) {
    && |times| == |ts| && |requests| == |ts| && |errors| == |ts| && |sent| == |ts| && |received| == |ts|
    && forall i :: 0 <= i < |ts| ==> ts[i] == Tick(times[i], requests[i], errors[i], sent[i], received[i])
  }

  lemma ColumnsTail(ts: seq<Tick>, times: seq<int>, requests: seq<nat>, errors: seq<nat>, sent: seq<nat>, received: seq<nat>)
    requires Columns(ts, times, requests, errors, sent, received) && times != []
    ensures ts[0].time == times[0] && Columns(ts[1..], times[1..], requests[1..], errors[1..], sent[1..], received[1..])
  {
  }

  class Window {
    var times: seq<int>
    var requests: seq<nat>
    var errors: seq<nat>
    var sent: seq<nat>
    var received: seq<nat>
    const span: nat
    ghost var history: seq<Tick>

    constructor (span: nat)
      ensures Valid() && this.span == span && history == []
    {
      times, requests, errors, sent, received := [], [], [], [], [];
      this.span := span;
      history := [];
    }

    /** The five queues are the columns of the pushes still within the window. */
    ghost predicate Valid()
      reads this
    {
      Ordered(history) && Columns(Held(history, span), times, requests, errors, sent, received)
    }

    method Push(t: Tick)
      requires Valid() && (history != [] ==> history[|history|-1].time <= t.time)
      modifies this
      ensures Valid() && history == old(history) + [t]
    {
      times := times + [t.time];
      requests := requests + [t.requests];
      errors := errors + [t.errors];
      sent := sent + [t.sent];
      received := received + [t.received];
      ghost var entries := Held(history, span) + [t];
      OrderedPush(history, t, span);
      HeldPush(history, t, span);
      history := history + [t];
      hide Held, Ordered, Recent;
      Evict(t.time, entries);
    }

    method Evict(now: int, ghost entries: seq<Tick>)
      requires Ordered(entries) && Columns(entries, times, requests, errors, sent, received)
      modifies `times, `requests, `errors, `sent, `received
      ensures Columns(Recent(entries, now - span), times, requests, errors, sent, received)
    {
      var cutoff := now - span;
      ghost var k := 0;
      while times != [] && times[0] < cutoff
        invariant 0 <= k <= |entries| && (forall i :: 0 <= i < k ==> entries[i].time < cutoff)
        invariant Columns(entries[k..], times, requests, errors, sent, received)
        decreases |times|
      {
        ColumnsTail(entries[k..], times, requests, errors, sent, received);
        assert entries[k..][1..] == entries[k + 1..];
        times, requests, errors, sent, received := times[1..], requests[1..], errors[1..], sent[1..], received[1..];
        k := k + 1;
      }
      assert k < |entries| ==> entries[k..][0] == entries[k];
      RecentIsSuffix(entries, cutoff, k);
    }

    /** Requests per second over the window; the first entry's count predates the measured span. */
    method RequestRate() returns (rate: real)
      requires Valid()
      ensures rate == Rate(Held(history, span), span)
    {
      if |times| < 2 {
        rate := (if requests == [] then 0 else requests[|requests|-1]) as real / Max(Seconds(span), 0.001);
      } else {
        var elapsed := if times[|times|-1] >= times[0] then times[|times|-1] - times[0] else 0;
        var total := 0;
        ghost var ts := Held(history, span);
        for i := 1 to |requests|
          invariant total == Requests(ts[1..i])
        {
          total := total + requests[i];
          assert ts[1..i+1][..i-1] == ts[1..i];
        }
        assert ts[1..|ts|] == ts[1..];
        rate := total as real / Max(Seconds(elapsed), 0.001);
      }
    }
  }

  function Requests(ts: seq<Tick>): nat {
    if ts == [] then 0 else Requests(ts[..|ts|-1]) + ts[|ts|-1].requests
  }

  function Elapsed(ts: seq<Tick>): int
    requires ts != []
  {
    if ts[|ts|-1].time >= ts[0].time then ts[|ts|-1].time - ts[0].time else 0
  }

  function Rate(ts: seq<Tick>, span: nat): real {
    if |ts| < 2 then
      (if ts == [] then 0 else ts[|ts|-1].requests) as real / Max(Seconds(span), 0.001)
    else
      Requests(ts[1..]) as real / Max(Seconds(Elapsed(ts)), 0.001)
  }

  /** Requests per second over `nanos`, but over no less than a millisecond. */
  predicate IsRate(rate: real, requests: nat, nanos: int) {
    if nanos <= 1_000_000 then rate == requests as real * 1_000.0
    else rate * nanos as real == requests as real * 1_000_000_000.0
  }

  lemma PerSecond(requests: nat, nanos: int)
    ensures IsRate(requests as real / Max(Seconds(nanos), 0.001), requests, nanos)
  {
    if nanos > 1_000_000 {
      var s := nanos as real / 1_000_000_000.0;
      assert s > 0.001 && requests as real / s * s == requests as real;
    }
  }

  /**
   With two ticks or more the rate is that of the ticks after the first over the time since it;
   with one it is that tick's over the whole window, and with none it is zero.
   */
  lemma RateExactly(ts: seq<Tick>, span: nat)
    ensures ts == [] ==> Rate(ts, span) == 0.0
    ensures |ts| == 1 ==> IsRate(Rate(ts, span), ts[0].requests, span)
    ensures |ts| >= 2 ==> IsRate(Rate(ts, span), Requests(ts[1..]), ts[|ts|-1].time - ts[0].time)
  {
    hide IsRate, Seconds, Max;
    if |ts| == 1 {
      PerSecond(ts[0].requests, span);
    } else if |ts| >= 2 {
      PerSecond(Requests(ts[1..]), Elapsed(ts));
      NoTime(Requests(ts[1..]), ts[|ts|-1].time - ts[0].time);
    } else {
      Nothing(span);
    }
  }

  lemma NoTime(requests: nat, nanos: int)
    ensures nanos < 0 ==> forall rate :: IsRate(rate, requests, 0) <==> IsRate(rate, requests, nanos)
  {
  }

  lemma Nothing(span: nat)
    ensures 0 as real / Max(Seconds(span), 0.001) == 0.0
  {
  }

  // ---------------------------------------------------------------------------
  // A constant rate is reported exactly
  // ---------------------------------------------------------------------------

  /** The requests a load of `r` per second makes in `nanos` nanoseconds. */
  function Expected(r: real, nanos: int): real { r * Seconds(nanos) }

  lemma ExpectedAdds(r: real, a: int, b: int)
    ensures Expected(r, a) + Expected(r, b) == Expected(r, a + b)
  {
    var x, y := Seconds(a), Seconds(b);
    assert Seconds(a + b) == x + y;
    assert r * x + r * y == r * (x + y);
  }

  lemma ExpectedRate(r: real, nanos: int)
    requires nanos > 0
    ensures Seconds(nanos) > 0.0 && Expected(r, nanos) / Seconds(nanos) == r
  {
  }

  /** Each tick after the first counts `r` requests per second since the tick before it. */
  predicate Steady(h: seq<Tick>, r: real) {
    forall i {:trigger h[i]} :: 1 <= i < |h| ==> h[i].requests as real == Expected(r, h[i].time - h[i-1].time)
  }

  lemma ExpectedNone(r: real)
    ensures Expected(r, 0) == 0.0
  {
  }

  lemma SteadyLast(h: seq<Tick>, r: real)
    requires Steady(h, r) && |h| >= 2
    ensures Steady(h[..|h|-1], r) && h[|h|-1].requests as real == Expected(r, h[|h|-1].time - h[|h|-2].time)
  {
    hide Expected;
  }

  lemma RequestsLast(h: seq<Tick>)
    requires |h| >= 2
    ensures Requests(h[1..]) == Requests(h[..|h|-1][1..]) + h[|h|-1].requests
  {
    assert h[1..][..|h|-2] == h[..|h|-1][1..];
  }

  lemma {:induction false} SteadySum(h: seq<Tick>, r: real)
    requires Steady(h, r) && h != []
    ensures Requests(h[1..]) as real == Expected(r, h[|h|-1].time - h[0].time)
  {
    var n := |h| - 1;
    if n == 0 {
      ExpectedNone(r);
    } else {
      SteadyLast(h, r);
      RequestsLast(h);
      hide Expected, Steady, Requests;
      SteadySum(h[..n], r);
      ExpectedAdds(r, h[n-1].time - h[0].time, h[n].time - h[n-1].time);
    }
  }

  lemma SteadySuffix(h: seq<Tick>, r: real, k: nat)
    requires Steady(h, r) && k <= |h|
    ensures Steady(h[k..], r)
  {
    hide Expected;
    var ts := h[k..];
    forall i | 1 <= i < |ts|
      ensures ts[i].requests as real == Expected(r, ts[i].time - ts[i-1].time)
    {
      assert ts[i] == h[k + i] && ts[i-1] == h[k + i - 1];
    }
  }

  /**
   Whatever has been evicted, the smoothed rate of a steady load is that load's rate as soon as
   two held ticks are at least a millisecond apart.
   */
  lemma SteadyRateExact(h: seq<Tick>, r: real, span: nat)
    requires Ordered(h) && Steady(h, r)
    requires |Held(h, span)| >= 2 && Elapsed(Held(h, span)) >= 1_000_000
    ensures Rate(Held(h, span), span) == r
  {
    var k := HeldIsSuffix(h, span);
    hide Held, Ordered, Steady, Recent, Requests, Expected;
    var ts := h[k..];
    SteadySuffix(h, r, k);
    SteadySum(ts, r);
    assert Max(Seconds(Elapsed(ts)), 0.001) == Seconds(Elapsed(ts));
    ExpectedRate(r, Elapsed(ts));
  }
}
