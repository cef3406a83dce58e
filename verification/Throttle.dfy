/**
 The token bucket that throttles reads, and the throttled stream around it. Times are real
 seconds on a clock that only moves forward; a sleep lasts at least as long as asked.
 */
module Throttle {
  import opened Wrappers

  /** Converting an infinite number of seconds to a duration panics. */
  datatype Wait = Sleep(secs: real) | Panic

  function Min(a: real, b: real): real { if a < b then a else b }
  function Max(a: real, b: real): real { if a > b then a else b }

  class Clock {
    var now: real

    constructor ()
    {
      now := 0.0;
    }

    /** Any amount of time passes, at least `secs`. */
    method Sleep(secs: real)
      requires secs >= 0.0
      modifies this
      ensures now >= old(now) + secs
    {
      var extra: real :| extra >= 0.0;
      now := now + secs + extra;
    }
  }

  class TokenBucket {
    var tokens: real
    const capacity: real
    const rate: real
    var lastRefill: real

    /** Room for 50 ms of data or one 1500-byte segment, and full at first. */
    constructor (rateBps: nat, now: real)
      ensures rate == rateBps as real / 8.0 && capacity == Max(rate * 0.05, 1500.0)
      ensures tokens == capacity && lastRefill == now && fresh(this)
    {
      rate := rateBps as real / 8.0;
      capacity := Max(rateBps as real / 8.0 * 0.05, 1500.0);
      tokens := Max(rateBps as real / 8.0 * 0.05, 1500.0);
      lastRefill := now;
    }

    ghost predicate Valid()
      reads this
    {
      rate >= 0.0 && capacity >= 1500.0 && tokens <= capacity
    }

    /** What the tokens would be at `t` if nothing more were consumed and no cap applied. */
    ghost function At(t: real): real
      reads this
    {
      tokens + Accrued(rate, lastRefill, t)
    }

    method Refill(now: real)
      requires Valid() && now >= lastRefill
      modifies this
      ensures Valid() && lastRefill == now
      ensures tokens == Min(old(At(now)), capacity)
    {
      var elapsed := now - lastRefill;
      tokens := Min(tokens + elapsed * rate, capacity);
      lastRefill := now;
    }

    /** Takes `n` tokens, into debt if need be; the wait is exactly what pays the debt back. */
    method Consume(n: nat, now: real) returns (w: Wait)
      requires Valid() && now >= lastRefill
      modifies this
      ensures Valid() && lastRefill == now
      ensures tokens == Min(old(At(now)), capacity) - n as real
      ensures w.Panic? <==> tokens < 0.0 && rate == 0.0
      ensures w.Sleep? ==> w.secs >= 0.0 && (tokens >= 0.0 ==> w.secs == 0.0)
      ensures w.Sleep? && tokens < 0.0 ==> At(now + w.secs) == 0.0
    {
      Refill(now);
      tokens := tokens - n as real;
      if tokens < 0.0 {
        w := Seconds(-tokens, rate);
      } else {
        w := Sleep(0.0);
      }
    }

    /** Until one whole token is there, and no longer. */
    method WaitTime(now: real) returns (w: Wait)
      requires Valid() && now >= lastRefill
      modifies this
      ensures Valid() && lastRefill == now && tokens == Min(old(At(now)), capacity)
      ensures w.Panic? <==> tokens < 1.0 && rate == 0.0
      ensures w.Sleep? ==> w.secs >= 0.0 && (tokens >= 1.0 ==> w.secs == 0.0)
      ensures w.Sleep? && tokens < 1.0 ==> At(now + w.secs) == 1.0
    {
      Refill(now);
      if tokens >= 1.0 {
        w := Sleep(0.0);
      } else {
        w := Seconds(1.0 - tokens, rate);
      }
    }
  }

  /** Tokens accrued from `a` to `b`. */
  function Accrued(rate: real, a: real, b: real): real { (b - a) * rate }

  /** The time in which `amount` accrues; division by a zero rate is infinite. */
  function Seconds(amount: real, rate: real): (w: Wait)
    requires amount > 0.0 && rate >= 0.0
    ensures w.Panic? <==> rate == 0.0
    ensures w.Sleep? ==> w.secs >= 0.0 && w.secs * rate == amount
  {
    if rate == 0.0 then Panic else Sleep(amount / rate)
  }

  // ---------------------------------------------------------------------------
  // The throttled stream
  // ---------------------------------------------------------------------------

  /** A completed read: when it returned, and the bytes all reads so far have returned. */
  datatype Completion = Completion(time: real, total: nat)

  lemma AccruedSplit(rate: real, a: real, b: real, c: real)
    ensures Accrued(rate, a, b) + Accrued(rate, b, c) == Accrued(rate, a, c)
  {
  }

  lemma AccruedGrows(rate: real, a: real, b: real)
    requires rate >= 0.0 && a <= b
    ensures Accrued(rate, a, b) >= 0.0
  {
  }

  // ---------------------------------------------------------------------------
  // The argument, on numbers: what may still be returned after a completion at `t0`
  // ---------------------------------------------------------------------------

  /** Returned since, plus tokens at hand, within capacity and accrual since `t0`. */
  predicate Within(since: int, tokens: real, capacity: real, rate: real, t0: real, at: real) {
    since as real + tokens <= capacity + Accrued(rate, t0, at)
  }

  /** A refill at or after `t0` starts the account: nothing returned since, tokens at most the capacity. */
  lemma WithinStarts(tokens: real, capacity: real, rate: real, t0: real, at: real)
    requires rate >= 0.0 && tokens <= capacity && t0 <= at
    ensures Within(0, tokens, capacity, rate, t0, at)
  {
    AccruedGrows(rate, t0, at);
  }

  /** Refilling from `at` to `later` and then consuming `n` keeps it. */
  lemma WithinKept(since: int, tokens: real, capacity: real, rate: real, t0: real, at: real, later: real, n: nat)
    requires Within(since, tokens, capacity, rate, t0, at)
    ensures Within(since + n, Min(tokens + Accrued(rate, at, later), capacity) - n as real, capacity, rate, t0, later)
  {
    AccruedSplit(rate, t0, at, later);
  }

  /** With no debt left at `end`, what was returned is within the window's allowance. */
  lemma WithinBound(since: int, tokens: real, capacity: real, rate: real, t0: real, at: real, end: real)
    requires Within(since, tokens, capacity, rate, t0, at) && tokens + Accrued(rate, at, end) >= 0.0
    ensures since as real <= capacity + Accrued(rate, t0, end)
  {
    AccruedSplit(rate, t0, at, end);
  }

  /** A wait that brings the tokens up to `goal` leaves them there or above at any later time. */
  lemma WaitSuffices(tokens: real, rate: real, at: real, secs: real, goal: real, end: real)
    requires rate >= 0.0 && secs >= 0.0 && end >= at + secs
    requires tokens >= goal || tokens + Accrued(rate, at, at + secs) >= goal
    ensures tokens + Accrued(rate, at, end) >= goal
  {
    AccruedGrows(rate, at, at + secs);
    AccruedGrows(rate, at + secs, end);
    AccruedSplit(rate, at, at + secs, end);
  }

  function Yield(inner: Option<nat>): nat { if inner.Some? then inner.value else 0 }

  lemma NoAccrual(a: real, b: real)
    ensures Accrued(0.0, a, b) == 0.0
  {
  }

  class ThrottledStream {
    const bucket: TokenBucket
    const clock: Clock
    ghost var total: nat
    ghost var log: seq<Completion>

    constructor (rateBps: nat, clock: Clock)
      ensures Valid() && fresh(bucket) && this.clock == clock && log == [] && total == 0
    {
      this.clock := clock;
      bucket := new TokenBucket(rateBps, clock.now);
      total, log := 0, [];
    }

    ghost predicate Covered(c: Completion)
      reads this, bucket
    {
      Within(total - c.total, bucket.tokens, bucket.capacity, bucket.rate, c.time, bucket.lastRefill)
    }

    ghost predicate AllCovered(n: int)
      reads this, bucket
    {
      forall i :: 0 <= i < n && i < |log| ==> Covered(log[i])
    }

    ghost predicate LogValid()
      reads this, bucket, clock
    {
      && (forall i :: 0 <= i < |log| ==> log[i].time <= clock.now && log[i].total <= total)
      && (forall i, j :: 0 <= i < j < |log| ==> log[i].time <= log[j].time && log[i].total <= log[j].total)
      && WindowBound()
    }

    /** Between reads there is no debt, and every completed read but the last is accounted for. */
    ghost predicate Valid()
      reads this, bucket, clock
    {
      && bucket.Valid() && bucket.lastRefill <= clock.now && bucket.At(clock.now) >= 0.0
      && LogValid() && AllCovered(|log| - 1)
      && total == (if log == [] then 0 else log[|log|-1].total)
    }

    /**
     Between any two completed reads the stream returned at most the burst capacity plus what
     the rate allows for the time between them, however large single reads were.
     */
    ghost predicate WindowBound()
      reads this, bucket
    {
      forall i, j :: 0 <= i < j < |log| ==>
        (log[j].total - log[i].total) as real <=
          bucket.capacity + Accrued(bucket.rate, log[i].time, log[j].time)
    }

    /** In bytes, seconds and bytes per second. */
    lemma BytesWithin(i: nat, j: nat)
      requires Valid() && i < j < |log|
      ensures (log[j].total - log[i].total) as real <= bucket.capacity + bucket.rate * (log[j].time - log[i].time)
    {
    }

    /** Refills, and returns once at least one token is there. */
    method AwaitToken() returns (returned: bool)
      requires Valid()
      modifies bucket, clock
      ensures bucket.Valid() && clock.now >= old(clock.now)
      ensures returned <==> !(bucket.rate == 0.0 && old(bucket.tokens) < 1.0)
      ensures bucket.rate == 0.0 ==> bucket.tokens == old(bucket.tokens)
      ensures returned ==> bucket.lastRefill <= clock.now && bucket.At(clock.now) >= 1.0
      ensures returned ==> LogValid() && AllCovered(|log|)
    {
      NoAccrual(bucket.lastRefill, clock.now);
      var w := bucket.WaitTime(clock.now);
      if w.Panic? {
        return false;
      }
      forall i | 0 <= i < |log| ensures Covered(log[i]) {
        if i < |log| - 1 {
          assert old(Covered(log[i]));
          WithinKept(total - log[i].total, old(bucket.tokens), bucket.capacity, bucket.rate, log[i].time,
                     old(bucket.lastRefill), bucket.lastRefill, 0);
        } else {
          WithinStarts(bucket.tokens, bucket.capacity, bucket.rate, log[i].time, bucket.lastRefill);
        }
      }
      if w.secs > 0.0 {
        clock.Sleep(w.secs);
      }
      WaitSuffices(bucket.tokens, bucket.rate, bucket.lastRefill, w.secs, 1.0, clock.now);
      returned := true;
    }

    /** Consumes what the inner stream yielded and sleeps the debt off. */
    method Pay(n: nat) returns (returned: bool)
      requires bucket.Valid() && bucket.lastRefill <= clock.now && LogValid() && AllCovered(|log|)
      modifies this`total, bucket, clock
      ensures bucket.Valid() && clock.now >= old(clock.now) && total == old(total) + n
      ensures returned <==> !(bucket.rate == 0.0 && old(bucket.tokens) < n as real)
      ensures returned ==> bucket.lastRefill <= clock.now && bucket.At(clock.now) >= 0.0
      ensures returned ==> LogValid() && AllCovered(|log|)
    {
      NoAccrual(bucket.lastRefill, clock.now);
      var debt := bucket.Consume(n, clock.now);
      total := total + n;
      forall i | 0 <= i < |log| ensures Covered(log[i]) {
        assert old(Covered(log[i]));
        WithinKept(old(total) - log[i].total, old(bucket.tokens), bucket.capacity, bucket.rate, log[i].time,
                   old(bucket.lastRefill), bucket.lastRefill, n);
      }
      if debt.Panic? {
        return false;
      }
      if debt.secs > 0.0 {
        clock.Sleep(debt.secs);
      }
      WaitSuffices(bucket.tokens, bucket.rate, bucket.lastRefill, debt.secs, 0.0, clock.now);
      returned := true;
    }

    /**
     One read: wait out any debt, read from the inner stream (which fails or yields some number
     of bytes after any amount of time), then consume and pay back. It panics exactly at rate zero when
     the burst left does not cover one token and the bytes read.
     */
    method Read(inner: Option<nat>) returns (returned: bool)
      requires Valid()
      modifies this, bucket, clock
      ensures returned <==> !(bucket.rate == 0.0 && old(bucket.tokens) < Max(1.0, Yield(inner) as real))
      ensures returned ==> Valid() && clock.now >= old(clock.now)
      ensures returned ==> total == old(total) + Yield(inner)
      ensures returned ==> log == old(log) + [Completion(clock.now, total)]
    {
      returned := AwaitToken();
      if !returned {
        return;
      }
      ghost var waited := clock.now;
      clock.Sleep(0.0);
      WaitSuffices(bucket.tokens, bucket.rate, bucket.lastRefill, waited - bucket.lastRefill, 0.0, clock.now);
      if inner.Some? && inner.value > 0 {
        returned := Pay(inner.value);
        if !returned {
          return;
        }
      }
      Complete();
    }

    ghost method Complete()
      requires bucket.Valid() && bucket.lastRefill <= clock.now && bucket.At(clock.now) >= 0.0
      requires LogValid() && AllCovered(|log|)
      modifies this`log
      ensures Valid() && log == old(log) + [Completion(clock.now, total)]
    {
      forall i | 0 <= i < |log|
        ensures (total - log[i].total) as real <= bucket.capacity + Accrued(bucket.rate, log[i].time, clock.now)
      {
        assert Covered(log[i]);
        WithinBound(total - log[i].total, bucket.tokens, bucket.capacity, bucket.rate, log[i].time,
                    bucket.lastRefill, clock.now);
      }
      log := log + [Completion(clock.now, total)];
    }
  }
}
