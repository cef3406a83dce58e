/**
 The lifecycle counter with sampled limits, and the two policies that drive it: the HTTP
 transformer, which asks for `Connection: close`, and the TCP executor, which drops the
 connection instead of pooling it. `Limit(limits, k)` is the k-th limit sampled; `keep` is what the
 random keep-alive draw of a request came out as.
 */
module Lifecycle {

  datatype Policy = KeepAlive | AlwaysNew | NoReuse | Mixed(lifetime: bool)

  datatype Limits = Limits(sample: nat -> nat)

  /** The `k`-th limit sampled. */
  function Limit(limits: Limits, k: nat): nat { limits.sample(k) }

  class LifecycleCounter {
    const limits: Limits
    var drawn: nat
    var count: nat
    var limit: nat

    constructor (limits: Limits)
      ensures this.limits == limits && drawn == 1 && count == 0 && limit == Limit(limits, 0)
    {
      this.limits, drawn, count, limit := limits, 1, 0, Limit(limits, 0);
    }

    method Tick() returns (fired: bool)
      modifies this`count
      ensures count == old(count) + 1 && fired == (count > limit)
    {
      count := count + 1;
      fired := count > limit;
    }

    method Reset()
      modifies this
      ensures count == 0 && limit == Limit(limits, old(drawn)) && drawn == old(drawn) + 1
    {
      count, limit, drawn := 0, Limit(limits, drawn), drawn + 1;
    }
  }

  // ---------------------------------------------------------------------------
  // When connections close
  // ---------------------------------------------------------------------------

  /** The request, counted from 1, that closes the k-th HTTP connection. */
  function HttpClose(limits: Limits, k: nat): nat {
    if k == 0 then 1 + Limit(limits, 0)
    else HttpClose(limits, k - 1) + if Limit(limits, k) == 0 then 1 else Limit(limits, k)
  }

  /** The transaction, counted from 1, after which the k-th TCP connection is dropped. */
  function TcpClose(limits: Limits, k: nat): nat {
    if k == 0 then Limit(limits, 0) + 1 else TcpClose(limits, k - 1) + Limit(limits, k) + 1
  }

  ghost predicate IsHttpClose(limits: Limits, n: nat) { exists k: nat :: HttpClose(limits, k) == n }
  ghost predicate IsTcpClose(limits: Limits, n: nat) { exists k: nat :: TcpClose(limits, k) == n }

  lemma {:induction false} HttpCloseGrows(limits: Limits, j: nat, k: nat)
    requires j < k
    ensures HttpClose(limits, j) < HttpClose(limits, k)
    decreases k - j
  {
    if j + 1 < k { HttpCloseGrows(limits, j, k - 1); }
  }

  lemma {:induction false} TcpCloseGrows(limits: Limits, j: nat, k: nat)
    requires j < k
    ensures TcpClose(limits, j) < TcpClose(limits, k)
    decreases k - j
  {
    if j + 1 < k { TcpCloseGrows(limits, j, k - 1); }
  }

  /** Between two consecutive closes the next one to come is the only candidate. */
  lemma HttpCloseNext(limits: Limits, k: nat, n: nat)
    requires k > 0 ==> HttpClose(limits, k - 1) < n
    requires n <= HttpClose(limits, k)
    ensures IsHttpClose(limits, n) <==> n == HttpClose(limits, k)
  {
    forall j: nat | HttpClose(limits, j) == n ensures j == k {
      if j < k - 1 { HttpCloseGrows(limits, j, k - 1); }
      if j > k { HttpCloseGrows(limits, k, j); }
    }
  }

  lemma TcpCloseNext(limits: Limits, k: nat, n: nat)
    requires k > 0 ==> TcpClose(limits, k - 1) < n
    requires n <= TcpClose(limits, k)
    ensures IsTcpClose(limits, n) <==> n == TcpClose(limits, k)
  {
    forall j: nat | TcpClose(limits, j) == n ensures j == k {
      if j < k - 1 { TcpCloseGrows(limits, j, k - 1); }
      if j > k { TcpCloseGrows(limits, k, j); }
    }
  }

  // ---------------------------------------------------------------------------
  // The HTTP transformer's decision
  // ---------------------------------------------------------------------------

  /** After `n` requests, `k` of them closes: the counter holds the requests of the current connection. */
  ghost predicate HttpAge(limits: Limits, k: nat, n: nat, count: nat, limit: nat) {
    && limit == Limit(limits, k) && n < HttpClose(limits, k)
    && count == n - (if k == 0 then 0 else HttpClose(limits, k - 1) - 1)
    && (k > 0 ==> HttpClose(limits, k - 1) <= n)
  }

  lemma HttpAgeStep(limits: Limits, k: nat, n: nat, count: nat, limit: nat)
    requires HttpAge(limits, k, n, count, limit)
    ensures count + 1 > limit <==> IsHttpClose(limits, n + 1)
    ensures count + 1 <= limit ==> HttpAge(limits, k, n + 1, count + 1, limit)
    ensures count + 1 > limit ==> HttpAge(limits, k + 1, n + 1, 1, Limit(limits, k + 1))
  {
    HttpCloseNext(limits, k, n + 1);
  }

  class HttpPolicy {
    const policy: Policy
    const counter: LifecycleCounter
    ghost var requests: nat // requests transformed so far
    ghost var closed: nat   // connections closed by the counter so far

    constructor (policy: Policy, limits: Limits)
      ensures Valid() && fresh(counter) && this.policy == policy && counter.limits == limits && requests == 0
    {
      this.policy := policy;
      counter := new LifecycleCounter(limits);
      requests, closed := 0, 0;
    }

    ghost predicate Valid()
      reads this, counter
    {
      policy == Mixed(true) ==>
        counter.drawn == closed + 1 && HttpAge(counter.limits, closed, requests, counter.count, counter.limit)
    }

    /** Whether the request gets a `Connection: close` header. */
    method Transform(keep: bool) returns (close: bool)
      requires Valid()
      modifies this, counter
      ensures Valid() && requests == old(requests) + 1
      ensures match policy
              case KeepAlive => !close
              case AlwaysNew => close
              case NoReuse => !close
              case Mixed(false) => close == !keep
              case Mixed(true) => close == (IsHttpClose(counter.limits, requests) || !keep)
    {
      if policy == Mixed(true) {
        var expired := Expire();
        return if expired then true else !keep;
      }
      requests := requests + 1;
      match policy {
        case KeepAlive => close := false;
        case AlwaysNew => close := true;
        case NoReuse => close := false;
        case Mixed(_) => close := !keep;
      }
    }

    /** Counts a request; the one that closes a connection is the first of the next. */
    method Expire() returns (expired: bool)
      requires Valid() && policy == Mixed(true)
      modifies this, counter
      ensures Valid() && requests == old(requests) + 1 && expired == IsHttpClose(counter.limits, requests)
    {
      HttpAgeStep(counter.limits, closed, requests, counter.count, counter.limit);
      hide HttpAge, IsHttpClose, Limit;
      requests := requests + 1;
      expired := counter.Tick();
      if expired {
        counter.Reset();
        var ignored := counter.Tick();
        closed := closed + 1;
      }
    }
  }

  // ---------------------------------------------------------------------------
  // The TCP executor's decision
  // ---------------------------------------------------------------------------

  ghost predicate TcpAge(limits: Limits, k: nat, n: nat, count: nat, limit: nat) {
    && limit == Limit(limits, k) && n < TcpClose(limits, k)
    && count == n - (if k == 0 then 0 else TcpClose(limits, k - 1))
    && (k > 0 ==> TcpClose(limits, k - 1) <= n)
  }

  lemma TcpAgeStep(limits: Limits, k: nat, n: nat, count: nat, limit: nat)
    requires TcpAge(limits, k, n, count, limit)
    ensures count + 1 > limit <==> IsTcpClose(limits, n + 1)
    ensures count + 1 <= limit ==> TcpAge(limits, k, n + 1, count + 1, limit)
    ensures count + 1 > limit ==> TcpAge(limits, k + 1, n + 1, 0, Limit(limits, k + 1))
  {
    TcpCloseNext(limits, k, n + 1);
  }

  class TcpPolicy {
    const policy: Policy
    const counter: LifecycleCounter
    ghost var transactions: nat
    ghost var closed: nat

    constructor (policy: Policy, limits: Limits)
      ensures Valid() && fresh(counter) && this.policy == policy && counter.limits == limits && transactions == 0
    {
      this.policy := policy;
      counter := new LifecycleCounter(limits);
      transactions, closed := 0, 0;
    }

    ghost predicate Valid()
      reads this, counter
    {
      policy == Mixed(true) ==>
        counter.drawn == closed + 1 && TcpAge(counter.limits, closed, transactions, counter.count, counter.limit)
    }

    /** Whether the connection goes back to the pool after a transaction. */
    method ShouldKeep(keep: bool) returns (kept: bool)
      requires Valid()
      modifies this, counter
      ensures Valid() && transactions == old(transactions) + 1
      ensures match policy
              case KeepAlive => kept
              case AlwaysNew => !kept
              case NoReuse => !kept
              case Mixed(false) => kept == keep
              case Mixed(true) => kept == (!IsTcpClose(counter.limits, transactions) && keep)
    {
      if policy == Mixed(true) {
        var expired := Expire();
        return if expired then false else keep;
      }
      transactions := transactions + 1;
      match policy {
        case KeepAlive => kept := true;
        case AlwaysNew => kept := false;
        case NoReuse => kept := false;
        case Mixed(_) => kept := keep;
      }
    }

    method Expire() returns (expired: bool)
      requires Valid() && policy == Mixed(true)
      modifies this, counter
      ensures Valid() && transactions == old(transactions) + 1 && expired == IsTcpClose(counter.limits, transactions)
    {
      TcpAgeStep(counter.limits, closed, transactions, counter.count, counter.limit);
      hide TcpAge, IsTcpClose, Limit;
      transactions := transactions + 1;
      expired := counter.Tick();
      if expired {
        counter.Reset();
        closed := closed + 1;
      }
    }
  }

  /** How many of the limits drawn after the first, up to the k-th, are positive. */
  function Positives(limits: Limits, k: nat): nat {
    if k == 0 then 0 else Positives(limits, k - 1) + if Limit(limits, k) > 0 then 1 else 0
  }

  /**
   With the same limits the TCP executor keeps every connection after the first with a positive
   limit one request longer than the HTTP transformer does, so the k-th closes are apart by the
   number of such limits. They coincide exactly when all of them are zero, and are k apart exactly
   when none is.
   */
  lemma {:induction false} ClosesDrift(limits: Limits, k: nat)
    ensures TcpClose(limits, k) == HttpClose(limits, k) + Positives(limits, k)
    ensures TcpClose(limits, k) == HttpClose(limits, k) <==> forall i :: 1 <= i <= k ==> Limit(limits, i) == 0
    ensures TcpClose(limits, k) == HttpClose(limits, k) + k <==> forall i :: 1 <= i <= k ==> Limit(limits, i) >= 1
    ensures Positives(limits, k) <= k
  {
    if k > 0 { ClosesDrift(limits, k - 1); }
  }
}
