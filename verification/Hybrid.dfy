/**
 The hybrid generator's deterministic weighted choice of URL patterns: a call counter taken
 modulo the total weight and looked up in the running sums of the weights.
 */
module Hybrid {
  import opened Wrappers

  /** The sum of the first `i` weights. */
  function Cumulative(ws: seq<real>, i: nat): real
    requires i <= |ws|
  {
    if i == 0 then 0.0 else Cumulative(ws, i - 1) + ws[i - 1]
  }

  function Total(ws: seq<real>): real { Cumulative(ws, |ws|) }

  /** Floating-point remainder of a non-negative dividend; it takes the dividend's sign. */
  function Remainder(x: real, w: real): real
    requires w != 0.0
  {
    var m := if w < 0.0 then -w else w;
    x - m * (x / m).Floor as real
  }

  /** Where call number `k` falls on the line of weights; not a number when the total is zero. */
  function Position(total: real, k: nat): Option<real> {
    if total == 0.0 then None else Some(Remainder(k as real, total) + 0.5)
  }

  /** The first running sum from index `i` on that reaches `p`, or 0. */
  function Reaching(ws: seq<real>, p: real, i: nat): (r: nat)
    requires i <= |ws|
    ensures ws != [] ==> r < |ws|
    decreases |ws| - i
  {
    if i == |ws| then 0 else if p <= Cumulative(ws, i + 1) then i else Reaching(ws, p, i + 1)
  }

  /** The pattern chosen by call number `k`. */
  function Selected(ws: seq<real>, k: nat): (r: nat)
    ensures ws != [] ==> r < |ws|
  {
    if |ws| == 1 then 0 else
    match Position(Total(ws), k)
    case None => 0
    case Some(p) => Reaching(ws, p, 0)
  }

  // ---------------------------------------------------------------------------
  // The generator
  // ---------------------------------------------------------------------------

  class Generator {
    const weights: seq<real>
    var counter: nat
    var cumulative: seq<real>
    var total: real

    constructor (weights: seq<real>)
      ensures Valid() && this.weights == weights && counter == 0
    {
      this.weights := weights;
      counter := 0;
      cumulative := [];
      total := 0.0;
      new;
      for i := 0 to |weights|
        invariant this.weights == weights && counter == 0 && total == Cumulative(weights, i)
        invariant |cumulative| == i && forall j :: 0 <= j < i ==> cumulative[j] == Cumulative(weights, j + 1)
      {
        total := total + weights[i];
        cumulative := cumulative + [total];
      }
    }

    ghost predicate Valid()
      reads this
    {
      && total == Total(weights)
      && |cumulative| == |weights|
      && forall j :: 0 <= j < |weights| ==> cumulative[j] == Cumulative(weights, j + 1)
    }

    method SelectPattern() returns (r: nat)
      requires Valid()
      ensures r == Selected(weights, counter)
    {
      if |weights| == 1 { return 0; }
      var position := Position(total, counter);
      if position.Some? {
        var i := 0;
        while i < |cumulative|
          invariant i <= |cumulative| && Reaching(weights, position.value, i) == Reaching(weights, position.value, 0)
        {
          if position.value <= cumulative[i] { return i; }
          i := i + 1;
        }
      }
      return 0;
    }

    /** The chosen pattern, or `None` for the index panic of an empty pattern list. */
    method Generate() returns (r: Option<nat>)
      requires Valid()
      modifies `counter
      ensures Valid()
      ensures weights == [] ==> r == None && counter == old(counter)
      ensures weights != [] ==> r == Some(Selected(weights, old(counter))) && counter == old(counter) + 1
    {
      var index := SelectPattern();
      if index >= |weights| { return None; }
      counter := counter + 1;
      return Some(index);
    }
  }

  // ---------------------------------------------------------------------------
  // Fairness
  // ---------------------------------------------------------------------------

  /** How many of the `n` calls from number `start` on choose pattern `i`. */
  function Times(ws: seq<real>, start: nat, n: nat, i: nat): nat {
    if n == 0 then 0 else Times(ws, start, n - 1, i) + if Selected(ws, start + n - 1) == i then 1 else 0
  }

  predicate Weights(ws: seq<real>, w: nat) {
    (forall i :: 0 <= i < |ws| ==> ws[i] >= 0.0) && Total(ws) == w as real && w >= 1
  }

  predicate Whole(x: real) { x.Floor as real == x }

  lemma Quotient(k: nat, w: nat)
    requires w >= 1
    ensures (k as real / w as real).Floor == k / w
  {
    var q, r := k / w, k % w;
    assert k == q * w + r;
    var f := r as real / w as real;
    assert 0.0 <= f < 1.0;
    assert k as real / w as real == q as real + f;
  }

  lemma WholeRemainder(k: nat, w: nat)
    requires w >= 1
    ensures Position(w as real, k) == Some((k % w) as real + 0.5)
  {
    Quotient(k, w);
    assert (w * (k / w)) as real == w as real * (k / w) as real;
  }

  lemma {:induction false} CumulativeRises(ws: seq<real>, i: nat, j: nat)
    requires (forall k :: 0 <= k < |ws| ==> ws[k] >= 0.0) && i <= j <= |ws|
    ensures Cumulative(ws, i) <= Cumulative(ws, j)
  {
    if i < j { CumulativeRises(ws, i, j - 1); }
  }

  lemma {:induction false} ReachingIs(ws: seq<real>, p: real, i: nat, j: nat)
    requires (forall k :: 0 <= k < |ws| ==> ws[k] >= 0.0) && i <= j < |ws|
    requires Cumulative(ws, j) < p <= Cumulative(ws, j + 1)
    ensures Reaching(ws, p, i) == j
    decreases j - i
  {
    if i < j {
      CumulativeRises(ws, i + 1, j);
      ReachingIs(ws, p, i + 1, j);
    }
  }

  /** Some running sum is the first to reach any point up to the total. */
  lemma {:induction false} Cell(ws: seq<real>, p: real, n: nat) returns (j: nat)
    requires n <= |ws| && 0.0 < p <= Cumulative(ws, n)
    ensures j < n && Cumulative(ws, j) < p <= Cumulative(ws, j + 1)
  {
    if p <= Cumulative(ws, n - 1) { j := Cell(ws, p, n - 1); } else { j := n - 1; }
  }

  lemma CellUnique(ws: seq<real>, p: real, i: nat, j: nat)
    requires (forall k :: 0 <= k < |ws| ==> ws[k] >= 0.0) && i < |ws| && j < |ws|
    requires Cumulative(ws, i) < p <= Cumulative(ws, i + 1)
    requires Cumulative(ws, j) < p <= Cumulative(ws, j + 1)
    ensures i == j
  {
    if i < j { CumulativeRises(ws, i + 1, j); }
    if j < i { CumulativeRises(ws, j + 1, i); }
  }

  /** Pattern `i` owns the calls whose position falls between the running sums around it. */
  lemma SelectedIff(ws: seq<real>, w: nat, k: nat, i: nat)
    requires Weights(ws, w) && i < |ws|
    ensures Selected(ws, k) == i <==> Cumulative(ws, i) < (k % w) as real + 0.5 <= Cumulative(ws, i + 1)
  {
    hide Remainder;
    var p := (k % w) as real + 0.5;
    WholeRemainder(k, w);
    var j := Cell(ws, p, |ws|);
    assert Selected(ws, k) == j by {
      if |ws| > 1 { ReachingIs(ws, p, 0, j); }
    }
    if Cumulative(ws, i) < p <= Cumulative(ws, i + 1) { CellUnique(ws, p, i, j); }
  }

  lemma AddModulus(k: nat, w: nat)
    requires w >= 1
    ensures (k + w) % w == k % w
  {
    var d := (k + w) / w - k / w - 1;
    assert d * w == k % w - (k + w) % w by {
      assert k == k / w * w + k % w && k + w == (k + w) / w * w + (k + w) % w;
      assert d * w == (k + w) / w * w - k / w * w - w;
    }
  }

  lemma SelectedRepeats(ws: seq<real>, w: nat, k: nat)
    requires Weights(ws, w)
    ensures Selected(ws, k + w) == Selected(ws, k)
  {
    hide Remainder, Cumulative, Reaching;
    WholeRemainder(k, w);
    WholeRemainder(k + w, w);
    AddModulus(k, w);
  }

  lemma {:induction false} TimesShift(ws: seq<real>, start: nat, n: nat, i: nat)
    ensures Times(ws, start, n + 1, i) == Times(ws, start + 1, n, i) + if Selected(ws, start) == i then 1 else 0
  {
    hide Selected;
    if n > 0 { TimesShift(ws, start, n - 1, i); }
  }

  /** A full cycle contains the same choices wherever it starts. */
  lemma {:induction false} AnyStart(ws: seq<real>, w: nat, start: nat, i: nat)
    requires Weights(ws, w)
    ensures Times(ws, start, w, i) == Times(ws, 0, w, i)
  {
    if start > 0 {
      AnyStart(ws, w, start - 1, i);
      SelectedRepeats(ws, w, start - 1);
      hide Selected;
      TimesShift(ws, start - 1, w, i);
    }
  }

  /** How many of the points 0.5, 1.5, … below `n` are at most `x`. */
  function Points(n: nat, x: real): int {
    var f := (x + 0.5).Floor;
    if f < n then f else n
  }

  lemma PointsStep(n: nat, x: real)
    requires x >= 0.0
    ensures Points(n + 1, x) == Points(n, x) + if n as real + 0.5 <= x then 1 else 0
  {
  }

  lemma SmallModulus(k: nat, w: nat)
    requires k < w
    ensures k % w == k
  {
  }

  lemma {:induction false} TimesFrom0(ws: seq<real>, w: nat, n: nat, i: nat)
    requires Weights(ws, w) && n <= w && i < |ws|
    ensures Times(ws, 0, n, i) == Points(n, Cumulative(ws, i + 1)) - Points(n, Cumulative(ws, i))
  {
    hide Selected;
    CumulativeRises(ws, 0, i);
    CumulativeRises(ws, i, i + 1);
    assert Cumulative(ws, 0) == 0.0;
    hide Cumulative;
    if n > 0 {
      TimesFrom0(ws, w, n - 1, i);
      SelectedIff(ws, w, n - 1, i);
      SmallModulus(n - 1, w);
      hide Points, Weights;
      PointsStep(n - 1, Cumulative(ws, i));
      PointsStep(n - 1, Cumulative(ws, i + 1));
    }
  }

  /**
   For non-negative weights whose total is a positive integer `w`, any `w` consecutive calls choose
   pattern `i` as often as rounding the running sums around it says.
   */
  lemma CycleCounts(ws: seq<real>, w: nat, start: nat, i: nat)
    requires Weights(ws, w) && i < |ws|
    ensures Times(ws, start, w, i) == (Cumulative(ws, i + 1) + 0.5).Floor - (Cumulative(ws, i) + 0.5).Floor
  {
    AnyStart(ws, w, start, i);
    TimesFrom0(ws, w, w, i);
    CumulativeRises(ws, i, |ws|);
    CumulativeRises(ws, i + 1, |ws|);
  }

  lemma WholeSum(a: real, b: real)
    requires Whole(a) && Whole(b)
    ensures Whole(a + b)
  {
    assert (a.Floor + b.Floor) as real == a + b;
  }

  lemma RoundInteger(n: int)
    ensures (n as real + 0.5).Floor == n
  {
  }

  lemma WholeRounds(x: real)
    requires Whole(x)
    ensures (x + 0.5).Floor as real == x
  {
    RoundInteger(x.Floor);
  }

  lemma {:induction false} WholeCumulative(ws: seq<real>, i: nat)
    requires (forall j :: 0 <= j < |ws| ==> Whole(ws[j])) && i <= |ws|
    ensures Whole(Cumulative(ws, i))
  {
    if i > 0 {
      WholeCumulative(ws, i - 1);
      hide Whole;
      WholeSum(Cumulative(ws, i - 1), ws[i - 1]);
    }
  }

  lemma NatWhole(n: nat)
    ensures Whole(n as real)
  {
  }

  lemma WholeFair(ws: seq<real>, w: nat, start: nat, i: nat)
    requires Weights(ws, w) && i < |ws|
    requires forall j :: 0 <= j < |ws| ==> Whole(ws[j])
    ensures Times(ws, start, w, i) as real == ws[i]
  {
    hide Weights, Times, Whole;
    CycleCounts(ws, w, start, i);
    WholeCumulative(ws, i);
    WholeCumulative(ws, i + 1);
    WholeRounds(Cumulative(ws, i));
    WholeRounds(Cumulative(ws, i + 1));
  }

  /** Selection is exactly fair, over every cycle, if and only if every weight is a whole number. */
  lemma ExactlyFair(ws: seq<real>, w: nat, start: nat)
    requires Weights(ws, w)
    ensures (forall i :: 0 <= i < |ws| ==> Times(ws, start, w, i) as real == ws[i])
       <==> (forall i :: 0 <= i < |ws| ==> Whole(ws[i]))
  {
    hide Weights, Times, Whole, Cumulative;
    if forall i :: 0 <= i < |ws| ==> Whole(ws[i]) {
      forall i | 0 <= i < |ws|
        ensures Times(ws, start, w, i) as real == ws[i]
      {
        WholeFair(ws, w, start, i);
      }
    }
    if forall i :: 0 <= i < |ws| ==> Times(ws, start, w, i) as real == ws[i] {
      forall i | 0 <= i < |ws|
        ensures Whole(ws[i])
      {
        NatWhole(Times(ws, start, w, i));
      }
    }
  }

  /** However fractional the weights, a pattern is never a whole call away from its weight. */
  lemma NearlyFair(ws: seq<real>, w: nat, start: nat, i: nat)
    requires Weights(ws, w) && i < |ws|
    ensures ws[i] - 1.0 < Times(ws, start, w, i) as real < ws[i] + 1.0
  {
    CycleCounts(ws, w, start, i);
    hide Weights, Times;
  }

  /** With weights 1.5 and 0.5 the second pattern is never chosen. */
  lemma FractionsUnfair(start: nat)
    ensures Times([1.5, 0.5], start, 2, 0) == 2 && Times([1.5, 0.5], start, 2, 1) == 0
  {
    var ws := [1.5, 0.5];
    assert Cumulative(ws, 1) == 1.5 && Cumulative(ws, 2) == 2.0;
    CycleCounts(ws, 2, start, 0);
    CycleCounts(ws, 2, start, 1);
  }
}
