/** Bytes, decimal text and big-endian integers, shared by the wire formats. */
module Bytes {
  import opened Wrappers

  type byte = x: int | 0 <= x < 256
  type bytes = seq<byte>

  // ---------------------------------------------------------------------------
  // Decimal text
  // ---------------------------------------------------------------------------

  const ZERO: byte := 48
  const PLUS: byte := 43
  const MINUS: byte := 45
  const MIN_I64: int := -0x8000_0000_0000_0000
  const MAX_I64: int := 0x7fff_ffff_ffff_ffff

  predicate IsDigit(b: byte) { 48 <= b <= 57 }

  function NatText(n: nat): (t: bytes)
    ensures |t| >= 1 && forall i :: 0 <= i < |t| ==> IsDigit(t[i])
  {
    if n < 10 then [ZERO + n] else NatText(n / 10) + [ZERO + n % 10]
  }

  function IntText(n: int): bytes {
    if n < 0 then [MINUS] + NatText(-n) else NatText(n)
  }

  /** The value of a nonempty run of digits. */
  function DigitsValue(t: bytes): Option<nat> {
    if t == [] then None
    else if !IsDigit(t[|t|-1]) then None
    else if |t| == 1 then Some(t[0] - ZERO)
    else match DigitsValue(t[..|t|-1])
         case None => None
         case Some(v) => Some(10 * v + (t[|t|-1] - ZERO))
  }

  /** Integer parsing as the standard library does it: an optional sign, then digits, in range. */
  function ParseI64(t: bytes): (r: Option<int>)
    ensures r.Some? ==> MIN_I64 <= r.value <= MAX_I64
  {
    if t == [] then None
    else
      var signed := t[0] == MINUS || t[0] == PLUS;
      match DigitsValue(if signed then t[1..] else t)
      case None => None
      case Some(v) =>
        var m: int := v;
        var n := if t[0] == MINUS then -m else m;
        if MIN_I64 <= n <= MAX_I64 then Some(n) else None
  }

  lemma {:induction false} NatTextValue(n: nat)
    ensures DigitsValue(NatText(n)) == Some(n)
  {
    if n >= 10 {
      NatTextValue(n / 10);
      var t := NatText(n);
      assert t[..|t|-1] == NatText(n / 10);
    }
  }

  /** Printing and parsing are inverse on every 64-bit integer. */
  lemma IntTextParses(n: int)
    requires MIN_I64 <= n <= MAX_I64
    ensures ParseI64(IntText(n)) == Some(n)
  {
    var a := if n < 0 then -n else n;
    NatTextValue(a);
    if n < 0 {
      assert IntText(n)[1..] == NatText(a);
    } else {
      assert IsDigit(NatText(n)[0]);
    }
  }

  predicate AllDigits(t: bytes) { t != [] && forall i :: 0 <= i < |t| ==> IsDigit(t[i]) }

  lemma {:induction false} DigitsHaveValue(t: bytes)
    ensures DigitsValue(t).Some? <==> AllDigits(t)
  {
    if |t| > 1 { DigitsHaveValue(t[..|t|-1]); }
  }

  /** Digits with at most one sign before them parse to their value if it is in range; nothing else parses. */
  lemma ParseExactly(t: bytes, n: nat)
    ensures DigitsValue(t) == Some(n) ==>
              && ParseI64(t) == ParseI64([43] + t) == (if n <= MAX_I64 then Some(n) else None)
              && ParseI64([45] + t) == if 0 - n >= MIN_I64 then Some(0 - n) else None
    ensures ParseI64(t).Some? ==> AllDigits(t) || (t != [] && (t[0] == 43 || t[0] == 45) && AllDigits(t[1..]))
  {
    assert ([43] + t)[1..] == t && ([45] + t)[1..] == t;
    DigitsHaveValue(t);
    if t != [] { DigitsHaveValue(t[1..]); }
    hide DigitsValue;
  }

  // ---------------------------------------------------------------------------
  // Big-endian integers
  // ---------------------------------------------------------------------------

  function Pow256(k: nat): (p: nat)
    ensures p >= 1
  {
    if k == 0 then 1 else 256 * Pow256(k - 1)
  }

  /** The low `k` bytes of `n`, most significant first. */
  function BigEndian(n: nat, k: nat): (b: bytes)
    ensures |b| == k
  {
    if k == 0 then [] else BigEndian(n / 256, k - 1) + [n % 256]
  }

  function FromBigEndian(b: bytes): nat {
    if b == [] then 0 else 256 * FromBigEndian(b[..|b|-1]) + b[|b|-1]
  }

  lemma {:induction false} FromBigEndianBound(b: bytes)
    ensures FromBigEndian(b) < Pow256(|b|)
  {
    if b != [] {
      FromBigEndianBound(b[..|b|-1]);
    }
  }

  /** `k` bytes hold `n` exactly when `n` is below 256 to the `k`; otherwise high bytes are lost. */
  lemma {:induction false} BigEndianExact(n: nat, k: nat)
    ensures FromBigEndian(BigEndian(n, k)) == n <==> n < Pow256(k)
  {
    if n < Pow256(k) {
      BigEndianInverse(n, k);
    } else {
      FromBigEndianBound(BigEndian(n, k));
    }
  }

  lemma {:induction false} BigEndianInverse(n: nat, k: nat)
    requires n < Pow256(k)
    ensures FromBigEndian(BigEndian(n, k)) == n
  {
    if k > 0 {
      var b := BigEndian(n, k);
      assert b[..|b|-1] == BigEndian(n / 256, k - 1);
      BigEndianInverse(n / 256, k - 1);
    }
  }

  lemma Multiples(q: int, p: nat)
    requires p > 0
    ensures q > 0 ==> q * p >= p
    ensures q < 0 ==> q * p + p <= 0
  {
  }

  lemma ModUnique(n: nat, p: nat, q: nat, r: nat)
    requires p > 0 && n == q * p + r && r < p
    ensures n % p == r
  {
    var a := n / p - q;
    assert n == n / p * p + n % p;
    assert a * p == n / p * p - q * p;
    Multiples(a, p);
  }

  lemma ModuloStep(n: nat, p: nat)
    requires p > 0
    ensures n % (256 * p) == 256 * (n / 256 % p) + n % 256
  {
    var m := n / 256;
    var q, r := m / p, m % p;
    assert m == q * p + r;
    assert n == 256 * m + n % 256;
    assert 256 * (q * p) == q * (256 * p);
    ModUnique(n, 256 * p, q, 256 * r + n % 256);
  }

  lemma LastByte(n: nat, k: nat)
    requires k > 0
    ensures FromBigEndian(BigEndian(n, k)) == 256 * FromBigEndian(BigEndian(n / 256, k - 1)) + n % 256
  {
    var b := BigEndian(n, k);
    assert b[..|b|-1] == BigEndian(n / 256, k - 1);
  }

  lemma PowStep(k: nat)
    requires k > 0
    ensures Pow256(k) == 256 * Pow256(k - 1)
  {
  }

  lemma NoBytes(n: nat)
    ensures FromBigEndian(BigEndian(n, 0)) == n % Pow256(0)
  {
  }

  /** In general `k` bytes hold `n` modulo 256 to the `k`. */
  lemma {:induction false} BigEndianModulo(n: nat, k: nat)
    ensures FromBigEndian(BigEndian(n, k)) == n % Pow256(k)
  {
    hide *;
    if k == 0 {
      NoBytes(n);
    } else {
      BigEndianModulo(n / 256, k - 1);
      LastByte(n, k);
      PowStep(k);
      ModuloStep(n, Pow256(k - 1));
    }
  }
}
