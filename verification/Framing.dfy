/**
 TCP framing: the encoder and the matching stream readers. A reader's result carries how many
 bytes of the stream it took, on failure too.
 */
module Framing {
  import opened Bytes

  datatype Mode =
    | LengthPrefixed(width: nat)
    | Delimiter(delimiter: bytes)
    | FixedSize(size: nat)

  datatype Fault = InvalidInput | TooLong | UnexpectedEof

  datatype Outcome = Ok(payload: bytes, taken: nat) | Err(fault: Fault, taken: nat)

  // ---------------------------------------------------------------------------
  // Encoding
  // ---------------------------------------------------------------------------

  /** Bytes in the length header: any width other than 1 or 2 is written as 4. */
  function HeaderWidth(width: nat): nat { if width == 1 then 1 else if width == 2 then 2 else 4 }

  function Zeros(n: nat): (z: bytes)
    ensures |z| == n
  {
    seq(n, _ => 0)
  }

  function Encode(m: Mode, payload: bytes): bytes {
    match m
    case LengthPrefixed(w) => BigEndian(|payload|, HeaderWidth(w)) + payload
    case Delimiter(d) => payload + d
    case FixedSize(n) => if |payload| >= n then payload[..n] else payload + Zeros(n - |payload|)
  }

  /**
   The frame byte by byte: a big-endian length and the payload, the payload and its delimiter, or the
   payload cut or filled with zeros to the size.
   */
  ghost predicate IsFrame(m: Mode, payload: bytes, wire: bytes) {
    match m
    case LengthPrefixed(w) =>
      var h := if w == 1 || w == 2 then w else 4;
      |wire| == h + |payload| && wire[h..] == payload && FromBigEndian(wire[..h]) == |payload| % Pow256(h)
    case Delimiter(d) => |wire| == |payload| + |d| && wire[..|payload|] == payload && wire[|payload|..] == d
    case FixedSize(n) => |wire| == n && forall i :: 0 <= i < n ==> wire[i] == if i < |payload| then payload[i] else 0
  }

  lemma FrameWritten(m: Mode, payload: bytes)
    ensures IsFrame(m, payload, Encode(m, payload))
  {
    if m.LengthPrefixed? {
      var h := HeaderWidth(m.width);
      BigEndianModulo(|payload|, h);
      hide BigEndian, FromBigEndian, Pow256;
      var wire := Encode(m, payload);
      assert wire[..h] == BigEndian(|payload|, h) && wire[h..] == payload;
    }
  }

  /** The encoder as it fills a buffer; in fixed-size mode it copies over a zeroed one. */
  method EncodeFrame(payload: bytes, m: Mode) returns (buf: bytes)
    ensures buf == Encode(m, payload)
    ensures IsFrame(m, payload, buf)
  {
    FrameWritten(m, payload);
    hide IsFrame;
    match m {
      case LengthPrefixed(w) =>
        buf := [];
        if w == 1 {
          buf := buf + [|payload| % 256];
          assert BigEndian(|payload|, 1) == BigEndian(|payload| / 256, 0) + [|payload| % 256];
        } else if w == 2 {
          buf := buf + BigEndian(|payload|, 2);
        } else {
          buf := buf + BigEndian(|payload|, 4);
        }
        buf := buf + payload;
      case Delimiter(d) =>
        buf := payload;
        buf := buf + d;
      case FixedSize(n) =>
        var cells := new byte[n](_ => 0);
        var copied := if |payload| < n then |payload| else n;
        for i := 0 to copied
          invariant cells[..i] == payload[..i]
          invariant forall k :: i <= k < n ==> cells[k] == 0
        {
          cells[i] := payload[i];
          assert cells[..i+1] == cells[..i] + [payload[i]];
        }
        buf := cells[..];
        assert buf[..copied] == payload[..copied];
        assert |payload| < n ==> buf == payload + Zeros(n - |payload|);
    }
  }

  // ---------------------------------------------------------------------------
  // Reading
  // ---------------------------------------------------------------------------

  /** The delimiter ends at position `k` of `s`. */
  predicate EndsAt(s: bytes, d: bytes, k: nat) {
    |d| <= k <= |s| && s[k - |d|..k] == d
  }

  /** The delimiter ends at `k` and nowhere before. */
  ghost predicate FirstEnd(s: bytes, d: bytes, k: nat) {
    EndsAt(s, d, k) && forall i: nat :: i < k ==> !EndsAt(s, d, i)
  }

  /** The delimiter ends nowhere in the first `n` bytes of `s`. */
  ghost predicate NoEnd(s: bytes, d: bytes, n: nat) {
    forall k: nat :: k <= n ==> !EndsAt(s, d, k)
  }

  lemma NoEndStep(s: bytes, d: bytes, n: nat)
    requires n < |s| && NoEnd(s, d, n)
    ensures var acc := s[..n] + [s[n]];
            if |acc| >= |d| && acc[|acc| - |d|..] == d then FirstEnd(s, d, n + 1) else NoEnd(s, d, n + 1)
  {
    var acc := s[..n] + [s[n]];
    assert acc == s[..n+1];
    if |d| <= n + 1 {
      assert acc[n + 1 - |d|..] == s[n + 1 - |d|..n+1];
    }
    assert EndsAt(s, d, n + 1) <==> |acc| >= |d| && acc[|acc| - |d|..] == d;
  }

  /** Byte by byte until the bytes read so far end with the delimiter. */
  method ReadUntilDelimiter(s: bytes, d: bytes, max: nat) returns (r: Outcome)
    ensures d == [] <==> r == Err(InvalidInput, 0)
    ensures r.Ok? ==> FirstEnd(s, d, r.taken) && r.taken <= max && r.payload == s[..r.taken - |d|]
    ensures d != [] && !r.Ok? ==> r.taken <= max && NoEnd(s, d, r.taken)
    ensures d != [] && !r.Ok? ==> r == Err(TooLong, max) || (r == Err(UnexpectedEof, |s|) && |s| < max)
  {
    if d == [] {
      return Err(InvalidInput, 0);
    }
    var acc: bytes := [];
    while true
      invariant |acc| <= |s| && acc == s[..|acc|] && |acc| <= max
      invariant NoEnd(s, d, |acc|)
      decreases |s| - |acc|
    {
      if |acc| >= max {
        return Err(TooLong, |acc|);
      }
      if |acc| == |s| {
        return Err(UnexpectedEof, |acc|);
      }
      NoEndStep(s, d, |acc|);
      hide EndsAt;
      acc := acc + [s[|acc|]];
      if |acc| >= |d| && acc[|acc| - |d|..] == d {
        return Ok(acc[..|acc| - |d|], |acc|);
      }
    }
  }

  function Take(s: bytes, n: nat): Outcome {
    if n <= |s| then Ok(s[..n], n) else Err(UnexpectedEof, |s|)
  }

  /** A big-endian length header, then exactly that many bytes. */
  function ReadLengthPrefixed(s: bytes, width: nat, max: nat): Outcome {
    if |s| < width then Err(UnexpectedEof, |s|)
    else if width != 1 && width != 2 && width != 4 then Err(InvalidInput, width)
    else
      var len := FromBigEndian(s[..width]);
      if len > max then Err(TooLong, width)
      else match Take(s[width..], len)
           case Ok(p, n) => Ok(p, width + n)
           case Err(f, n) => Err(f, width + n)
  }

  function ReadFixed(s: bytes, size: nat): Outcome { Take(s, size) }

  ghost predicate ReadsDelimited(s: bytes, d: bytes, max: nat, payload: bytes, taken: nat) {
    d != [] && FirstEnd(s, d, taken) && taken <= max && payload == s[..taken - |d|]
  }

  /** What a read of `s` in mode `m` returns on success. */
  ghost predicate Reads(m: Mode, s: bytes, max: nat, payload: bytes, taken: nat) {
    match m
    case LengthPrefixed(w) => ReadLengthPrefixed(s, w, max) == Ok(payload, taken)
    case Delimiter(d) => ReadsDelimited(s, d, max, payload, taken)
    case FixedSize(n) => ReadFixed(s, n) == Ok(payload, taken)
  }

  lemma NoDelimitedRead(s: bytes, d: bytes, max: nat, n: nat)
    requires d == [] || (NoEnd(s, d, n) && (n == max || n == |s|))
    ensures forall p, k: nat :: !ReadsDelimited(s, d, max, p, k)
  {
  }

  method ReadFramed(s: bytes, m: Mode, max: nat) returns (r: Outcome)
    ensures r.Ok? ==> Reads(m, s, max, r.payload, r.taken)
    ensures !r.Ok? ==> forall p, n: nat :: !Reads(m, s, max, p, n)
  {
    match m {
      case LengthPrefixed(w) => r := ReadLengthPrefixed(s, w, max);
      case Delimiter(d) =>
        r := ReadUntilDelimiter(s, d, max);
        if !r.Ok? { NoDelimitedRead(s, d, max, r.taken); }
      case FixedSize(n) => r := ReadFixed(s, n);
    }
  }

  // ---------------------------------------------------------------------------
  // Round trips
  // ---------------------------------------------------------------------------

  /** The delimiter first ends where `payload` followed by it ends. */
  ghost predicate Clean(payload: bytes, d: bytes) {
    FirstEnd(payload + d, d, |payload| + |d|)
  }

  /** When a frame of `payload` is read back as `payload`, stated on the payload alone. */
  ghost predicate Framable(m: Mode, payload: bytes, max: nat) {
    match m
    case LengthPrefixed(w) => (w == 1 || w == 2 || w == 4) && |payload| < Pow256(w) && |payload| <= max
    case Delimiter(d) => d != [] && Clean(payload, d) && |payload| + |d| <= max
    case FixedSize(n) => |payload| == n
  }

  lemma EndsAtPrefix(p: bytes, rest: bytes, d: bytes, k: nat)
    requires k <= |p|
    ensures EndsAt(p + rest, d, k) <==> EndsAt(p, d, k)
  {
    if |d| <= k {
      assert (p + rest)[k - |d|..k] == p[k - |d|..k];
    }
  }

  lemma FirstEndPrefix(p: bytes, rest: bytes, d: bytes, k: nat)
    requires k <= |p|
    ensures FirstEnd(p + rest, d, k) <==> FirstEnd(p, d, k)
  {
    forall i: nat | i <= k ensures EndsAt(p + rest, d, i) <==> EndsAt(p, d, i) {
      EndsAtPrefix(p, rest, d, i);
    }
  }

  lemma LengthPrefixedRoundTrip(w: nat, payload: bytes, rest: bytes, max: nat)
    ensures var m := LengthPrefixed(w);
            Reads(m, Encode(m, payload) + rest, max, payload, |Encode(m, payload)|) <==> Framable(m, payload, max)
  {
    hide BigEndian, FromBigEndian;
    var m := LengthPrefixed(w);
    var s := Encode(m, payload) + rest;
    if w == 1 || w == 2 || w == 4 {
      var header := BigEndian(|payload|, w);
      assert s[..w] == header;
      assert s[w..] == payload + rest;
      assert (payload + rest)[..|payload|] == payload;
      BigEndianExact(|payload|, w);
    }
  }

  lemma DelimiterRoundTrip(d: bytes, payload: bytes, rest: bytes, max: nat)
    ensures var m := Delimiter(d);
            Reads(m, Encode(m, payload) + rest, max, payload, |Encode(m, payload)|) <==> Framable(m, payload, max)
  {
    var p := payload + d;
    var s := p + rest;
    FirstEndPrefix(p, rest, d, |p|);
    assert s[..|p| - |d|] == payload;
  }

  lemma FixedSizeRoundTrip(n: nat, payload: bytes, rest: bytes, max: nat)
    ensures var m := FixedSize(n);
            Reads(m, Encode(m, payload) + rest, max, payload, |Encode(m, payload)|) <==> Framable(m, payload, max)
  {
    var p := Encode(FixedSize(n), payload);
    assert (p + rest)[..n] == p;
  }

  /**
   In every mode, with anything behind it on the stream: a frame is read back as its payload,
   leaving the remainder, exactly when the payload is framable in that mode.
   */
  lemma FrameRoundTrip(m: Mode, payload: bytes, rest: bytes, max: nat)
    ensures Reads(m, Encode(m, payload) + rest, max, payload, |Encode(m, payload)|) <==> Framable(m, payload, max)
  {
    match m
    case LengthPrefixed(w) => LengthPrefixedRoundTrip(w, payload, rest, max);
    case Delimiter(d) => DelimiterRoundTrip(d, payload, rest, max);
    case FixedSize(n) => FixedSizeRoundTrip(n, payload, rest, max);
  }

  lemma ReadsUnique(m: Mode, s: bytes, max: nat, p: bytes, j: nat, q: bytes, k: nat)
    requires Reads(m, s, max, p, j) && Reads(m, s, max, q, k)
    ensures p == q && j == k
  {
    if m.Delimiter? {
      FirstEndUnique(s, m.delimiter, j, k);
    }
  }

  lemma FirstEndUnique(s: bytes, d: bytes, j: nat, k: nat)
    requires FirstEnd(s, d, j) && FirstEnd(s, d, k)
    ensures j == k
  {
  }

  function EncodeAll(m: Mode, payloads: seq<bytes>): bytes {
    if payloads == [] then [] else Encode(m, payloads[0]) + EncodeAll(m, payloads[1..])
  }

  /** Reading as many frames as `payloads` holds yields them in order and leaves `left` unread. */
  ghost predicate ReadsAll(m: Mode, s: bytes, max: nat, payloads: seq<bytes>, left: bytes) {
    if payloads == [] then left == s
    else exists n: nat :: n <= |s| && Reads(m, s, max, payloads[0], n) && ReadsAll(m, s[n..], max, payloads[1..], left)
  }

  lemma FirstRead(m: Mode, s: bytes, max: nat, ps: seq<bytes>, left: bytes) returns (n: nat)
    requires ReadsAll(m, s, max, ps, left) && ps != []
    ensures n <= |s| && Reads(m, s, max, ps[0], n) && ReadsAll(m, s[n..], max, ps[1..], left)
  {
    n :| n <= |s| && Reads(m, s, max, ps[0], n) && ReadsAll(m, s[n..], max, ps[1..], left);
  }

  lemma {:induction false} ReadsAllUnique(m: Mode, s: bytes, max: nat, ps: seq<bytes>, l: bytes, qs: seq<bytes>, r: bytes)
    requires ReadsAll(m, s, max, ps, l) && ReadsAll(m, s, max, qs, r) && |ps| == |qs|
    ensures ps == qs && l == r
    decreases |ps|
  {
    if ps != [] {
      hide Reads, ReadsAll;
      var j := FirstRead(m, s, max, ps, l);
      var k := FirstRead(m, s, max, qs, r);
      ReadsUnique(m, s, max, ps[0], j, qs[0], k);
      ReadsAllUnique(m, s[j..], max, ps[1..], l, qs[1..], r);
      assert ps == [ps[0]] + ps[1..] && qs == [qs[0]] + qs[1..];
    }
  }

  lemma ReadsMore(m: Mode, s: bytes, max: nat, p: bytes, n: nat, ps: seq<bytes>, left: bytes)
    requires n <= |s| && Reads(m, s, max, p, n) && ReadsAll(m, s[n..], max, ps, left)
    ensures ReadsAll(m, s, max, [p] + ps, left)
  {
    assert ([p] + ps)[1..] == ps;
  }

  lemma {:induction false} StreamReads(m: Mode, payloads: seq<bytes>, rest: bytes, max: nat)
    requires forall i :: 0 <= i < |payloads| ==> Framable(m, payloads[i], max)
    ensures ReadsAll(m, EncodeAll(m, payloads) + rest, max, payloads, rest)
  {
    if payloads == [] {
      assert EncodeAll(m, payloads) + rest == rest;
    } else {
      hide Reads, Framable, Encode, ReadsAll;
      var p, ps := payloads[0], payloads[1..];
      var tail := EncodeAll(m, ps) + rest;
      var s := Encode(m, p) + tail;
      assert EncodeAll(m, payloads) + rest == s;
      assert s[|Encode(m, p)|..] == tail;
      FrameRoundTrip(m, p, tail, max);
      StreamReads(m, ps, rest, max);
      ReadsMore(m, s, max, p, |Encode(m, p)|, ps, rest);
      assert payloads == [p] + ps;
    }
  }

  /**
   Frames written one after the other are read back as the payload list, leaving exactly what
   followed them, and no other list of as many payloads can be read.
   */
  lemma StreamRoundTrip(m: Mode, payloads: seq<bytes>, rest: bytes, max: nat, ps: seq<bytes>, left: bytes)
    requires forall i :: 0 <= i < |payloads| ==> Framable(m, payloads[i], max)
    requires |ps| == |payloads|
    ensures ReadsAll(m, EncodeAll(m, payloads) + rest, max, ps, left) <==> ps == payloads && left == rest
  {
    hide ReadsAll;
    StreamReads(m, payloads, rest, max);
    if ReadsAll(m, EncodeAll(m, payloads) + rest, max, ps, left) {
      ReadsAllUnique(m, EncodeAll(m, payloads) + rest, max, ps, left, payloads, rest);
    }
  }
}
