/**
 The RESP2 client codec: the command encoder and the recursive reader with its byte budget.

 `ReadValue` is the reader as a function of the stream from where the response starts, the
 position in it and the budget; class `Reader` is the stream-consuming code, proved to compute
 it. `Encodes` is an independent grammar of what the reader takes as an encoding of a value.
 */
module Resp {
  import opened Wrappers
  import opened Bytes

  const CR: byte := 13
  const LF: byte := 10
  const SIMPLE: byte := 43 // '+'
  const ERROR: byte := 45  // '-'
  const INTEGER: byte := 58 // ':'
  const BULK: byte := 36   // '$'
  const ARRAY: byte := 42  // '*'

  datatype Value =
    | SimpleString(text: bytes)
    | Error(text: bytes)
    | Integer(n: int)
    | BulkString(data: Option<bytes>)
    | Array(elements: seq<Value>)

  datatype Fault = UnexpectedEof | InvalidData

  /** `pos` is how many bytes of the stream have been taken, on failure too. */
  datatype Outcome<+T> = Ok(value: T, pos: nat) | Err(fault: Fault, pos: nat)

  // ---------------------------------------------------------------------------
  // Well-formed UTF-8 (Unicode, table 3-7)
  // ---------------------------------------------------------------------------

  predicate Tail(b: byte) { 0x80 <= b <= 0xBF }

  /** The length of the well-formed sequence `t` starts with, or 0. */
  function Utf8Length(t: bytes): (k: nat)
    ensures k <= |t|
  {
    if t == [] then 0
    else if t[0] <= 0x7F then 1
    else if |t| >= 2 && 0xC2 <= t[0] <= 0xDF && Tail(t[1]) then 2
    else if |t| >= 3 && Tail(t[2]) &&
            ((t[0] == 0xE0 && 0xA0 <= t[1] <= 0xBF) ||
             (0xE1 <= t[0] <= 0xEF && t[0] != 0xED && Tail(t[1])) ||
             (t[0] == 0xED && 0x80 <= t[1] <= 0x9F)) then 3
    else if |t| >= 4 && Tail(t[2]) && Tail(t[3]) &&
            ((t[0] == 0xF0 && 0x90 <= t[1] <= 0xBF) ||
             (0xF1 <= t[0] <= 0xF3 && Tail(t[1])) ||
             (t[0] == 0xF4 && 0x80 <= t[1] <= 0x8F)) then 4
    else 0
  }

  predicate Utf8(t: bytes) {
    t == [] || (Utf8Length(t) > 0 && Utf8(t[Utf8Length(t)..]))
  }

  lemma {:induction false} AsciiIsUtf8(t: bytes)
    requires forall i :: 0 <= i < |t| ==> t[i] <= 0x7F
    ensures Utf8(t)
  {
    if t != [] {
      AsciiIsUtf8(t[1..]);
    }
  }

  // ---------------------------------------------------------------------------
  // The reader, as a function
  // ---------------------------------------------------------------------------

  function Max(a: nat, b: nat): nat { if a > b then a else b }

  /** A read never steps back, past the end, or more than one byte over the budget. */
  predicate Fits<T>(s: bytes, pos: nat, max: nat, o: Outcome<T>) {
    pos <= o.pos <= |s| && o.pos <= Max(pos, max + 1)
  }

  predicate NoCr(t: bytes) {
    forall i :: 0 <= i < |t| ==> t[i] != CR
  }

  /** Bytes up to a CR; the byte after the CR is taken without looking at it. */
  function ReadLine(s: bytes, pos: nat, max: nat): (o: Outcome<bytes>)
    requires pos <= |s|
    ensures Fits(s, pos, max, o)
    ensures o.Ok? ==> pos + 2 <= o.pos && o.value == s[pos..o.pos-2] && NoCr(o.value) && s[o.pos-2] == CR
    decreases |s| - pos
  {
    if pos >= max then Err(InvalidData, pos)
    else if pos == |s| then Err(UnexpectedEof, pos)
    else if s[pos] == CR then
      if pos + 1 == |s| then Err(UnexpectedEof, pos + 1) else Ok([], pos + 2)
    else
      match ReadLine(s, pos + 1, max)
      case Ok(line, q) => Ok([s[pos]] + line, q)
      case Err(f, q) => Err(f, q)
  }

  function Remaining(pos: nat, max: nat): nat {
    if pos <= max + 1 then max + 1 - pos else 0
  }

  function ReadValue(s: bytes, pos: nat, max: nat): (o: Outcome<Value>)
    requires pos <= |s|
    ensures Fits(s, pos, max, o) && (o.Ok? ==> pos + 2 <= o.pos)
    decreases Remaining(pos, max), 1, 0
  {
    match ReadLine(s, pos, max)
    case Err(f, q) => Err(f, q)
    case Ok(line, q) => ReadPayload(line, s, q, max)
  }

  /** What follows from a value's first line. */
  function ReadPayload(line: bytes, s: bytes, pos: nat, max: nat): (o: Outcome<Value>)
    requires pos <= |s|
    ensures Fits(s, pos, max, o)
    decreases Remaining(pos, max), 3, 0
  {
    if line == [] then Err(UnexpectedEof, pos)
    else if !Utf8(line[1..]) then Err(InvalidData, pos)
    else if line[0] == SIMPLE then Ok(SimpleString(line[1..]), pos)
    else if line[0] == ERROR then Ok(Error(line[1..]), pos)
    else if line[0] != INTEGER && line[0] != BULK && line[0] != ARRAY then Err(InvalidData, pos)
    else match ParseI64(line[1..])
         case None => Err(InvalidData, pos)
         case Some(k) =>
           if line[0] == INTEGER then Ok(Integer(k), pos)
           else if line[0] == BULK then ReadBulk(s, pos, max, k)
           else ReadArray(s, pos, max, k)
  }

  /** A failed exact read has taken whatever there was. */
  function ReadBulk(s: bytes, pos: nat, max: nat, len: int): (o: Outcome<Value>)
    requires pos <= |s|
    ensures Fits(s, pos, max, o)
  {
    if len < 0 then Ok(BulkString(None), pos)
    else if pos + len + 2 > max then Err(InvalidData, pos)
    else if |s| - pos < len + 2 then Err(UnexpectedEof, |s|)
    else Ok(BulkString(Some(s[pos..pos + len])), pos + len + 2)
  }

  function ReadArray(s: bytes, pos: nat, max: nat, count: int): (o: Outcome<Value>)
    requires pos <= |s|
    ensures Fits(s, pos, max, o)
    decreases Remaining(pos, max), 2, count + 1
  {
    if count < 0 then Ok(Array([]), pos)
    else match ReadElements(s, pos, max, count)
         case Ok(vs, q) => Ok(Array(vs), q)
         case Err(f, q) => Err(f, q)
  }

  /** The next `count` values, as many as the array header announced. */
  function ReadElements(s: bytes, pos: nat, max: nat, count: nat): (o: Outcome<seq<Value>>)
    requires pos <= |s|
    ensures Fits(s, pos, max, o) && (o.Ok? ==> |o.value| == count)
    decreases Remaining(pos, max), 2, count
  {
    if count == 0 then Ok([], pos)
    else
      match ReadValue(s, pos, max)
      case Err(f, q) => Err(f, q)
      case Ok(v, q) =>
        match ReadElements(s, q, max, count - 1)
        case Ok(vs, q) => Ok([v] + vs, q)
        case Err(f, q) => Err(f, q)
  }

  /** Read one value from the start of `s`, with a budget of `max` bytes. */
  function ReadResponse(s: bytes, max: nat): Outcome<Value> {
    ReadValue(s, 0, max)
  }

  // ---------------------------------------------------------------------------
  // The grammar, over the bytes of `s` from `i` up to `j`
  // ---------------------------------------------------------------------------

  /** A line is a type byte, valid text without CR, a CR and any one byte. */
  predicate Line(s: bytes, i: nat, j: nat, tag: byte, text: bytes) {
    && i + 3 <= j <= |s| && s[i] == tag && s[i+1..j-2] == text && s[j-2] == CR
    && NoCr(text) && Utf8(text)
  }

  predicate Announces(s: bytes, i: nat, j: nat, tag: byte, n: int) {
    && i + 3 <= j <= |s| && Line(s, i, j, tag, s[i+1..j-2])
    && ParseI64(s[i+1..j-2]) == Some(n)
  }

  ghost predicate Encodes(v: Value, s: bytes, i: nat, j: nat)
    decreases v, 1
  {
    match v
    case SimpleString(t) => Line(s, i, j, SIMPLE, t)
    case Error(t) => Line(s, i, j, ERROR, t)
    case Integer(n) => Announces(s, i, j, INTEGER, n)
    case BulkString(None) => exists n :: n < 0 && Announces(s, i, j, BULK, n)
    case BulkString(Some(d)) =>
      var h := j - |d| - 2;
      h >= 0 && j <= |s| && Announces(s, i, h, BULK, |d|) && s[h..h+|d|] == d
    case Array(vs) => exists h: nat, n :: Counts(n, |vs|) && Announces(s, i, h, ARRAY, n) && EncodesAll(vs, s, h, j)
  }

  /** A negative count announces an empty array. */
  predicate Counts(n: int, k: nat) { n == k || (n < 0 && k == 0) }

  ghost predicate EncodesAll(vs: seq<Value>, s: bytes, i: nat, j: nat)
    decreases vs, 0
  {
    if vs == [] then i == j
    else exists k: nat :: Encodes(vs[0], s, i, k) && EncodesAll(vs[1..], s, k, j)
  }

  lemma {:induction false} EncodesBounds(v: Value, s: bytes, i: nat, j: nat)
    requires Encodes(v, s, i, j)
    ensures i + 3 <= j <= |s|
    decreases v, 1
  {
    if v.Array? {
      var h: nat, n :| Counts(n, |v.elements|) && Announces(s, i, h, ARRAY, n) && EncodesAll(v.elements, s, h, j);
      EncodesAllBounds(v.elements, s, h, j);
    }
  }

  lemma {:induction false} EncodesAllBounds(vs: seq<Value>, s: bytes, i: nat, j: nat)
    requires EncodesAll(vs, s, i, j) && i <= |s|
    ensures i <= j <= |s| && (vs != [] ==> i + 3 <= j)
    decreases vs, 0
  {
    if vs != [] {
      var k: nat :| Encodes(vs[0], s, i, k) && EncodesAll(vs[1..], s, k, j);
      EncodesBounds(vs[0], s, i, k);
      EncodesAllBounds(vs[1..], s, k, j);
    }
  }

  /**
   The budget check precedes each line's bytes but not the byte after its CR, so an encoding
   that ends with a line may overrun the budget by one; bulk data may not.
   */
  function Slack(v: Value): (k: nat)
    ensures k <= 1
  {
    match v
    case BulkString(Some(_)) => 0
    case Array(vs) => if vs == [] then 1 else Slack(vs[|vs|-1])
    case _ => 1
  }

  // ---------------------------------------------------------------------------
  // The reader accepts exactly the grammar
  // ---------------------------------------------------------------------------

  lemma {:induction false} LineRead(s: bytes, i: nat, j: nat, max: nat)
    requires i + 2 <= j <= |s| && j <= max + 1 && s[j-2] == CR && NoCr(s[i..j-2])
    ensures ReadLine(s, i, max) == Ok(s[i..j-2], j)
    decreases j - i
  {
    if i < j - 2 {
      assert s[i..j-2][0] == s[i];
      assert s[i+1..j-2] == s[i..j-2][1..];
      LineRead(s, i + 1, j, max);
      assert [s[i]] + s[i+1..j-2] == s[i..j-2];
    }
  }

  lemma TaggedLineRead(s: bytes, i: nat, j: nat, tag: byte, text: bytes, max: nat)
    requires Line(s, i, j, tag, text) && tag != CR && j <= max + 1
    ensures ReadValue(s, i, max) == ReadPayload([tag] + text, s, j, max)
  {
    assert s[i..j-2] == [tag] + text;
    LineRead(s, i, j, max);
  }

  lemma NumberRead(s: bytes, i: nat, j: nat, tag: byte, n: int, max: nat)
    requires Announces(s, i, j, tag, n) && j <= max + 1
    ensures tag == INTEGER ==> ReadValue(s, i, max) == Ok(Integer(n), j)
    ensures tag == BULK ==> ReadValue(s, i, max) == ReadBulk(s, j, max, n)
    ensures tag == ARRAY ==> ReadValue(s, i, max) == ReadArray(s, j, max, n)
  {
    if tag != CR {
      var text := s[i+1..j-2];
      TaggedLineRead(s, i, j, tag, text, max);
      assert ([tag] + text)[1..] == text;
    }
  }

  /** Soundness: whatever the reader returns, the bytes it took encode it, within the budget. */
  lemma {:induction false} ReadValueSound(s: bytes, pos: nat, max: nat)
    requires pos <= |s| && ReadValue(s, pos, max).Ok?
    ensures var o := ReadValue(s, pos, max); Encodes(o.value, s, pos, o.pos) && o.pos <= max + Slack(o.value)
    decreases Remaining(pos, max), 1, 0
  {
    var l := ReadLine(s, pos, max);
    ReadPayloadSound(s, pos, l.pos, max);
  }

  lemma {:induction false} ReadPayloadSound(s: bytes, i: nat, pos: nat, max: nat)
    requires i + 2 <= pos <= |s| && pos <= max + 1 && NoCr(s[i..pos-2]) && s[pos-2] == CR
    requires ReadPayload(s[i..pos-2], s, pos, max).Ok?
    ensures var o := ReadPayload(s[i..pos-2], s, pos, max);
            Encodes(o.value, s, i, o.pos) && o.pos <= max + Slack(o.value)
    decreases Remaining(pos, max), 3, 0
  {
    var line := s[i..pos-2];
    var o := ReadPayload(line, s, pos, max);
    assert line[1..] == s[i+1..pos-2];
    assert Line(s, i, pos, line[0], line[1..]);
    if line[0] == ARRAY {
      ReadArraySound(s, i, pos, max, ParseI64(line[1..]).value);
    } else if line[0] == INTEGER || line[0] == BULK {
      assert Announces(s, i, pos, line[0], ParseI64(line[1..]).value);
    }
  }

  lemma {:induction false} ReadArraySound(s: bytes, i: nat, pos: nat, max: nat, n: int)
    requires pos <= |s| && pos <= max + 1 && Announces(s, i, pos, ARRAY, n) && ReadArray(s, pos, max, n).Ok?
    ensures var o := ReadArray(s, pos, max, n); Encodes(o.value, s, i, o.pos) && o.pos <= max + Slack(o.value)
    decreases Remaining(pos, max), 2, n + 1
  {
    var o := ReadArray(s, pos, max, n);
    if n >= 0 { ReadElementsSound(s, pos, max, n); }
    assert Counts(n, |o.value.elements|) && EncodesAll(o.value.elements, s, pos, o.pos);
  }

  lemma {:induction false} ReadElementsSound(s: bytes, pos: nat, max: nat, count: nat)
    requires pos <= |s| && ReadElements(s, pos, max, count).Ok?
    ensures var o := ReadElements(s, pos, max, count);
            EncodesAll(o.value, s, pos, o.pos) && (count > 0 ==> o.pos <= max + Slack(o.value[count-1]))
    decreases Remaining(pos, max), 2, count
  {
    if count > 0 {
      ReadValueSound(s, pos, max);
      var v := ReadValue(s, pos, max);
      ReadElementsSound(s, v.pos, max, count - 1);
      var o := ReadElements(s, pos, max, count);
      assert o.value[1..] == ReadElements(s, v.pos, max, count - 1).value;
    }
  }

  /** Completeness: the reader returns the value of every encoding within the budget, whatever follows it. */
  lemma {:induction false} ReadValueComplete(v: Value, s: bytes, i: nat, j: nat, max: nat)
    requires Encodes(v, s, i, j) && i <= |s| && j <= max + Slack(v)
    ensures ReadValue(s, i, max) == Ok(v, j)
    decreases v, 1
  {
    hide Utf8, ReadValue;
    match v
    case SimpleString(t) => TextRead(s, i, j, SIMPLE, t, max);
    case Error(t) => TextRead(s, i, j, ERROR, t, max);
    case Integer(n) => NumberRead(s, i, j, INTEGER, n, max);
    case BulkString(None) =>
      var n :| n < 0 && Announces(s, i, j, BULK, n);
      NumberRead(s, i, j, BULK, n, max);
    case BulkString(Some(d)) => NumberRead(s, i, j - |d| - 2, BULK, |d|, max);
    case Array(vs) => ReadArrayComplete(vs, s, i, j, max);
  }

  lemma TextRead(s: bytes, i: nat, j: nat, tag: byte, text: bytes, max: nat)
    requires Line(s, i, j, tag, text) && (tag == SIMPLE || tag == ERROR) && j <= max + 1
    ensures ReadValue(s, i, max) == Ok(if tag == SIMPLE then SimpleString(text) else Error(text), j)
  {
    TaggedLineRead(s, i, j, tag, text, max);
    assert ([tag] + text)[1..] == text;
  }

  lemma {:induction false} ReadArrayComplete(vs: seq<Value>, s: bytes, i: nat, j: nat, max: nat)
    requires Encodes(Array(vs), s, i, j) && i <= |s| && j <= max + Slack(Array(vs))
    ensures ReadValue(s, i, max) == Ok(Array(vs), j)
    decreases vs, 1
  {
    var h: nat, n :| Counts(n, |vs|) && Announces(s, i, h, ARRAY, n) && EncodesAll(vs, s, h, j);
    EncodesAllBounds(vs, s, h, j);
    NumberRead(s, i, h, ARRAY, n, max);
    ReadElementsComplete(vs, s, h, j, max);
    hide ReadValue, Announces, Encodes;
  }

  lemma {:induction false} ReadElementsComplete(vs: seq<Value>, s: bytes, i: nat, j: nat, max: nat)
    requires EncodesAll(vs, s, i, j) && i <= |s| && (vs != [] ==> j <= max + Slack(vs[|vs|-1]))
    ensures ReadElements(s, i, max, |vs|) == Ok(vs, j)
    decreases vs, 0
  {
    if vs != [] {
      var k := FirstElement(vs, s, i, j);
      hide ReadValue, Encodes, EncodesAll, ReadElements, Slack;
      ReadValueComplete(vs[0], s, i, k, max);
      assert |vs| > 1 ==> vs[1..][|vs|-2] == vs[|vs|-1];
      ReadElementsComplete(vs[1..], s, k, j, max);
      ElementsRead(vs, s, i, k, j, max);
    }
  }

  lemma FirstElement(vs: seq<Value>, s: bytes, i: nat, j: nat) returns (k: nat)
    requires vs != [] && EncodesAll(vs, s, i, j)
    ensures Encodes(vs[0], s, i, k) && EncodesAll(vs[1..], s, k, j) && i < k <= |s| && k <= j
    ensures |vs| == 1 ==> k == j
    ensures |vs| > 1 ==> k + 3 <= j
  {
    k :| Encodes(vs[0], s, i, k) && EncodesAll(vs[1..], s, k, j);
    EncodesBounds(vs[0], s, i, k);
    EncodesAllBounds(vs[1..], s, k, j);
  }

  lemma ElementsRead(vs: seq<Value>, s: bytes, i: nat, k: nat, j: nat, max: nat)
    requires vs != [] && i <= |s| && k <= |s| && ReadValue(s, i, max) == Ok(vs[0], k)
    requires ReadElements(s, k, max, |vs| - 1) == Ok(vs[1..], j)
    ensures ReadElements(s, i, max, |vs|) == Ok(vs, j)
  {
    hide ReadValue;
    assert [vs[0]] + vs[1..] == vs;
  }

  /** What a stream begins with is unambiguous: one value, one extent. */
  lemma EncodingUnique(v: Value, j: nat, w: Value, k: nat, s: bytes)
    requires Encodes(v, s, 0, j) && Encodes(w, s, 0, k)
    ensures v == w && j == k
  {
    hide ReadValue, Encodes;
    ReadValueComplete(v, s, 0, j, j + k);
    ReadValueComplete(w, s, 0, k, j + k);
  }

  /**
   A stream whose first `j` bytes encode `v` is read successfully exactly when the budget
   covers them, give or take the one unchecked byte; the reader then reports `v` and `j`.
   */
  lemma ReadExactly(v: Value, s: bytes, j: nat, max: nat)
    requires Encodes(v, s, 0, j)
    ensures ReadResponse(s, max).Ok? <==> j <= max + Slack(v)
    ensures ReadResponse(s, max).Ok? ==> ReadResponse(s, max) == Ok(v, j)
  {
    if ReadResponse(s, max).Ok? {
      ReadValueSound(s, 0, max);
      EncodingUnique(v, j, ReadResponse(s, max).value, ReadResponse(s, max).pos, s);
    } else if j <= max + Slack(v) {
      ReadValueComplete(v, s, 0, j, max);
    }
  }

  /** Success means exactly that some prefix encodes a value within the budget. */
  lemma ReadSucceedsIff(s: bytes, max: nat)
    ensures ReadResponse(s, max).Ok? <==> exists v, j: nat :: Encodes(v, s, 0, j) && j <= max + Slack(v)
  {
    hide ReadValue, Encodes;
    if ReadResponse(s, max).Ok? {
      ReadValueSound(s, 0, max);
      var o := ReadResponse(s, max);
      assert Encodes(o.value, s, 0, o.pos) && o.pos <= max + Slack(o.value);
    }
    forall v, j: nat | Encodes(v, s, 0, j) && j <= max + Slack(v) ensures ReadResponse(s, max).Ok? {
      ReadExactly(v, s, j, max);
    }
  }

  /** What kind of value is read is told by the first byte: '+', '-', ':', '$' or '*'. */
  lemma KindByTag(s: bytes, max: nat)
    requires ReadResponse(s, max).Ok?
    ensures s != []
    ensures match ReadResponse(s, max).value
            case SimpleString(_) => s[0] == 43
            case Error(_) => s[0] == 45
            case Integer(_) => s[0] == 58
            case BulkString(_) => s[0] == 36
            case Array(_) => s[0] == 42
  {
    ReadValueSound(s, 0, max);
  }

  // ---------------------------------------------------------------------------
  // The printer
  // ---------------------------------------------------------------------------

  function PrintLine(tag: byte, text: bytes): bytes { [tag] + text + [CR, LF] }

  function Print(v: Value): bytes
    decreases v, 1
  {
    match v
    case SimpleString(t) => PrintLine(SIMPLE, t)
    case Error(t) => PrintLine(ERROR, t)
    case Integer(n) => PrintLine(INTEGER, IntText(n))
    case BulkString(None) => PrintLine(BULK, IntText(-1))
    case BulkString(Some(d)) => PrintLine(BULK, NatText(|d|)) + d + [CR, LF]
    case Array(vs) => PrintLine(ARRAY, NatText(|vs|)) + PrintAll(vs)
  }

  function PrintAll(vs: seq<Value>): bytes
    decreases vs, 0
  {
    if vs == [] then [] else Print(vs[0]) + PrintAll(vs[1..])
  }

  predicate Printable(v: Value)
    decreases v, 1
  {
    match v
    case SimpleString(t) => NoCr(t) && Utf8(t)
    case Error(t) => NoCr(t) && Utf8(t)
    case Integer(n) => MIN_I64 <= n <= MAX_I64
    case BulkString(None) => true
    case BulkString(Some(d)) => |d| <= MAX_I64
    case Array(vs) => |vs| <= MAX_I64 && PrintableAll(vs)
  }

  predicate PrintableAll(vs: seq<Value>)
    decreases vs, 0
  {
    vs == [] || (Printable(vs[0]) && PrintableAll(vs[1..]))
  }

  /** `p` stands in `s` at position `i`. */
  predicate At(s: bytes, i: nat, p: bytes) { i + |p| <= |s| && s[i..i+|p|] == p }

  lemma AtSplit(s: bytes, i: nat, p: bytes, q: bytes)
    requires At(s, i, p + q)
    ensures At(s, i, p) && At(s, i + |p|, q)
  {
    assert s[i..i+|p|] == s[i..i+|p+q|][..|p|] == (p + q)[..|p|];
    assert s[i+|p|..i+|p|+|q|] == s[i..i+|p+q|][|p|..] == (p + q)[|p|..];
  }

  lemma LineParts(s: bytes, i: nat, tag: byte, text: bytes)
    requires At(s, i, PrintLine(tag, text))
    ensures At(s, i, [tag]) && At(s, i + 1, text) && At(s, i + 1 + |text|, [CR, LF])
  {
    hide At;
    AtSplit(s, i, [tag] + text, [CR, LF]);
    AtSplit(s, i, [tag], text);
  }

  lemma LinePrinted(s: bytes, i: nat, tag: byte, text: bytes)
    requires At(s, i, PrintLine(tag, text)) && NoCr(text) && Utf8(text)
    ensures Line(s, i, i + |text| + 3, tag, text)
  {
    hide Utf8, NoCr, At, PrintLine;
    LineParts(s, i, tag, text);
    AtFirst(s, i, [tag]);
    AtSlice(s, i + 1, text);
    AtFirst(s, i + 1 + |text|, [CR, LF]);
    AtSlice(s, i + 1 + |text|, [CR, LF]);
  }

  lemma AtSlice(s: bytes, i: nat, p: bytes)
    requires At(s, i, p)
    ensures i + |p| <= |s| && s[i..i+|p|] == p
  {
  }

  lemma AtFirst(s: bytes, i: nat, p: bytes)
    requires At(s, i, p) && p != []
    ensures s[i] == p[0]
  {
    assert s[i..i+|p|][0] == s[i];
  }

  lemma NumberPrinted(s: bytes, i: nat, tag: byte, n: int)
    requires MIN_I64 <= n <= MAX_I64 && At(s, i, PrintLine(tag, IntText(n)))
    ensures Announces(s, i, i + |IntText(n)| + 3, tag, n)
  {
    var t := IntText(n);
    IntTextParses(n);
    assert forall k :: 0 <= k < |t| ==> t[k] == MINUS || IsDigit(t[k]);
    AsciiIsUtf8(t);
    LinePrinted(s, i, tag, t);
  }

  lemma {:induction false} PrintEncodes(v: Value, s: bytes, i: nat)
    requires Printable(v) && At(s, i, Print(v))
    ensures Encodes(v, s, i, i + |Print(v)|)
    decreases v, 1
  {
    if v.Array? {
      PrintArrayEncodes(v.elements, s, i);
    } else {
      hide *;
      PrintScalarEncodes(v, s, i);
    }
  }

  lemma PrintScalarEncodes(v: Value, s: bytes, i: nat)
    requires !v.Array? && Printable(v) && At(s, i, Print(v))
    ensures Encodes(v, s, i, i + |Print(v)|)
  {
    hide Utf8, NatText, IntText, NoCr, At, Line, Announces;
    match v
    case SimpleString(t) => LinePrinted(s, i, SIMPLE, t);
    case Error(t) => LinePrinted(s, i, ERROR, t);
    case Integer(n) => NumberPrinted(s, i, INTEGER, n);
    case BulkString(None) => NumberPrinted(s, i, BULK, -1);
    case BulkString(Some(d)) => PrintBulkEncodes(d, s, i);
  }

  lemma {:induction false} PrintArrayEncodes(vs: seq<Value>, s: bytes, i: nat)
    requires |vs| <= MAX_I64 && PrintableAll(vs) && At(s, i, Print(Array(vs)))
    ensures Encodes(Array(vs), s, i, i + |Print(Array(vs))|)
    decreases vs, 1
  {
    hide Utf8, NatText, NoCr, At, Line, Announces, EncodesAll, PrintAll, PrintableAll;
    var l := PrintLine(ARRAY, NatText(|vs|));
    AtSplit(s, i, l, PrintAll(vs));
    NumberPrinted(s, i, ARRAY, |vs|);
    PrintAllEncodes(vs, s, i + |l|);
    assert Counts(|vs|, |vs|) && Announces(s, i, i + |l|, ARRAY, |vs|);
  }

  lemma PrintBulkEncodes(d: bytes, s: bytes, i: nat)
    requires |d| <= MAX_I64 && At(s, i, Print(BulkString(Some(d))))
    ensures Encodes(BulkString(Some(d)), s, i, i + |Print(BulkString(Some(d)))|)
  {
    hide Utf8, NatText, Announces;
    var l := PrintLine(BULK, NatText(|d|));
    assert l + d + [CR, LF] == l + (d + [CR, LF]);
    AtSplit(s, i, l, d + [CR, LF]);
    AtSplit(s, i + |l|, d, [CR, LF]);
    NumberPrinted(s, i, BULK, |d|);
  }

  lemma {:induction false} PrintAllEncodes(vs: seq<Value>, s: bytes, i: nat)
    requires PrintableAll(vs) && At(s, i, PrintAll(vs))
    ensures EncodesAll(vs, s, i, i + |PrintAll(vs)|)
    decreases vs, 0
  {
    if vs != [] {
      AtSplit(s, i, Print(vs[0]), PrintAll(vs[1..]));
      PrintEncodes(vs[0], s, i);
      PrintAllEncodes(vs[1..], s, i + |Print(vs[0])|);
    }
  }

  /**
   Any printable value tree survives the wire, with anything behind it on the stream: the
   reader returns it and its length, leaving the remainder, exactly when the budget allows.
   */
  lemma RoundTrip(v: Value, rest: bytes, max: nat)
    requires Printable(v)
    ensures ReadResponse(Print(v) + rest, max) == Ok(v, |Print(v)|) <==> |Print(v)| <= max + Slack(v)
    ensures ReadResponse(Print(v) + rest, max).Ok? <==> |Print(v)| <= max + Slack(v)
    ensures (Print(v) + rest)[|Print(v)|..] == rest
  {
    var s := Print(v) + rest;
    assert s[0..|Print(v)|] == Print(v);
    PrintEncodes(v, s, 0);
    ReadExactly(v, s, |Print(v)|, max);
  }

  // ---------------------------------------------------------------------------
  // The command encoder
  // ---------------------------------------------------------------------------

  function CommandValue(command: bytes, args: seq<bytes>): Value {
    Array([BulkString(Some(command))] + seq(|args|, i requires 0 <= i < |args| => BulkString(Some(args[i]))))
  }

  // The command as the protocol writes it, byte by byte: '*' is 42, '$' is 36, CR LF is 13 10.

  /** `n` in decimal, without a leading zero. */
  predicate Decimal(t: bytes, n: nat) {
    DigitsValue(t) == Some(n) && (|t| > 1 ==> t[0] != 48)
  }

  /** From `i` to `j`, the stream holds `tag`, the number `n` and CR LF. */
  predicate CountLine(s: bytes, i: nat, tag: int, n: nat, j: nat) {
    i + 3 <= j <= |s| && s[i] == tag && Decimal(s[i + 1..j - 2], n) && s[j - 2] == 13 && s[j - 1] == 10
  }

  /** From `i` to `j`, the stream holds `data` behind its length, ended by CR LF. */
  ghost predicate BulkOf(s: bytes, i: nat, data: bytes, j: nat) {
    exists k: nat :: CountLine(s, i, 36, |data|, k) && EndedAt(s, k, data, j)
  }

  predicate EndedAt(s: bytes, k: nat, data: bytes, j: nat) {
    j == k + |data| + 2 && j <= |s| && s[k..k + |data|] == data && s[j - 2] == 13 && s[j - 1] == 10
  }

  ghost predicate BulksOf(s: bytes, i: nat, datas: seq<bytes>, j: nat)
    decreases |datas|
  {
    if datas == [] then i == j
    else exists k: nat :: BulkOf(s, i, datas[0], k) && BulksOf(s, k, datas[1..], j)
  }

  /** The stream is an array header announcing the command and its arguments, then each of them in order. */
  ghost predicate IsCommand(s: bytes, command: bytes, args: seq<bytes>) {
    exists k: nat :: CountLine(s, 0, 42, 1 + |args|, k) && BulksOf(s, k, [command] + args, |s|)
  }

  lemma {:induction false} NatTextDecimal(n: nat)
    ensures Decimal(NatText(n), n) && (n > 0 ==> NatText(n)[0] != 48)
  {
    NatTextValue(n);
    if n >= 10 { NatTextDecimal(n / 10); }
  }

  lemma CountLineWritten(s: bytes, i: nat, tag: byte, n: nat)
    requires At(s, i, PrintLine(tag, NatText(n)))
    ensures CountLine(s, i, tag, n, i + |PrintLine(tag, NatText(n))|)
  {
    NatTextDecimal(n);
    LineParts(s, i, tag, NatText(n));
    hide NatText, Decimal;
    var j := i + |PrintLine(tag, NatText(n))|;
    assert s[i..i + 1][0] == s[i] && s[j - 2..j][0] == s[j - 2] && s[j - 2..j][1] == s[j - 1];
  }

  lemma BulkWritten(s: bytes, i: nat, d: bytes)
    requires At(s, i, Print(BulkString(Some(d))))
    ensures BulkOf(s, i, d, i + |Print(BulkString(Some(d)))|)
  {
    var l, tail := PrintLine(BULK, NatText(|d|)), Print(BulkString(Some(d)))[|PrintLine(BULK, NatText(|d|)) + d|..];
    assert Print(BulkString(Some(d))) == l + (d + tail);
    AtSplit(s, i, l, d + tail);
    AtSplit(s, i + |l|, d, tail);
    CountLineWritten(s, i, BULK, |d|);
    var k, j := i + |l|, i + |Print(BulkString(Some(d)))|;
    assert s[j - 2..j][0] == s[j - 2] && s[j - 2..j][1] == s[j - 1];
    assert EndedAt(s, k, d, j);
    hide CountLine, EndedAt, PrintLine;
  }

  function Bulks(datas: seq<bytes>): (vs: seq<Value>)
    ensures |vs| == |datas| && forall i :: 0 <= i < |vs| ==> vs[i] == BulkString(Some(datas[i]))
  {
    seq(|datas|, i requires 0 <= i < |datas| => BulkString(Some(datas[i])))
  }

  lemma {:induction false} BulksWritten(s: bytes, i: nat, datas: seq<bytes>)
    requires At(s, i, PrintAll(Bulks(datas)))
    ensures BulksOf(s, i, datas, i + |PrintAll(Bulks(datas))|)
    decreases |datas|
  {
    hide Print, At, BulkOf;
    if datas != [] {
      var vs := Bulks(datas);
      assert vs[1..] == Bulks(datas[1..]);
      AtSplit(s, i, Print(vs[0]), PrintAll(vs[1..]));
      BulkWritten(s, i, datas[0]);
      BulksWritten(s, i + |Print(vs[0])|, datas[1..]);
    }
  }

  lemma ArrayPrinted(vs: seq<Value>)
    ensures Print(Array(vs)) == PrintLine(ARRAY, NatText(|vs|)) + PrintAll(vs)
  {
  }

  lemma CommandBulks(command: bytes, args: seq<bytes>)
    ensures CommandValue(command, args) == Array(Bulks([command] + args))
  {
  }

  lemma WholeAt(s: bytes)
    ensures At(s, 0, s)
  {
    assert s[0..|s|] == s;
  }

  lemma CommandWritten(command: bytes, args: seq<bytes>)
    ensures IsCommand(Print(CommandValue(command, args)), command, args)
  {
    hide Print, PrintAll, PrintLine, CountLine, BulksOf, At, Bulks, NatText, CommandValue;
    var datas := [command] + args;
    CommandBulks(command, args);
    var body, l := PrintAll(Bulks(datas)), PrintLine(ARRAY, NatText(1 + |args|));
    ArrayPrinted(Bulks(datas));
    var s := l + body;
    WholeAt(s);
    AtSplit(s, 0, l, body);
    CountLineWritten(s, 0, ARRAY, 1 + |args|);
    BulksWritten(s, |l|, datas);
  }

  method WriteBulkString(buf: bytes, data: bytes) returns (out: bytes)
    ensures out == buf + Print(BulkString(Some(data)))
  {
    out := buf + [BULK];
    out := out + NatText(|data|);
    out := out + [CR, LF];
    out := out + data;
    out := out + [CR, LF];
  }

  lemma {:induction false} PrintAllAppend(vs: seq<Value>, v: Value)
    ensures PrintAll(vs + [v]) == PrintAll(vs) + Print(v)
  {
    if vs == [] {
      assert vs + [v] == [v];
      assert PrintAll([v]) == Print(v) + PrintAll([]);
    } else {
      assert (vs + [v])[1..] == vs[1..] + [v];
      PrintAllAppend(vs[1..], v);
    }
  }

  lemma PrintAllOne(v: Value)
    ensures PrintAll([v]) == Print(v)
  {
    assert PrintAll([v]) == Print(v) + PrintAll([]);
  }

  method EncodeCommand(command: bytes, args: seq<bytes>) returns (buf: bytes)
    ensures buf == Print(CommandValue(command, args))
    ensures IsCommand(buf, command, args)
  {
    CommandWritten(command, args);
    hide IsCommand;
    ghost var vs := CommandValue(command, args).elements;
    buf := [ARRAY];
    buf := buf + NatText(1 + |args|);
    buf := buf + [CR, LF];
    ghost var header := buf;
    assert Print(Array(vs)) == header + PrintAll(vs);
    hide Print, PrintAll, NatText;
    buf := WriteBulkString(buf, command);
    PrintAllOne(vs[0]);
    assert vs[..1] == [vs[0]];
    for i := 0 to |args|
      invariant buf == header + PrintAll(vs[..i+1])
    {
      buf := WriteBulkString(buf, args[i]);
      assert vs[..i+2] == vs[..i+1] + [vs[i+1]];
      PrintAllAppend(vs[..i+1], vs[i+1]);
    }
    assert vs[..|args|+1] == vs;
  }

  /** The reader recovers a command and its arguments, whatever bytes they hold, from the encoder's output. */
  lemma CommandRoundTrip(command: bytes, args: seq<bytes>, rest: bytes, max: nat)
    requires |command| <= MAX_I64 && |args| < MAX_I64 && forall i :: 0 <= i < |args| ==> |args[i]| <= MAX_I64
    ensures var wire := Print(CommandValue(command, args));
            ReadResponse(wire + rest, max) == Ok(CommandValue(command, args), |wire|) <==> |wire| <= max
  {
    var v := CommandValue(command, args);
    BulksPrintable(v.elements);
    RoundTrip(v, rest, max);
    assert v.elements[|args|].BulkString?;
  }

  lemma {:induction false} BulksPrintable(vs: seq<Value>)
    requires forall i :: 0 <= i < |vs| ==> vs[i].BulkString? && vs[i].data.Some? && |vs[i].data.value| <= MAX_I64
    ensures PrintableAll(vs)
  {
    if vs != [] { BulksPrintable(vs[1..]); }
  }

  // ---------------------------------------------------------------------------
  // The stream reader
  // ---------------------------------------------------------------------------

  datatype IoResult<+T> = Success(value: T) | Failure(fault: Fault)

  /** What a read returns and leaves behind; on success the running count is the bytes taken. */
  ghost predicate Agrees<T>(o: Outcome<T>, r: IoResult<T>, taken: nat, total: nat) {
    && taken == o.pos
    && match o
       case Ok(v, q) => r == Success(v) && total == q
       case Err(f, _) => r == Failure(f)
  }

  /** The line that continues `line`, if reading on succeeds. */
  function Prefixed(line: bytes, o: Outcome<bytes>): Outcome<bytes> {
    match o
    case Ok(v, q) => Ok(line + v, q)
    case Err(f, q) => Err(f, q)
  }

  function PrefixedElements(vs: seq<Value>, o: Outcome<seq<Value>>): Outcome<seq<Value>> {
    match o
    case Ok(ws, q) => Ok(vs + ws, q)
    case Err(f, q) => Err(f, q)
  }

  lemma PrefixedStep(line: bytes, b: byte, o: Outcome<bytes>)
    ensures Prefixed(line, Prefixed([b], o)) == Prefixed(line + [b], o)
  {
    if o.Ok? { assert line + ([b] + o.value) == (line + [b]) + o.value; }
  }

  lemma ElementsStep(vs: seq<Value>, v: Value, o: Outcome<seq<Value>>)
    ensures PrefixedElements(vs, PrefixedElements([v], o)) == PrefixedElements(vs + [v], o)
  {
    if o.Ok? { assert vs + ([v] + o.value) == (vs + [v]) + o.value; }
  }

  /** The stream from where the response starts: `taken` bytes are gone, `totalRead` are counted. */
  class Reader {
    const stream: bytes
    const maxBytes: nat
    var taken: nat
    var totalRead: nat

    constructor (stream: bytes, maxBytes: nat)
      ensures this.stream == stream && this.maxBytes == maxBytes && taken == 0 && totalRead == 0
    {
      this.stream, this.maxBytes, taken, totalRead := stream, maxBytes, 0, 0;
    }

    /** Takes `n` bytes, or what there is and fails. */
    method ReadExact(n: nat) returns (r: Option<bytes>)
      requires taken <= |stream|
      modifies `taken
      ensures taken <= |stream|
      ensures old(taken) + n <= |stream| ==> r == Some(stream[old(taken)..old(taken)+n]) && taken == old(taken) + n
      ensures old(taken) + n > |stream| ==> r == None && taken == |stream|
    {
      if taken + n <= |stream| {
        r := Some(stream[taken..taken+n]);
        taken := taken + n;
      } else {
        r := None;
        taken := |stream|;
      }
    }

    method NextLine() returns (r: IoResult<bytes>)
      requires taken == totalRead <= |stream|
      modifies this
      ensures Agrees(ReadLine(stream, old(taken), maxBytes), r, taken, totalRead)
    {
      var line: bytes := [];
      ghost var whole := ReadLine(stream, taken, maxBytes);
      assert whole.Ok? ==> [] + whole.value == whole.value;
      while true
        invariant taken == totalRead <= |stream|
        invariant whole == Prefixed(line, ReadLine(stream, taken, maxBytes))
        decreases |stream| - taken
      {
        if totalRead >= maxBytes {
          return Failure(InvalidData);
        }
        var one := ReadExact(1);
        if one.None? {
          return Failure(UnexpectedEof);
        }
        totalRead := totalRead + 1;
        if one.value[0] == CR {
          var nl := ReadExact(1);
          if nl.None? {
            return Failure(UnexpectedEof);
          }
          totalRead := totalRead + 1;
          assert line + [] == line;
          return Success(line);
        }
        PrefixedStep(line, one.value[0], ReadLine(stream, taken, maxBytes));
        line := line + [one.value[0]];
      }
    }

    method NextValue() returns (r: IoResult<Value>)
      requires taken == totalRead <= |stream|
      modifies this
      ensures Agrees(ReadValue(stream, old(taken), maxBytes), r, taken, totalRead)
      decreases Remaining(taken, maxBytes), 1
    {
      var l := NextLine();
      if l.Failure? {
        return Failure(l.fault);
      }
      r := NextPayload(l.value);
    }

    method NextPayload(line: bytes) returns (r: IoResult<Value>)
      requires taken == totalRead <= |stream|
      modifies this
      ensures Agrees(ReadPayload(line, stream, old(taken), maxBytes), r, taken, totalRead)
      decreases Remaining(taken, maxBytes), 3
    {
      if line == [] {
        return Failure(UnexpectedEof);
      }
      var payload := line[1..];
      if !Utf8(payload) {
        return Failure(InvalidData);
      }
      if line[0] == SIMPLE {
        return Success(SimpleString(payload));
      } else if line[0] == ERROR {
        return Success(Error(payload));
      } else if line[0] != INTEGER && line[0] != BULK && line[0] != ARRAY {
        return Failure(InvalidData);
      }
      var k := ParseI64(payload);
      if k.None? {
        return Failure(InvalidData);
      }
      if line[0] == INTEGER {
        return Success(Integer(k.value));
      } else if line[0] == BULK {
        r := NextBulk(k.value);
      } else if k.value < 0 {
        return Success(Array([]));
      } else {
        var vs := NextElements(k.value);
        r := match vs { case Success(v) => Success(Array(v)) case Failure(f) => Failure(f) };
      }
    }

    method NextBulk(len: int) returns (r: IoResult<Value>)
      requires taken == totalRead <= |stream|
      modifies this
      ensures Agrees(ReadBulk(stream, old(taken), maxBytes, len), r, taken, totalRead)
    {
      if len < 0 {
        return Success(BulkString(None));
      }
      if totalRead + len + 2 > maxBytes {
        return Failure(InvalidData);
      }
      var data := ReadExact(len + 2);
      if data.None? {
        return Failure(UnexpectedEof);
      }
      totalRead := totalRead + len + 2;
      assert data.value[..len] == stream[old(taken)..old(taken)+len];
      return Success(BulkString(Some(data.value[..len])));
    }

    method NextElements(count: nat) returns (r: IoResult<seq<Value>>)
      requires taken == totalRead <= |stream|
      modifies this
      ensures Agrees(ReadElements(stream, old(taken), maxBytes, count), r, taken, totalRead)
      decreases Remaining(taken, maxBytes), 2
    {
      var elements: seq<Value> := [];
      ghost var whole := ReadElements(stream, taken, maxBytes, count);
      assert whole.Ok? ==> [] + whole.value == whole.value;
      for i := 0 to count
        invariant taken == totalRead <= |stream| && taken >= old(taken)
        invariant whole == PrefixedElements(elements, ReadElements(stream, taken, maxBytes, count - i))
      {
        var v := NextValue();
        if v.Failure? {
          return Failure(v.fault);
        }
        ElementsStep(elements, v.value, ReadElements(stream, taken, maxBytes, count - i - 1));
        elements := elements + [v.value];
      }
      assert elements + [] == elements;
      return Success(elements);
    }
  }

  /**
   One complete response from a stream: on any bytes at all it terminates, takes at most
   `maxBytes + 1` of them, and a success reports exactly the bytes it took.
   */
  method ReadOne(stream: bytes, maxBytes: nat) returns (r: IoResult<(Value, nat)>, taken: nat)
    ensures taken <= maxBytes + 1 && taken <= |stream|
    ensures r.Success? ==> r.value.1 == taken
    ensures match ReadResponse(stream, maxBytes)
            case Ok(v, q) => r == Success((v, q)) && taken == q
            case Err(f, q) => r == Failure(f) && taken == q
  {
    var reader := new Reader(stream, maxBytes);
    var v := reader.NextValue();
    taken := reader.taken;
    r := match v { case Success(x) => Success((x, reader.totalRead)) case Failure(f) => Failure(f) };
  }
}
