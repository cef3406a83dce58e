/**
 The DNS query encoder and the test server's response builder, with the uncompressed name format of
 section 3.1 of RFC 1035 as an independent decoder.
 */
module Dns {
  import opened Wrappers
  import opened Bytes

  const DOT: byte := 46

  datatype Query = Query(name: bytes, qtype: nat, recursion: bool, dnssec: bool, txid: nat)

  // ---------------------------------------------------------------------------
  // Names
  // ---------------------------------------------------------------------------

  datatype Labels = Nil | Cons(head: bytes, tail: Labels)

  /** The pieces of a name between its dots, empty ones included. */
  function Split(name: bytes): (ls: Labels)
    ensures ls.Cons?
  {
    if name == [] then Cons([], Nil)
    else
      var ls := Split(name[1..]);
      if name[0] == DOT then Cons([], ls) else Cons([name[0]] + ls.head, ls.tail)
  }

  function Join(ls: Labels): bytes {
    match ls
    case Nil => []
    case Cons(l, Nil) => l
    case Cons(l, rest) => l + [DOT] + Join(rest)
  }

  function NonEmpty(ls: Labels): Labels {
    match ls
    case Nil => Nil
    case Cons(l, rest) => if l == [] then NonEmpty(rest) else Cons(l, NonEmpty(rest))
  }

  predicate AllWithin(ls: Labels, limit: nat) {
    ls.Cons? ==> |ls.head| <= limit && AllWithin(ls.tail, limit)
  }

  /** One label: its length cut to a byte, then its bytes; an empty label is skipped. */
  function LabelBytes(l: bytes): bytes {
    if l == [] then [] else [|l| % 256] + l
  }

  function NameBytes(ls: Labels): (b: bytes)
    ensures |b| >= 1
  {
    match ls
    case Nil => [0]
    case Cons(l, rest) => LabelBytes(l) + NameBytes(rest)
  }

  /** `b` stands at position `pos` of `q`. */
  predicate Stands(b: bytes, q: bytes, pos: nat) {
    pos + |b| <= |q| && q[pos..pos + |b|] == b
  }

  datatype Decoded = Malformed | Name(labels: Labels, end: nat)

  /** A name as the standard writes it: length octets of at most 63, then a zero octet. */
  function DecodeName(q: bytes, pos: nat): Decoded
    decreases |q| - pos
  {
    if pos >= |q| then Malformed
    else if q[pos] == 0 then Name(Nil, pos + 1)
    else if q[pos] > 63 || pos + 1 + q[pos] > |q| then Malformed
    else match DecodeName(q, pos + 1 + q[pos])
         case Malformed => Malformed
         case Name(ls, end) => Name(Cons(q[pos + 1..pos + 1 + q[pos]], ls), end)
  }

  lemma AppendLabel(buf: bytes, l: bytes, rest: bytes)
    ensures buf + (LabelBytes(l) + rest) == (if l == [] then buf else buf + [|l| % 256] + l) + rest
  {
  }

  method EncodeDomainName(buf: bytes, name: bytes) returns (out: bytes)
    ensures out == buf + NameBytes(Split(name))
  {
    hide Split, LabelBytes;
    out := buf;
    var labels := Split(name);
    while labels.Cons?
      invariant out + NameBytes(labels) == buf + NameBytes(Split(name))
      decreases labels
    {
      var piece := labels.head;
      AppendLabel(out, piece, NameBytes(labels.tail));
      if piece != [] {
        out := out + [|piece| % 256];
        out := out + piece;
      }
      labels := labels.tail;
    }
    out := out + [0];
  }

  lemma StandsApart(a: bytes, b: bytes, q: bytes, pos: nat)
    requires Stands(a + b, q, pos)
    ensures Stands(a, q, pos) && Stands(b, q, pos + |a|)
  {
    var s := q[pos..pos + |a + b|];
    assert s[..|a|] == a && s[|a|..] == b;
    assert q[pos..pos + |a|] == s[..|a|] && q[pos + |a|..pos + |a| + |b|] == s[|a|..];
  }

  lemma LabelStands(l: bytes, q: bytes, pos: nat)
    requires l != [] && Stands(LabelBytes(l), q, pos)
    ensures |LabelBytes(l)| == 1 + |l| && pos + 1 + |l| <= |q|
    ensures q[pos] == |l| % 256 && q[pos + 1..pos + 1 + |l|] == l
  {
    StandsApart([|l| % 256], l, q, pos);
    assert q[pos..pos + 1][0] == |l| % 256;
  }

  lemma Terminator(q: bytes, pos: nat)
    requires Stands(NameBytes(Nil), q, pos)
    ensures pos < |q| && q[pos] == 0
  {
    assert q[pos..pos + 1][0] == 0;
  }

  /** A label of at most 63 octets is decoded as it stands. */
  lemma DecodesFirst(l: bytes, q: bytes, pos: nat)
    requires 1 <= |l| <= 63 && Stands(LabelBytes(l), q, pos)
    ensures DecodeName(q, pos) == match DecodeName(q, pos + |LabelBytes(l)|)
                                  case Malformed => Malformed
                                  case Name(rest, end) => Name(Cons(l, rest), end)
  {
    LabelStands(l, q, pos);
    hide Stands, LabelBytes;
    assert |l| % 256 == |l|;
  }

  lemma {:induction false} DecodesWhenShort(ls: Labels, q: bytes, pos: nat)
    requires Stands(NameBytes(ls), q, pos) && AllWithin(ls, 63)
    ensures DecodeName(q, pos) == Name(NonEmpty(ls), pos + |NameBytes(ls)|)
    decreases ls
  {
    hide *;
    match ls
    case Nil => DecodesRoot(q, pos);
    case Cons(l, rest) =>
      FirstLabel(ls, q, pos, 63);
      DecodesWhenShort(rest, q, pos + |LabelBytes(l)|);
      if l != [] { DecodesFirst(l, q, pos); }
  }

  lemma DecodesRoot(q: bytes, pos: nat)
    requires Stands(NameBytes(Nil), q, pos)
    ensures DecodeName(q, pos) == Name(NonEmpty(Nil), pos + |NameBytes(Nil)|)
  {
    Terminator(q, pos);
  }

  /** What stands at the front of an encoded name, and what is left of it. */
  lemma FirstLabel(ls: Labels, q: bytes, pos: nat, limit: nat)
    requires ls.Cons? && Stands(NameBytes(ls), q, pos)
    ensures |NameBytes(ls)| == |LabelBytes(ls.head)| + |NameBytes(ls.tail)|
    ensures Stands(LabelBytes(ls.head), q, pos) && Stands(NameBytes(ls.tail), q, pos + |LabelBytes(ls.head)|)
    ensures AllWithin(ls, limit) <==> |ls.head| <= limit && AllWithin(ls.tail, limit)
    ensures ls.head == [] ==> |LabelBytes(ls.head)| == 0 && NonEmpty(ls) == NonEmpty(ls.tail)
    ensures ls.head != [] ==> NonEmpty(ls) == Cons(ls.head, NonEmpty(ls.tail))
  {
    hide Stands;
    StandsApart(LabelBytes(ls.head), NameBytes(ls.tail), q, pos);
  }

  lemma {:induction false} MisreadWhenLong(ls: Labels, q: bytes, pos: nat)
    requires Stands(NameBytes(ls), q, pos) && !AllWithin(ls, 63)
    ensures DecodeName(q, pos).Name? ==> DecodeName(q, pos).labels != NonEmpty(ls)
    decreases ls
  {
    assert ls.Cons?;
    hide *;
    var l, rest := ls.head, ls.tail;
    FirstLabel(ls, q, pos, 63);
    if |l| > 63 {
      ShortLabels(q, pos);
    } else {
      MisreadWhenLong(rest, q, pos + |LabelBytes(l)|);
      if l != [] { DecodesFirst(l, q, pos); }
    }
  }

  /** No decoded name begins with a label of more than 63 octets. */
  lemma ShortLabels(q: bytes, pos: nat)
    ensures DecodeName(q, pos).Name? && DecodeName(q, pos).labels.Cons? ==> |DecodeName(q, pos).labels.head| <= 63
  {
  }

  /**
   Wherever an encoded name stands, the standard's decoder gives its nonempty labels back if and
   only if none is longer than 63 octets.
   */
  lemma NameRoundTrip(name: bytes, q: bytes, pos: nat)
    requires Stands(NameBytes(Split(name)), q, pos)
    ensures AllWithin(Split(name), 63) <==>
            DecodeName(q, pos).Name? && DecodeName(q, pos).labels == NonEmpty(Split(name))
  {
    hide *;
    if AllWithin(Split(name), 63) {
      DecodesWhenShort(Split(name), q, pos);
    } else {
      MisreadWhenLong(Split(name), q, pos);
    }
  }

  predicate Dotless(ls: Labels) { ls.Cons? ==> DOT !in ls.head && Dotless(ls.tail) }

  /** Splitting cuts at every dot and loses nothing. */
  lemma {:induction false} JoinSplit(name: bytes)
    ensures Join(Split(name)) == name && Dotless(Split(name))
  {
    if name != [] {
      JoinSplit(name[1..]);
      assert name == [name[0]] + name[1..];
      JoinDot(Split(name[1..]));
      JoinCons(name[0], Split(name[1..]));
    }
  }

  lemma JoinDot(ls: Labels)
    requires ls.Cons?
    ensures Join(Cons([], ls)) == [DOT] + Join(ls)
  {
    JoinUnfold(Cons([], ls));
    hide *;
    assert [] + [DOT] == [DOT];
  }

  lemma JoinCons(c: byte, ls: Labels)
    requires ls.Cons?
    ensures Join(Cons([c] + ls.head, ls.tail)) == [c] + Join(ls)
  {
    hide *;
    JoinUnfold(Cons([c] + ls.head, ls.tail));
    JoinUnfold(ls);
    if ls.tail.Cons? {
      Reassociate([c], ls.head, [DOT], Join(ls.tail));
    }
  }

  lemma Reassociate(a: bytes, b: bytes, c: bytes, d: bytes)
    ensures a + b + c + d == a + (b + c + d)
  {
  }

  lemma JoinUnfold(ls: Labels)
    requires ls.Cons?
    ensures Join(ls) == if ls.tail.Nil? then ls.head else ls.head + [DOT] + Join(ls.tail)
  {
  }

  // ---------------------------------------------------------------------------
  // Queries
  // ---------------------------------------------------------------------------

  const OPT_RECORD: bytes := [0, 0, 41, 16, 0, 0, 0, 128, 0, 0, 0]

  /** The question section of section 4.1.2 of RFC 1035. */
  function Question(q: Query): bytes {
    NameBytes(Split(q.name)) + BigEndian(q.qtype, 2) + [0, 1]
  }

  /** The header of section 4.1.1 of RFC 1035, with the given ID. */
  function QueryHeader(q: Query, id: nat): (h: bytes)
    ensures |h| == 12
  {
    BigEndian(id, 2) + [if q.recursion then 1 else 0, 0, 0, 1, 0, 0, 0, 0, 0, if q.dnssec then 1 else 0]
  }

  function QueryBytes(q: Query, id: nat): bytes {
    QueryHeader(q, id) + Question(q) + if q.dnssec then OPT_RECORD else []
  }

  function QueryId(q: Query, random: nat): nat { if q.txid != 0 then q.txid else random }

  method EncodeHeader(q: Query, id: nat) returns (buf: bytes)
    ensures buf == QueryHeader(q, id)
  {
    hide BigEndian;
    buf := BigEndian(id, 2);
    buf := buf + (if q.recursion then [1, 0] else [0, 0]);
    buf := buf + [0, 1];
    buf := buf + [0, 0];
    buf := buf + [0, 0];
    buf := buf + (if q.dnssec then [0, 1] else [0, 0]);
  }

  method EncodeOpt(buf: bytes) returns (out: bytes)
    ensures out == buf + OPT_RECORD
  {
    out := buf + [0];
    out := out + [0, 41];
    out := out + [16, 0];
    out := out + [0];
    out := out + [0];
    out := out + [128, 0];
    out := out + [0, 0];
  }

  function U16(m: bytes, i: nat): nat
    requires i + 1 < |m|
  {
    var high: nat := m[i];
    256 * high + m[i + 1]
  }

  /** The transaction ID, given or drawn, modulo the width of its field. */
  predicate HasId(q: Query, random: nat, m: bytes) {
    |m| >= 2 && (q.txid != 0 ==> U16(m, 0) == q.txid % 65536) && (q.txid == 0 ==> U16(m, 0) == random % 65536)
  }

  /** The header of section 4.1.1 of RFC 1035, field by field. */
  predicate HeaderFields(m: bytes, response: bool, recursion: bool, answers: nat, additional: nat) {
    && |m| >= 12
    && m[2] / 128 == (if response then 1 else 0)   // QR
    && m[2] % 128 == (if recursion then 1 else 0)  // opcode, AA and TC are zero; RD
    && m[3] == (if response then 128 else 0)       // RA; no error
    && U16(m, 4) == 1 && U16(m, 6) == answers && U16(m, 8) == 0 && U16(m, 10) == additional
  }

  /** The OPT record of section 6.1 of RFC 6891: root name, type 41, 4096 octets, version 0, the DO bit, no options. */
  predicate OptFields(m: bytes, e: nat) {
    && |m| == e + 11 && m[e] == 0 && U16(m, e + 1) == 41 && U16(m, e + 3) == 4096
    && m[e + 5] == 0 && m[e + 6] == 0 && U16(m, e + 7) == 0x8000 && U16(m, e + 9) == 0
  }

  /** A query for the name, type and class IN, with an OPT record exactly for DNSSEC. */
  predicate IsQuery(q: Query, random: nat, m: bytes) {
    var n := |NameBytes(Split(q.name))|;
    && HasId(q, random, m) && HeaderFields(m, false, q.recursion, 0, if q.dnssec then 1 else 0)
    && |m| >= n + 16 && m[12..n + 12] == NameBytes(Split(q.name))
    && U16(m, n + 12) == q.qtype % 65536 && U16(m, n + 14) == 1
    && if q.dnssec then OptFields(m, n + 16) else |m| == n + 16
  }

  lemma TwoOctets(n: nat)
    ensures |BigEndian(n, 2)| == 2 && U16(BigEndian(n, 2), 0) == n % 65536
  {
    assert BigEndian(n / 256, 1) == BigEndian(n / 256 / 256, 0) + [n / 256 % 256];
    assert BigEndian(n, 2) == [n / 256 % 256, n % 256];
  }

  lemma QueryRead(q: Query, random: nat)
    ensures IsQuery(q, random, QueryBytes(q, QueryId(q, random)))
  {
    var id := QueryId(q, random);
    TwoOctets(id);
    TwoOctets(q.qtype);
    var m, name := QueryBytes(q, id), NameBytes(Split(q.name));
    hide BigEndian, NameBytes, Split;
    var n := |name|;
    assert m[..12] == QueryHeader(q, id) && m[12..n + 12] == name;
    assert m[n + 12..n + 14] == BigEndian(q.qtype, 2);
    assert m[0] == BigEndian(id, 2)[0] && m[1] == BigEndian(id, 2)[1];
    assert m[n + 12] == BigEndian(q.qtype, 2)[0] && m[n + 13] == BigEndian(q.qtype, 2)[1];
    if q.dnssec {
      assert m[n + 16..] == OPT_RECORD;
      assert forall k :: 0 <= k < 11 ==> m[n + 16 + k] == OPT_RECORD[k];
    }
  }

  /** `random` is the transaction ID drawn when the specification leaves it at zero. */
  method EncodeQuery(q: Query, random: nat) returns (buf: bytes)
    ensures buf == QueryBytes(q, QueryId(q, random))
    ensures IsQuery(q, random, buf)
  {
    QueryRead(q, random);
    hide IsQuery, BigEndian, NameBytes, Split, QueryHeader;
    var id := if q.txid != 0 then q.txid else random;
    buf := EncodeHeader(q, id);
    buf := EncodeDomainName(buf, q.name);
    buf := buf + BigEndian(q.qtype, 2);
    buf := buf + [0, 1];
    assert buf == QueryHeader(q, id) + Question(q);
    if q.dnssec {
      buf := EncodeOpt(buf);
    }
  }

  function ParseRcode(r: bytes): byte { if |r| < 4 then 255 else r[3] % 16 }

  function ParseTxid(r: bytes): Option<nat> {
    if |r| < 2 then None else Some(FromBigEndian(r[..2]))
  }

  // ---------------------------------------------------------------------------
  // Responses
  // ---------------------------------------------------------------------------

  const ANSWER: bytes := [192, 12, 0, 1, 0, 1, 0, 0, 0, 60, 0, 4, 127, 0, 0, 1]

  /** Where following length octets from `pos` first meets a zero octet or runs off the message. */
  function SkipName(q: bytes, pos: nat): nat
    decreases if pos < |q| then |q| - pos else 0
  {
    if pos < |q| && q[pos] != 0 then SkipName(q, pos + 1 + q[pos]) else pos
  }

  function QuestionEnd(q: bytes): (end: nat)
    requires |q| >= 12
    ensures 12 <= end <= |q|
  {
    SkipNameForward(q, 12);
    var pos := SkipName(q, 12) + 5;
    if pos < |q| then pos else |q|
  }

  lemma {:induction false} SkipNameForward(q: bytes, pos: nat)
    ensures SkipName(q, pos) >= pos
    decreases if pos < |q| then |q| - pos else 0
  {
    if pos < |q| && q[pos] != 0 { SkipNameForward(q, pos + 1 + q[pos]); }
  }

  function ResponseHeader(q: bytes): (h: bytes)
    requires |q| >= 12
    ensures |h| == 12
  {
    q[..2] + [128 + q[2] % 2, 128, 0, 1, 0, 1, 0, 0, 0, 0]
  }

  /** One answer at `e`: its name a pointer to offset 12, type A, class IN, 60 seconds, 127.0.0.1. */
  predicate AnswerFields(r: bytes, e: nat) {
    && |r| == e + 16 && U16(r, e) == 0xC000 + 12 && U16(r, e + 2) == 1 && U16(r, e + 4) == 1
    && U16(r, e + 6) == 0 && U16(r, e + 8) == 60 && U16(r, e + 10) == 4
    && r[e + 12] == 127 && r[e + 13] == 0 && r[e + 14] == 0 && r[e + 15] == 1
  }

  /** A response to `q`: its ID and recursion bit, no error, its question and one answer. */
  predicate IsAnswer(q: bytes, r: bytes)
    requires |q| >= 12
  {
    var e := QuestionEnd(q);
    && HeaderFields(r, true, q[2] % 2 == 1, 1, 0) && r[..2] == q[..2]
    && e <= |r| && r[12..e] == q[12..e] && AnswerFields(r, e)
  }

  lemma HeaderRead(q: bytes)
    requires |q| >= 12
    ensures HeaderFields(ResponseHeader(q), true, q[2] % 2 == 1, 1, 0) && ResponseHeader(q)[..2] == q[..2]
  {
  }

  lemma HeaderFirst(h: bytes, rest: bytes, response: bool, recursion: bool, answers: nat, additional: nat)
    requires |h| == 12 && HeaderFields(h, response, recursion, answers, additional)
    ensures HeaderFields(h + rest, response, recursion, answers, additional) && (h + rest)[..2] == h[..2]
  {
    assert forall k :: 0 <= k < 12 ==> (h + rest)[k] == h[k];
  }

  lemma AnswerLast(s: bytes)
    ensures AnswerFields(s + ANSWER, |s|)
  {
    assert forall k :: 0 <= k < 16 ==> (s + ANSWER)[|s| + k] == ANSWER[k];
  }

  lemma AnswerRead(q: bytes)
    requires |q| >= 12
    ensures IsAnswer(q, ResponseHeader(q) + q[12..QuestionEnd(q)] + ANSWER)
  {
    hide QuestionEnd, HeaderFields, AnswerFields, ResponseHeader, ANSWER;
    var e, h, question := QuestionEnd(q), ResponseHeader(q), q[12..QuestionEnd(q)];
    HeaderRead(q);
    HeaderFirst(h, question + ANSWER, true, q[2] % 2 == 1, 1, 0);
    AnswerLast(h + question);
    assert h + question + ANSWER == h + (question + ANSWER);
    assert (h + question + ANSWER)[12..e] == question;
  }

  method BuildHeader(q: bytes) returns (r: bytes)
    requires |q| >= 12
    ensures r == ResponseHeader(q)
  {
    r := q[0..2];
    var rd := q[2] % 2;
    r := r + [128 + rd];
    r := r + [128];
    r := r + [0, 1];
    r := r + [0, 1];
    r := r + [0, 0];
    r := r + [0, 0];
  }

  method AppendAnswer(s: bytes) returns (r: bytes)
    ensures r == s + ANSWER
  {
    r := s + [192, 12];
    r := r + [0, 1];
    r := r + [0, 1];
    r := r + [0, 0, 0, 60];
    r := r + [0, 4];
    r := r + [127, 0, 0, 1];
  }

  /** Every caller has received at least the 12 header bytes. */
  method BuildResponse(q: bytes) returns (r: bytes)
    requires |q| >= 12
    ensures r == ResponseHeader(q) + q[12..QuestionEnd(q)] + ANSWER
    ensures |r| <= |q| + 16
    ensures IsAnswer(q, r)
  {
    AnswerRead(q);
    hide IsAnswer, ResponseHeader;
    r := BuildHeader(q);
    var pos := 12;
    while pos < |q| && q[pos] != 0
      invariant pos >= 12 && SkipName(q, pos) == SkipName(q, 12)
    {
      pos := pos + 1 + q[pos];
    }
    pos := pos + 1;
    pos := pos + 4;
    var end := if pos < |q| then pos else |q|;
    r := r + q[12..end];
    r := AppendAnswer(r);
  }

  // ---------------------------------------------------------------------------
  // Agreement
  // ---------------------------------------------------------------------------

  lemma SkipsRoot(q: bytes, pos: nat)
    requires Stands(NameBytes(Nil), q, pos)
    ensures SkipName(q, pos) == pos + |NameBytes(Nil)| - 1
  {
    Terminator(q, pos);
  }

  lemma SkipsFirst(l: bytes, q: bytes, pos: nat)
    requires |l| <= 255 && Stands(LabelBytes(l), q, pos)
    ensures SkipName(q, pos) == SkipName(q, pos + |LabelBytes(l)|)
  {
    if l != [] {
      LabelStands(l, q, pos);
      hide Stands, LabelBytes;
      assert |l| % 256 == |l|;
    }
  }

  /** The server's walk ends on the terminator of an encoded name whose labels fit their octet. */
  lemma {:induction false} SkipsEncodedName(ls: Labels, q: bytes, pos: nat)
    requires Stands(NameBytes(ls), q, pos) && AllWithin(ls, 255)
    ensures SkipName(q, pos) == pos + |NameBytes(ls)| - 1
    decreases ls
  {
    hide *;
    match ls
    case Nil => SkipsRoot(q, pos);
    case Cons(l, rest) =>
      FirstLabel(ls, q, pos, 255);
      SkipsFirst(l, q, pos);
      SkipsEncodedName(rest, q, pos + |LabelBytes(l)|);
  }

  lemma QuestionStands(q: Query, id: nat)
    ensures Stands(NameBytes(Split(q.name)), QueryBytes(q, id), 12)
    ensures Stands(Question(q), QueryBytes(q, id), 12)
    ensures QueryBytes(q, id)[..12] == QueryHeader(q, id)
  {
    hide NameBytes, Split, QueryHeader;
    var b, n := QueryBytes(q, id), NameBytes(Split(q.name));
    assert b[12..12 + |Question(q)|] == Question(q);
    assert Question(q) == n + (BigEndian(q.qtype, 2) + [0, 1]);
    StandsApart(n, BigEndian(q.qtype, 2) + [0, 1], b, 12);
  }

  lemma QuestionEndOfQuery(q: Query, id: nat)
    requires AllWithin(Split(q.name), 255)
    ensures |QueryBytes(q, id)| >= 12 && QuestionEnd(QueryBytes(q, id)) == 12 + |Question(q)|
  {
    QuestionStands(q, id);
    SkipsEncodedName(Split(q.name), QueryBytes(q, id), 12);
  }

  /**
   The response to an encoded query repeats its ID, reports no error, copies exactly its question
   and appends the answer, with or without the OPT record, for every name whose labels fit an octet.
   */
  lemma ResponseAgrees(q: Query, id: nat)
    requires AllWithin(Split(q.name), 255) && id < 65536
    ensures |QueryBytes(q, id)| >= 12
    ensures var b := QueryBytes(q, id);
            var r := ResponseHeader(b) + b[12..QuestionEnd(b)] + ANSWER;
            && r == BigEndian(id, 2) + [if q.recursion then 129 else 128, 128, 0, 1, 0, 1, 0, 0, 0, 0] + Question(q) + ANSWER
            && ParseTxid(r) == Some(id)
            && ParseRcode(r) == 0
  {
    QuestionStands(q, id);
    QuestionEndOfQuery(q, id);
    HeaderAgrees(q, id);
    hide Question, QueryBytes, QuestionEnd, AllWithin, BigEndian, FromBigEndian;
    assert Pow256(2) == 65536;
    BigEndianInverse(id, 2);
    var b := QueryBytes(q, id);
    var r := ResponseHeader(b) + b[12..QuestionEnd(b)] + ANSWER;
    assert b[12..QuestionEnd(b)] == Question(q);
    assert r[..2] == BigEndian(id, 2);
  }

  lemma HeaderAgrees(q: Query, id: nat)
    ensures |QueryBytes(q, id)| >= 12
    ensures ResponseHeader(QueryBytes(q, id)) ==
            BigEndian(id, 2) + [if q.recursion then 129 else 128, 128, 0, 1, 0, 1, 0, 0, 0, 0]
  {
    hide Question, BigEndian;
    var b, h := QueryBytes(q, id), QueryHeader(q, id);
    assert b[..2] == h[..2] == BigEndian(id, 2);
    assert b[2] == h[2];
  }

  lemma {:induction false} WithinMore(ls: Labels, a: nat, b: nat)
    requires AllWithin(ls, a) && a <= b
    ensures AllWithin(ls, b)
    decreases ls
  {
    if ls.Cons? { WithinMore(ls.tail, a, b); }
  }

  /** The answer's compression pointer, 12, is where the response spells the name asked for. */
  lemma AnswerNamesQuestion(q: Query, id: nat)
    requires AllWithin(Split(q.name), 63)
    ensures |QueryBytes(q, id)| >= 12
    ensures var b := QueryBytes(q, id);
            var r := ResponseHeader(b) + b[12..QuestionEnd(b)] + ANSWER;
            DecodeName(r, 12) == Name(NonEmpty(Split(q.name)), 12 + |NameBytes(Split(q.name))|)
  {
    WithinMore(Split(q.name), 63, 255);
    hide *;
    QuestionStands(q, id);
    QuestionEndOfQuery(q, id);
    var b := QueryBytes(q, id);
    var h := ResponseHeader(b);
    StandsBetween(h, b[12..QuestionEnd(b)], ANSWER);
    NameInQuestion(q, h + b[12..QuestionEnd(b)] + ANSWER, b);
    DecodesWhenShort(Split(q.name), h + b[12..QuestionEnd(b)] + ANSWER, 12);
  }

  lemma StandsBetween(a: bytes, b: bytes, c: bytes)
    ensures Stands(b, a + b + c, |a|)
  {
  }

  lemma NameInQuestion(q: Query, r: bytes, b: bytes)
    requires |b| >= 12 && QuestionEnd(b) == 12 + |Question(q)| && Stands(Question(q), b, 12)
    requires Stands(b[12..QuestionEnd(b)], r, 12)
    ensures Stands(NameBytes(Split(q.name)), r, 12)
  {
    hide NameBytes, Split, QuestionEnd;
    var n := NameBytes(Split(q.name));
    assert b[12..QuestionEnd(b)] == Question(q);
    assert Question(q) == n + (BigEndian(q.qtype, 2) + [0, 1]);
    StandsApart(n, BigEndian(q.qtype, 2) + [0, 1], r, 12);
  }
}
