/**
 The UDP loss tracker: a ring of 64 words of 64 bits in which a set bit means that the response to
 that sequence number has arrived. A word is the set of its set bits, so that masking, clearing and
 counting ones are intersection, difference and cardinality. Old packets are evicted a word at a time.
 */
module LossTracker {

  type Word = set<nat>

  const WORDS: nat := 64
  const WINDOW: nat := 4096

  function Min(a: nat, b: nat): nat { if a < b then a else b }

  function Monus(a: nat, b: nat): nat { if a < b then 0 else a - b }

  /** `n` ones from bit `start` on. */
  function Mask(start: nat, n: nat): (m: Word)
    ensures forall b :: b in m <==> start <= b < start + n
  {
    if n == 0 then {} else Mask(start, n - 1) + {start + n - 1}
  }

  /** How many of the `n` sequence numbers from `from` on are not in `received`. */
  function Missing(received: set<nat>, from: nat, n: nat): (m: nat)
    ensures m <= n
  {
    if n == 0 then 0 else Missing(received, from, n - 1) + if from + n - 1 in received then 0 else 1
  }

  /** The sequence number that ring position `p` stands for. */
  function SeqAt(base: nat, head: nat, p: nat): nat
    requires head < WINDOW && p < WINDOW
  {
    if p >= head then base + p - head else base + p + WINDOW - head
  }

  predicate Bit(ring: seq<Word>, p: nat)
    requires |ring| == WORDS && p < WINDOW
  {
    p % 64 in ring[p / 64]
  }

  /** The ring position of `number`, for numbers inside the window. */
  function Slot(base: nat, head: nat, number: nat): (p: nat)
    requires base <= number
    ensures p < WINDOW
  {
    (head + number - base) % WINDOW
  }

  function WithBit(ring: seq<Word>, p: nat): seq<Word>
    requires |ring| == WORDS && p < WINDOW
  {
    ring[p / 64 := ring[p / 64] + {p % 64}]
  }

  predicate Shaped(ring: seq<Word>) {
    |ring| == WORDS && forall w, b :: 0 <= w < WORDS && b in ring[w] ==> b < 64
  }

  /** The ring shows the received numbers from `floor` on. */
  predicate Mirrors(ring: seq<Word>, base: nat, head: nat, received: set<nat>, floor: nat) {
    && Shaped(ring) && head < WINDOW
    && forall p :: 0 <= p < WINDOW ==> (Bit(ring, p) <==> SeqAt(base, head, p) in received && SeqAt(base, head, p) >= floor)
  }

  // ---------------------------------------------------------------------------
  // Counting
  // ---------------------------------------------------------------------------

  lemma MaskNone(word: Word, start: nat)
    ensures |word * Mask(start, 0)| == 0
  {
    assert word * Mask(start, 0) == {};
  }

  lemma MaskStep(word: Word, start: nat, n: nat)
    requires n > 0
    ensures |word * Mask(start, n)| == |word * Mask(start, n - 1)| + if start + n - 1 in word then 1 else 0
  {
    var b := start + n - 1;
    var more, less := word * Mask(start, n), word * Mask(start, n - 1);
    hide Mask;
    if b in word {
      assert more == less + {b};
    } else {
      assert more == less;
    }
  }

  /** The bits from `start` on tell which numbers from `from` on are received. */
  predicate Matches(word: Word, start: nat, n: nat, received: set<nat>, from: nat) {
    forall b :: start <= b < start + n ==> (b in word <==> from + (b - start) in received)
  }

  lemma MatchesStep(word: Word, start: nat, n: nat, received: set<nat>, from: nat)
    requires n > 0 && Matches(word, start, n, received, from)
    ensures Matches(word, start, n - 1, received, from)
    ensures start + n - 1 in word <==> from + n - 1 in received
  {
  }

  lemma {:induction false} CountBits(word: Word, start: nat, n: nat, received: set<nat>, from: nat)
    requires Matches(word, start, n, received, from)
    ensures |word * Mask(start, n)| == n - Missing(received, from, n)
  {
    hide Matches, Mask;
    if n == 0 {
      MaskNone(word, start);
    } else {
      MatchesStep(word, start, n, received, from);
      CountBits(word, start, n - 1, received, from);
      MaskStep(word, start, n);
    }
  }

  lemma {:induction false} MissingSplit(received: set<nat>, from: nat, a: nat, b: nat)
    ensures Missing(received, from, a + b) == Missing(received, from, a) + Missing(received, from + a, b)
  {
    if b > 0 { MissingSplit(received, from, a, b - 1); }
  }

  lemma {:induction false} MissingSame(r: set<nat>, s: set<nat>, from: nat, n: nat)
    requires forall q :: from <= q < from + n ==> (q in r <==> q in s)
    ensures Missing(r, from, n) == Missing(s, from, n)
  {
    if n > 0 { MissingSame(r, s, from, n - 1); }
  }

  /** Below any bound on the received numbers, each number is received or missing. */
  lemma {:induction false} ReceivedOrMissing(received: set<nat>, n: nat)
    requires forall q :: q in received ==> q < n
    ensures |received| + Missing(received, 0, n) == n
  {
    if n == 0 {
      assert received == {};
    } else {
      var q := n - 1;
      var rest := received - {q};
      ReceivedOrMissing(rest, n - 1);
      MissingSame(received, rest, 0, n - 1);
      if q in received { assert received == rest + {q}; } else { assert received == rest; }
    }
  }

  // ---------------------------------------------------------------------------
  // The tracker
  // ---------------------------------------------------------------------------

  class Tracker {
    var base: nat
    var head: nat
    const ring: array<Word>
    var totalSent: nat
    var totalReceived: nat
    var totalLost: nat
    var snapSent: nat
    var snapReceived: nat
    var snapLost: nat
    /** Every number accepted by `OnReceive`, duplicates and late arrivals apart. */
    ghost var received: set<nat>

    constructor ()
      ensures Valid() && fresh(ring) && totalSent == 0 && base == 0 && received == {}
      ensures snapSent == snapReceived == snapLost == 0
    {
      ring := new Word[WORDS](_ => {});
      base, head, totalSent, totalReceived, totalLost, snapSent, snapReceived, snapLost := 0, 0, 0, 0, 0, 0, 0, 0;
      received := {};
    }

    /**
     The ring shows exactly what was received within the window, only sent packets were received,
     and the lost count is the number of packets behind the window that never arrived.
     */
    ghost predicate Valid()
      reads this, ring
    {
      && ring.Length == WORDS && Mirrors(ring[..], base, head, received, base)
      && (forall q :: q in received ==> q < base + WINDOW && q < totalSent)
      && base <= totalSent
      && totalReceived == |received|
      && totalLost == Missing(received, 0, base)
      && snapSent <= totalSent && snapReceived <= totalReceived && snapLost <= totalLost
    }

    method OnSend() returns (number: nat)
      requires Valid()
      modifies `totalSent
      ensures Valid() && number == old(totalSent) && totalSent == old(totalSent) + 1
    {
      number := totalSent;
      totalSent := totalSent + 1;
    }

    method TakeDeltas() returns (sent: nat, arrived: nat, lost: nat)
      requires Valid()
      modifies `snapSent, `snapReceived, `snapLost
      ensures Valid() && snapSent == totalSent && snapReceived == totalReceived && snapLost == totalLost
      ensures old(snapSent) + sent == totalSent && old(snapReceived) + arrived == totalReceived && old(snapLost) + lost == totalLost
    {
      sent, arrived, lost := totalSent - snapSent, totalReceived - snapReceived, totalLost - snapLost;
      snapSent, snapReceived, snapLost := totalSent, totalReceived, totalLost;
    }

    /** Every packet sent is received, lost, or still awaited within the window. */
    lemma Conserved()
      requires Valid()
      ensures totalSent == totalReceived + totalLost + Missing(received, base, totalSent - base)
    {
      hide Missing, Mirrors;
      ReceivedOrMissing(received, totalSent);
      MissingSplit(received, 0, base, totalSent - base);
    }

    /**
     A response to number `number` arrives. The accounting stays exact if and only if the number is
     behind the window, where it is ignored, or was sent and lies less than two windows past the base.
     */
    method OnReceive(number: nat)
      requires Valid()
      modifies `base, `head, `totalReceived, `totalLost, `received, ring
      ensures received == if number < old(base) then old(received) else old(received) + {number}
      ensures Valid() <==> number < old(base) || (number < totalSent && number < old(base) + 2 * WINDOW)
      ensures base == if number < old(base) + WINDOW then old(base)
                      else if number < old(base) + 2 * WINDOW then number - WINDOW + 1
                      else old(base) + WINDOW
      ensures ring.Length == WORDS && head < WINDOW && (number >= base ==> Bit(ring[..], Slot(base, head, number)))
    {
      hide Mirrors, Missing, Slot, WithBit, Bit;
      MirrorsShape(ring[..], base, head, received, base);
      if number < base { return; }
      MakeRoom(number);
      MirrorsShape(ring[..], base, head, received, base);
      Arrived(ring[..], base, head, received, number);
      Mark(Slot(base, head, number));
      received := received + {number};
    }

    /** Moves the window up to `number`, as far as one advance reaches. */
    method MakeRoom(number: nat)
      requires Valid() && number >= base
      modifies `base, `head, `totalLost, ring
      ensures base == if number < old(base) + WINDOW then old(base)
                      else if number < old(base) + 2 * WINDOW then number - WINDOW + 1
                      else old(base) + WINDOW
      ensures Mirrors(ring[..], base, head, received, base)
      ensures base <= totalSent ==> totalLost == Missing(received, 0, base) >= old(totalLost)
    {
      hide Mirrors, Missing;
      var offset := number - base;
      if offset >= WINDOW {
        MissingSplit(received, 0, base, Min(offset - WINDOW + 1, WINDOW));
        Advance(offset - WINDOW + 1);
      }
    }

    /** Sets the bit at ring position `p`, counting it if it was clear. */
    method Mark(p: nat)
      requires ring.Length == WORDS && p < WINDOW
      modifies `totalReceived, ring
      ensures ring[..] == WithBit(old(ring[..]), p)
      ensures totalReceived == old(totalReceived) + if Bit(old(ring[..]), p) then 0 else 1
    {
      var word, bit := p / 64, p % 64;
      if bit !in ring[word] {
        ring[word] := ring[word] + {bit};
        totalReceived := totalReceived + 1;
      } else {
        assert ring[word] + {bit} == ring[word];
      }
    }

    /** Evicts the bits of one word that lie in the mask, counting the absent ones that were sent. */
    method EvictWord(word: nat, start: nat, n: nat, from: nat)
      requires ring.Length == WORDS && Shaped(ring[..]) && word < WORDS && 1 <= n && start + n <= 64
      modifies `totalLost, ring
      ensures ring[..] == old(ring[..])[word := old(ring[word]) - Mask(start, n)]
      ensures totalLost == old(totalLost) + Monus(Min(n, Monus(totalSent, from)), |old(ring[word]) * Mask(start, n)|)
    {
      if start == 0 && n == 64 {
        assert ring[word] * Mask(0, 64) == ring[word] && ring[word] - Mask(0, 64) == {};
        var present := |ring[word]|;
        var expected := Min(64, Monus(totalSent, from));
        totalLost := totalLost + Monus(expected, present);
        ring[word] := {};
      } else {
        var mask := Mask(start, n);
        var present := |ring[word] * mask|;
        var expected := Min(n, Monus(totalSent, from));
        totalLost := totalLost + Monus(expected, present);
        ring[word] := ring[word] - mask;
      }
    }

    /** Evicts up to the end of the word at `pos`, `done` steps past the head. */
    method EvictChunk(pos: nat, from: nat, remaining: nat, ghost done: nat) returns (n: nat)
      requires ring.Length == WORDS && head < WINDOW && remaining >= 1 && done + remaining <= WINDOW
      requires pos == PositionOf(head, done) && from == base + done && Mirrors(ring[..], base, head, received, from)
      modifies `totalLost, ring
      ensures 1 <= n <= remaining && (pos + n) % WINDOW == PositionOf(head, done + n)
      ensures Mirrors(ring[..], base, head, received, from + n)
      ensures from + n <= totalSent ==> totalLost == old(totalLost) + Missing(received, from, n)
    {
      hide Mirrors, Missing, Mask, PositionOf;
      n := Min(64 - pos % 64, remaining);
      Evicted(ring[..], base, head, received, done, n);
      NextPosition(head, done, n);
      EvictWord(pos / 64, pos % 64, n, from);
    }

    /** Slides the window forward by `count`, but never by more than its width. */
    method Advance(count: nat)
      requires ring.Length == WORDS && Mirrors(ring[..], base, head, received, base)
      requires forall q :: q in received ==> q < base + WINDOW
      modifies `base, `head, `totalLost, ring
      ensures base == old(base) + Min(count, WINDOW)
      ensures Mirrors(ring[..], base, head, received, base)
      ensures base <= totalSent ==> totalLost == old(totalLost) + Missing(received, old(base), Min(count, WINDOW))
    {
      assert head < WINDOW;
      hide Mirrors, Missing, PositionOf;
      var slide := Min(count, WINDOW);
      var pos := head;
      var from := base;
      var remaining := slide;
      while remaining > 0
        invariant 0 <= remaining <= slide <= WINDOW && from == base + slide - remaining
        invariant base == old(base) && head == old(head) < WINDOW && pos == PositionOf(head, slide - remaining)
        invariant Mirrors(ring[..], base, head, received, from)
        invariant base + slide <= totalSent ==> totalLost == old(totalLost) + Missing(received, base, slide - remaining)
      {
        var n := EvictChunk(pos, from, remaining, slide - remaining);
        MissingSplit(received, base, slide - remaining, n);
        pos := (pos + n) % WINDOW;
        from := from + n;
        remaining := remaining - n;
      }
      Slid(ring[..], base, head, received, slide);
      head := pos;
      base := base + slide;
    }
  }

  /** What marking a number's bit does to the ring, inside the window and beyond it. */
  lemma Arrived(ring: seq<Word>, base: nat, head: nat, received: set<nat>, number: nat)
    requires head < WINDOW && Mirrors(ring, base, head, received, base) && base <= number
    requires number >= base + WINDOW ==> forall q :: q in received ==> q < base
    ensures |ring| == WORDS
    ensures var p := Slot(base, head, number);
            var after := WithBit(ring, p);
            && Bit(after, p)
            && (Mirrors(after, base, head, received + {number}, base) <==> number < base + WINDOW)
            && (number < base + WINDOW ==> (Bit(ring, p) <==> number in received))
    ensures Missing(received + {number}, 0, base) == Missing(received, 0, base)
  {
    hide *;
    MirrorsShape(ring, base, head, received, base);
    WithBitSet(ring, Slot(base, head, number));
    if number - base < WINDOW {
      Marked(ring, base, head, received, number);
    } else {
      Mismarked(ring, base, head, received, number);
    }
    MissingSame(received, received + {number}, 0, base);
  }

  lemma WithBitSet(ring: seq<Word>, p: nat)
    requires |ring| == WORDS && p < WINDOW
    ensures Bit(WithBit(ring, p), p)
  {
  }

  /** A number a whole window past the base has the bit of the base itself. */
  lemma WrapsToBase(base: nat, head: nat)
    requires head < WINDOW
    ensures Slot(base, head, base + WINDOW) == Slot(base, head, base)
    ensures SeqAt(base, head, Slot(base, head, base + WINDOW)) == base
  {
    assert (head + WINDOW) % WINDOW == head % WINDOW == head;
  }

  method Send(t: Tracker, n: nat)
    requires t.Valid()
    modifies t
    ensures t.Valid() && t.totalSent == old(t.totalSent) + n && t.base == old(t.base) && t.received == old(t.received)
  {
    for i := 0 to n
      invariant t.Valid() && t.totalSent == old(t.totalSent) + i && t.base == old(t.base) && t.received == old(t.received)
    {
      var _ := t.OnSend();
    }
  }

  /**
   Two windows of packets and one more are sent and only the last comes back: the window jumps to
   4096, where the ring shows packet 4096 as received, which never came.
   */
  method FirstMismark() returns (t: Tracker)
    ensures t.totalSent == 2 * WINDOW + 1 && t.received == {2 * WINDOW} && t.base == WINDOW == 4096
    ensures t.ring.Length == WORDS && t.head < WINDOW && Bit(t.ring[..], Slot(t.base, t.head, 4096))
    ensures !t.Valid()
  {
    t := new Tracker();
    Send(t, 2 * WINDOW + 1);
    t.OnReceive(2 * WINDOW);
    WrapsToBase(t.base, t.head);
  }

  lemma MirrorsShape(ring: seq<Word>, base: nat, head: nat, received: set<nat>, floor: nat)
    requires Mirrors(ring, base, head, received, floor)
    ensures Shaped(ring) && |ring| == WORDS && head < WINDOW
  {
  }

  /** Marking the bit of a number inside the window records exactly that number. */
  lemma Marked(ring: seq<Word>, base: nat, head: nat, received: set<nat>, number: nat)
    requires head < WINDOW && Mirrors(ring, base, head, received, base) && base <= number < base + WINDOW
    ensures var p := Slot(base, head, number);
            && Mirrors(WithBit(ring, p), base, head, received + {number}, base)
            && (Bit(ring, p) <==> number in received)
  {
    var p := Slot(base, head, number);
    assert p == if head + number - base < WINDOW then head + number - base else head + number - base - WINDOW;
    assert SeqAt(base, head, p) == number;
    var after := WithBit(ring, p);
    forall k | 0 <= k < WINDOW
      ensures Bit(after, k) <==> SeqAt(base, head, k) in received + {number} && SeqAt(base, head, k) >= base
    {
      assert Bit(after, k) <==> Bit(ring, k) || k == p by {
        assert k == 64 * (k / 64) + k % 64 && p == 64 * (p / 64) + p % 64;
      }
    }
  }

  /** Marking the bit of a number beyond the window records a different one. */
  lemma Mismarked(ring: seq<Word>, base: nat, head: nat, received: set<nat>, number: nat)
    requires Shaped(ring) && head < WINDOW && number >= base + WINDOW && forall q :: q in received ==> q < base
    ensures var p := Slot(base, head, number);
            !Mirrors(WithBit(ring, p), base, head, received + {number}, base)
  {
    var p := Slot(base, head, number);
    var after := WithBit(ring, p);
    assert Bit(after, p);
    assert base <= SeqAt(base, head, p) < base + WINDOW;
  }

  /** The ring position `done` steps past the head. */
  function PositionOf(head: nat, done: nat): (p: nat)
    requires head < WINDOW && done <= WINDOW
    ensures p < WINDOW
  {
    if head + done < WINDOW then head + done else head + done - WINDOW
  }

  lemma NextPosition(head: nat, done: nat, n: nat)
    requires head < WINDOW && done + n <= WINDOW && PositionOf(head, done) % 64 + n <= 64
    ensures (PositionOf(head, done) + n) % WINDOW == PositionOf(head, done + n)
  {
  }

  /** One word's eviction raises the floor by the evicted bits, and they were counted. */
  lemma Evicted(ring: seq<Word>, base: nat, head: nat, received: set<nat>, done: nat, n: nat)
    requires head < WINDOW && Mirrors(ring, base, head, received, base + done)
    requires n >= 1 && done + n <= WINDOW && PositionOf(head, done) % 64 + n <= 64
    ensures Shaped(ring)
    ensures var pos := PositionOf(head, done);
            && Mirrors(ring[pos / 64 := ring[pos / 64] - Mask(pos % 64, n)], base, head, received, base + done + n)
            && |ring[pos / 64] * Mask(pos % 64, n)| == n - Missing(received, base + done, n)
  {
    hide Missing;
    var pos := PositionOf(head, done);
    assert SeqAt(base, head, pos) == base + done;
    CountEvicted(ring, base, head, received, done, n);
    ClearEvicted(ring, base, head, received, done, n);
  }

  lemma CountEvicted(ring: seq<Word>, base: nat, head: nat, received: set<nat>, done: nat, n: nat)
    requires head < WINDOW && Mirrors(ring, base, head, received, base + done)
    requires n >= 1 && done + n <= WINDOW && PositionOf(head, done) % 64 + n <= 64
    ensures var pos := PositionOf(head, done);
            |ring[pos / 64] * Mask(pos % 64, n)| == n - Missing(received, base + done, n)
  {
    hide Missing, Mask;
    var pos := PositionOf(head, done);
    var w, s := pos / 64, pos % 64;
    assert Matches(ring[w], s, n, received, base + done) by {
      forall b | s <= b < s + n
        ensures b in ring[w] <==> base + done + (b - s) in received
      {
        var p := pos + b - s;
        assert p / 64 == w && p % 64 == b;
        assert SeqAt(base, head, p) == base + done + (b - s);
        assert Bit(ring, p) <==> b in ring[w];
      }
    }
    hide Matches;
    CountBits(ring[w], s, n, received, base + done);
  }

  lemma ClearEvicted(ring: seq<Word>, base: nat, head: nat, received: set<nat>, done: nat, n: nat)
    requires head < WINDOW && Mirrors(ring, base, head, received, base + done)
    requires n >= 1 && done + n <= WINDOW && PositionOf(head, done) % 64 + n <= 64
    ensures var pos := PositionOf(head, done);
            Mirrors(ring[pos / 64 := ring[pos / 64] - Mask(pos % 64, n)], base, head, received, base + done + n)
  {
    var pos := PositionOf(head, done);
    var w, s := pos / 64, pos % 64;
    var after := ring[w := ring[w] - Mask(s, n)];
    hide Mask;
    forall p | 0 <= p < WINDOW
      ensures Bit(after, p) <==> SeqAt(base, head, p) in received && SeqAt(base, head, p) >= base + done + n
    {
      assert Bit(ring, p) <==> SeqAt(base, head, p) in received && SeqAt(base, head, p) >= base + done;
      assert base + done <= SeqAt(base, head, p) < base + done + n <==> pos <= p < pos + n;
      assert pos <= p < pos + n <==> p / 64 == w && s <= p % 64 < s + n;
    }
  }

  /** Renaming the positions once everything below the new base is clear. */
  lemma Slid(ring: seq<Word>, base: nat, head: nat, received: set<nat>, slide: nat)
    requires head < WINDOW && slide <= WINDOW && Mirrors(ring, base, head, received, base + slide)
    requires forall q :: q in received ==> q < base + WINDOW
    ensures Mirrors(ring, base + slide, PositionOf(head, slide), received, base + slide)
  {
    var pos := PositionOf(head, slide);
    forall p | 0 <= p < WINDOW
      ensures Bit(ring, p) <==> SeqAt(base + slide, pos, p) in received && SeqAt(base + slide, pos, p) >= base + slide
    {
      assert Bit(ring, p) <==> SeqAt(base, head, p) in received && SeqAt(base, head, p) >= base + slide;
    }
  }
}
