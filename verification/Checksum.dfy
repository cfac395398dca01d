/** The Internet checksum of RFC 1071, as `in_cksum` computes it on either kind of host.

The library that holds `in_cksum` is shipped as object code only, so its body is not part of this
model: it is taken to be the checksum of section 1 of RFC 1071.  A datagram is read as 16-bit words
in the host's byte order, an odd last byte being followed in memory by a zero byte. */
module Checksum {
  import opened Bytes

  function WordSum(o: Order, d: seq<byte>): nat {
    if |d| == 0 then 0
    else if |d| == 1 then Word(o, d[0], 0)
    else Word(o, d[0], d[1]) + WordSum(o, d[2..])
  }

  /** End-around carry, repeated until the sum fits sixteen bits. */
  function Fold(s: nat): (r: nat)
    ensures r < WORDS
    ensures r % 65535 == s % 65535
    ensures r == 0 <==> s == 0
  {
    if s < WORDS then s else Fold(s % WORDS + s / WORDS)
  }

  function InCksum(o: Order, d: seq<byte>): (r: nat)
    ensures r < WORDS
  {
    65535 - Fold(WordSum(o, d))
  }

  /** The worked example of section 3 of RFC 1071: the words 0001, f203, f4f5 and f6f7 fold to ddf2. */
  lemma WorkedExample()
    ensures InCksum(Big, [0x00, 0x01, 0xf2, 0x03, 0xf4, 0xf5, 0xf6, 0xf7]) == 0xffff - 0xddf2
    ensures InCksum(Little, [0x00, 0x01, 0xf2, 0x03, 0xf4, 0xf5, 0xf6, 0xf7]) == 0xffff - 0xf2dd
  {
    var d: seq<byte> := [0x00, 0x01, 0xf2, 0x03, 0xf4, 0xf5, 0xf6, 0xf7];
    assert d[2..] == [0xf2, 0x03, 0xf4, 0xf5, 0xf6, 0xf7];
    assert d[2..][2..] == [0xf4, 0xf5, 0xf6, 0xf7];
    assert d[2..][2..][2..] == [0xf6, 0xf7];
    assert d[2..][2..][2..][2..] == [];
    assert WordSum(Big, d) == 0x2ddf0;
    assert WordSum(Little, d) == 0x100 + 0x3f2 + 0xf5f4 + 0xf7f6;
    assert Fold(0x2ddf0) == Fold(0xddf2) == 0xddf2;
    assert 0x100 + 0x3f2 + 0xf5f4 + 0xf7f6 == 0x1f2dc;
    assert Fold(0x1f2dc) == Fold(0xf2dd) == 0xf2dd;
  }

  // ---------- when a datagram passes ----------

  /** A datagram checks out exactly when its words are not all zero and add up to zero modulo 2^16 - 1. */
  lemma PassesIff(o: Order, d: seq<byte>)
    ensures InCksum(o, d) == 0 <==> WordSum(o, d) > 0 && WordSum(o, d) % 65535 == 0
  {
    var f := Fold(WordSum(o, d));
    assert f % 65535 == 0 <==> f == 0 || f == 65535;
  }

  lemma {:induction false} SumIsZeroIffAllZero(o: Order, d: seq<byte>)
    ensures WordSum(o, d) == 0 <==> forall i :: 0 <= i < |d| ==> d[i] == 0
  {
    if |d| >= 2 {
      SumIsZeroIffAllZero(o, d[2..]);
      assert forall i :: 2 <= i < |d| ==> d[i] == d[2..][i - 2];
    }
  }

  // ---------- section 2(B): byte order ----------

  /** Reading with the other byte order multiplies the sum by 256, modulo 2^16 - 1. */
  lemma {:induction false} SwappedSum(d: seq<byte>)
    ensures (256 * WordSum(Big, d)) % 65535 == WordSum(Little, d) % 65535
    ensures (256 * WordSum(Little, d)) % 65535 == WordSum(Big, d) % 65535
  {
    if |d| >= 2 {
      SwappedSum(d[2..]);
      SwappedWord(d[0], d[1]);
      var b, l := WordSum(Big, d[2..]), WordSum(Little, d[2..]);
      var x, y := Word(Big, d[0], d[1]), Word(Little, d[0], d[1]);
      AddCongruent(256 * x, y, 256 * b, l);
      AddCongruent(256 * y, x, 256 * l, b);
    } else if |d| == 1 {
      SwappedWord(d[0], 0);
    }
  }

  lemma AddMultiple(x: int, k: int)
    ensures (x + 65535 * k) % 65535 == x % 65535
  {
  }

  lemma SwappedWord(a: byte, b: byte)
    ensures (256 * Word(Big, a, b)) % 65535 == Word(Little, a, b) % 65535
    ensures (256 * Word(Little, a, b)) % 65535 == Word(Big, a, b) % 65535
  {
    AddMultiple(Word(Little, a, b), a);
    AddMultiple(Word(Big, a, b), b);
  }

  lemma AddCongruent(x: int, x': int, y: int, y': int)
    requires x % 65535 == x' % 65535 && y % 65535 == y' % 65535
    ensures (x + y) % 65535 == (x' + y') % 65535
  {
    var k := x / 65535 - x' / 65535 + (y / 65535 - y' / 65535);
    assert x + y == x' + y' + 65535 * k;
    AddMultiple(x' + y', k);
  }

  lemma ScaleCongruent(x: int, y: int)
    requires x % 65535 == y % 65535
    ensures (256 * x) % 65535 == (256 * y) % 65535
  {
    var k := x / 65535 - y / 65535;
    assert x == y + 65535 * k;
    assert 256 * x == 256 * y + 65535 * (256 * k);
    AddMultiple(256 * y, 256 * k);
  }

  lemma ZeroResidueIsOrderFree(d: seq<byte>)
    ensures WordSum(Big, d) % 65535 == 0 <==> WordSum(Little, d) % 65535 == 0
  {
    SwappedSum(d);
    if WordSum(Big, d) % 65535 == 0 {
      ScaleCongruent(WordSum(Big, d), 0);
    }
    if WordSum(Little, d) % 65535 == 0 {
      ScaleCongruent(WordSum(Little, d), 0);
    }
  }

  /** A datagram that passes on one host passes on every host. */
  lemma PassingIsOrderFree(o: Order, p: Order, d: seq<byte>)
    ensures InCksum(o, d) == 0 <==> InCksum(p, d) == 0
  {
    PassesIff(o, d);
    PassesIff(p, d);
    SumIsZeroIffAllZero(o, d);
    SumIsZeroIffAllZero(p, d);
    ZeroResidueIsOrderFree(d);
  }

  /** The folded sums of the two hosts are byte swaps of each other. */
  lemma FoldsAreSwapped(d: seq<byte>) returns (hi: byte, lo: byte)
    ensures Fold(WordSum(Big, d)) == Word(Big, hi, lo)
    ensures Fold(WordSum(Little, d)) == Word(Little, hi, lo)
  {
    hide Fold;
    var b := Fold(WordSum(Big, d));
    hi, lo := b / 256, b % 256;
    SwappedSum(d);
    SumIsZeroIffAllZero(Big, d);
    SumIsZeroIffAllZero(Little, d);
    hide WordSum;
    assert b == Word(Big, hi, lo);
    SwappedWord(hi, lo);
    ScaleCongruent(b, WordSum(Big, d));
    SameResidue(Fold(WordSum(Little, d)), Word(Little, hi, lo));
  }

  lemma SameResidue(x: nat, y: nat)
    requires x < WORDS && y < WORDS && x % 65535 == y % 65535
    requires x == 0 <==> y == 0
    ensures x == y
  {
  }

  /** The checksum field has the same two bytes whichever host computes and stores it. */
  lemma StoredChecksumIsOrderFree(o: Order, p: Order, d: seq<byte>)
    ensures Store16(o, InCksum(o, d)) == Store16(p, InCksum(p, d))
  {
    hide Fold, WordSum, Word, Store16;
    var hi, lo := FoldsAreSwapped(d);
    ComplementsStoreAlike(hi, lo);
  }

  lemma ComplementsStoreAlike(hi: byte, lo: byte)
    ensures Store16(Big, 65535 - Word(Big, hi, lo)) == Store16(Little, 65535 - Word(Little, hi, lo))
  {
    TwoDigits(255 - hi, 255 - lo);
    TwoDigits(255 - lo, 255 - hi);
  }

  lemma TwoDigits(a: byte, b: byte)
    ensures (a * 256 + b) / 256 == a && (a * 256 + b) % 256 == b
  {
  }

  // ---------- sums of changed datagrams ----------

  /** The word of `d` that starts at the even offset `k`. */
  function WordAt(o: Order, d: seq<byte>, k: nat): (r: nat)
    requires k < |d|
    ensures r < WORDS
  {
    Word(o, d[k], if k + 1 < |d| then d[k + 1] else 0)
  }

  /** Equal outside the 16-bit word at the even offset `k`. */
  ghost predicate DifferWithinWord(d: seq<byte>, e: seq<byte>, k: nat) {
    && |d| == |e|
    && k % 2 == 0 && k < |d|
    && forall i :: 0 <= i < |d| && i != k && i != k + 1 ==> d[i] == e[i]
  }

  lemma {:induction false} ChangeOfOneWord(o: Order, d: seq<byte>, e: seq<byte>, k: nat)
    requires DifferWithinWord(d, e, k)
    ensures WordSum(o, e) - WordSum(o, d) == WordAt(o, e, k) - WordAt(o, d, k)
  {
    if k == 0 {
      if |d| >= 2 {
        assert d[2..] == e[2..];
      }
    } else {
      assert WordAt(o, d, k) == WordAt(o, d[2..], k - 2);
      assert WordAt(o, e, k) == WordAt(o, e[2..], k - 2);
      ChangeOfOneWord(o, d[2..], e[2..], k - 2);
    }
  }

  /** A change confined to one word of a passing datagram goes unnoticed exactly when it replaces
      0x0000 by 0xFFFF, or the reverse with some other word not zero. */
  lemma WordChangePassesIff(o: Order, d: seq<byte>, e: seq<byte>, k: nat)
    requires DifferWithinWord(d, e, k)
    requires InCksum(o, d) == 0
    requires d != e
    ensures InCksum(o, e) == 0 <==>
            || (WordAt(o, d, k) == 0 && WordAt(o, e, k) == 65535)
            || (WordAt(o, d, k) == 65535 && WordAt(o, e, k) == 0 && exists i :: 0 <= i < |e| && e[i] != 0)
  {
    ChangeOfOneWord(o, d, e, k);
    PassesIff(o, d);
    PassesIff(o, e);
    SumIsZeroIffAllZero(o, e);
    var x, y := WordAt(o, d, k), WordAt(o, e, k);
    var s := WordSum(o, d);
    var delta: int := y as int - x;
    assert WordSum(o, e) == s + delta;
    assert x != y by {
      if x == y {
        WordsDetermineBytes(o, d, e, k);
      }
    }
    CongruentSmallChange(s, delta);
  }

  lemma WordsDetermineBytes(o: Order, d: seq<byte>, e: seq<byte>, k: nat)
    requires DifferWithinWord(d, e, k) && WordAt(o, d, k) == WordAt(o, e, k)
    ensures d == e
  {
    assert d[k] == e[k];
    assert k + 1 < |d| ==> d[k + 1] == e[k + 1];
  }

  lemma CongruentSmallChange(s: nat, delta: int)
    requires s % 65535 == 0 && -65535 <= delta <= 65535 && s + delta >= 0
    ensures (s + delta) % 65535 == 0 <==> delta == 0 || delta == 65535 || delta == -65535
  {
    assert s == 65535 * (s / 65535);
    if (s + delta) % 65535 == 0 {
      assert s + delta == 65535 * ((s + delta) / 65535);
      assert delta == 65535 * ((s + delta) / 65535 - s / 65535);
    }
  }

  // ---------- one flipped bit ----------

  function Pow2(k: nat): (p: nat)
    ensures p > 0
  {
    if k == 0 then 1 else 2 * Pow2(k - 1)
  }

  /** A number of `width` bits with bit `k` flipped. */
  function Flip(b: nat, k: nat, width: nat): (r: nat)
    requires k < width && b < Pow2(width)
    ensures r < Pow2(width)
    ensures r == b + Pow2(k) || r == b - Pow2(k)
  {
    if k == 0 then (if b % 2 == 0 then b + 1 else b - 1)
    else 2 * Flip(b / 2, k - 1, width - 1) + b % 2
  }

  lemma Pow2Byte(k: nat)
    requires k < 8
    ensures Pow2(8) == 256 && Pow2(k) <= 128
    ensures Pow2(7) == 128
  {
    assert Pow2(3) == 8 && Pow2(6) == 64;
    assert Pow2(1) == 2 && Pow2(2) == 4 && Pow2(4) == 16 && Pow2(5) == 32 && Pow2(0) == 1;
  }

  function FlipByte(b: byte, k: nat): (r: byte)
    requires k < 8
    ensures r != b && -128 <= r - b <= 128
  {
    Pow2Byte(k);
    Flip(b, k, 8)
  }

  /** `d` with bit `i` flipped, counting eight bits to a byte. */
  function FlipBit(d: seq<byte>, i: nat): (e: seq<byte>)
    requires i < 8 * |d|
    ensures |e| == |d|
  {
    d[i / 8 := FlipByte(d[i / 8], i % 8)]
  }

  /** Every single-bit error in a passing datagram of any length is detected, on any host. */
  lemma FlippedBitIsDetected(o: Order, d: seq<byte>, i: nat)
    requires i < 8 * |d|
    requires InCksum(o, d) == 0
    ensures InCksum(o, FlipBit(d, i)) != 0
  {
    var e := FlipBit(d, i);
    var j := i / 8;
    var k := j - j % 2;
    assert d[j] != e[j];
    assert DifferWithinWord(d, e, k);
    WordChangePassesIff(o, d, e, k);
    assert forall m :: 0 <= m < |d| && m != j ==> d[m] == e[m];
    if k == j {
      assert k + 1 < |d| ==> d[k + 1] == e[k + 1];
    } else {
      assert d[k] == e[k];
    }
  }
}
