/** SHA-256 in parts: bytes, padding, rounds. */
module Sha256Laws {
  import opened Words
  import opened Sha256

  // ----- numbers as bytes, the highest first -----

  function Number(bs: seq<byte>): nat {
    if bs == [] then 0 else 0x100 * Number(bs[..|bs| - 1]) + bs[|bs| - 1]
  }

  lemma NumberLast(bs: seq<byte>, b: byte)
    ensures Number(bs + [b]) == 0x100 * Number(bs) + b
  {
    assert (bs + [b])[..|bs|] == bs;
  }

  lemma FourBytes(b0: byte, b1: byte, b2: byte, b3: byte)
    ensures Number([b0, b1, b2, b3]) == b0 * 0x1000000 + b1 * 0x10000 + b2 * 0x100 + b3
  {
    hide Number;
    NumberNone();
    NumberLast([], b0);
    NumberLast([b0], b1);
    NumberLast([b0, b1], b2);
    NumberLast([b0, b1, b2], b3);
    assert [] + [b0] == [b0] && [b0] + [b1] == [b0, b1] && [b0, b1] + [b2] == [b0, b1, b2];
    assert [b0, b1, b2] + [b3] == [b0, b1, b2, b3];
  }

  lemma NumberNone()
    ensures Number([]) == 0
  {
  }

  // The n lowest bytes of x.
  function BytesOf(x: nat, n: nat): seq<byte> {
    if n == 0 then [] else BytesOf(x / 0x100, n - 1) + [x % 0x100]
  }

  lemma EightTimes(k: nat)
    ensures Pow2(k + 8) == 0x100 * Pow2(k)
  {
    assert Pow2(k + 2) == 4 * Pow2(k);
    assert Pow2(k + 4) == 4 * Pow2(k + 2);
    assert Pow2(k + 6) == 4 * Pow2(k + 4);
    assert Pow2(k + 8) == 4 * Pow2(k + 6);
  }

  lemma {:induction false} BytesOfNumber(x: nat, n: nat)
    requires x < Pow2(8 * n)
    ensures |BytesOf(x, n)| == n && Number(BytesOf(x, n)) == x
  {
    if n > 0 {
      EightTimes(8 * n - 8);
      BytesOfNumber(x / 0x100, n - 1);
      NumberLast(BytesOf(x / 0x100, n - 1), x % 0x100);
    }
  }

  // A word of a block is the number its four bytes write.
  lemma BigEndianIs(b0: byte, b1: byte, b2: byte, b3: byte)
    ensures BigEndian(b0, b1, b2, b3) == Number([b0, b1, b2, b3])
  {
    FourBytes(b0, b1, b2, b3);
  }

  lemma WordBytesAre(x: word32)
    ensures |WordBytes(x)| == 4 && Number(WordBytes(x)) == x
  {
    hide Number;
    DivDiv(x, 0x100);
    DivDiv(x, 0x10000);
    FourBytes(x / 0x1000000, (x / 0x10000) % 0x100, (x / 0x100) % 0x100, x % 0x100);
  }

  lemma LengthBytesAre(x: word)
    ensures |LengthBytes(x)| == 8 && Number(LengthBytes(x)) == x
  {
    LengthBytesOf(x);
    Pow64Is();
    BytesOfNumber(x, 8);
  }

  lemma Pow64Is()
    ensures Pow2(64) == TWO64
  {
    Pow32();
    assert Pow2(40) == 0x100 * Pow2(32);
    assert Pow2(48) == 0x100 * Pow2(40);
    assert Pow2(56) == 0x100 * Pow2(48);
  }

  lemma DivDiv(x: nat, p: nat)
    requires p > 0
    ensures x / (0x100 * p) == (x / p) / 0x100
  {
    var q, r := x / p / 0x100, x / p % 0x100;
    assert x == p * (0x100 * q + r) + x % p;
    assert p * (0x100 * q + r) == (0x100 * p) * q + p * r by { MulSplit(p, q, r); }
    assert p * r + x % p < 0x100 * p by { MulMost(p, r, 0xff); }
    ModUnique(x, 0x100 * p, q, p * r + x % p);
  }

  lemma MulSplit(p: nat, q: nat, r: nat)
    ensures p * (0x100 * q + r) == (0x100 * p) * q + p * r
  {
  }

  lemma MulMost(p: nat, r: nat, m: nat)
    requires r <= m
    ensures p * r <= p * m
  {
  }

  lemma LengthBytesOf(x: nat)
    ensures LengthBytes(x) == BytesOf(x, 8)
  {
    var x1 := x / 0x100;
    var x2 := x1 / 0x100;
    var x3 := x2 / 0x100;
    var x4 := x3 / 0x100;
    var x5 := x4 / 0x100;
    var x6 := x5 / 0x100;
    var x7 := x6 / 0x100;
    DivDiv(x, 0x100);
    DivDiv(x, 0x1_0000);
    DivDiv(x, 0x100_0000);
    DivDiv(x, 0x1_0000_0000);
    DivDiv(x, 0x100_0000_0000);
    DivDiv(x, 0x1_0000_0000_0000);
    hide LengthBytes, BytesOf;
    LastBytes(x, 7); LastBytes(x1, 6); LastBytes(x2, 5); LastBytes(x3, 4);
    LastBytes(x4, 3); LastBytes(x5, 2); LastBytes(x6, 1); LastBytes(x7, 0);
    NoBytes(x7 / 0x100);
    assert BytesOf(x, 8) ==
           [x7 % 0x100, x6 % 0x100, x5 % 0x100, x4 % 0x100, x3 % 0x100, x2 % 0x100, x1 % 0x100, x % 0x100];
    LengthBytesAs(x);
  }

  lemma LengthBytesAs(x: nat)
    ensures LengthBytes(x) ==
            [(x / 0x100_0000_0000_0000) % 0x100, (x / 0x1_0000_0000_0000) % 0x100, (x / 0x100_0000_0000) % 0x100,
             (x / 0x1_0000_0000) % 0x100, (x / 0x100_0000) % 0x100, (x / 0x1_0000) % 0x100, (x / 0x100) % 0x100,
             x % 0x100]
  {
  }

  lemma LastBytes(x: nat, n: nat)
    ensures BytesOf(x, n + 1) == BytesOf(x / 0x100, n) + [x % 0x100]
  {
  }

  lemma NoBytes(x: nat)
    ensures BytesOf(x, 0) == []
  {
  }

  // ----- the padded message -----

  /** The message, a byte with the highest bit, zero bytes, and the length in bits on eight bytes; as
      few zero bytes as make whole blocks of 64 bytes. */
  lemma PaddedIs(m: seq<byte>)
    ensures var p := Padded(m);
            && m <= p && |p| % 64 == 0 && |m| + 9 <= |p| < |m| + 9 + 64
            && p[|m|] == 0x80 && (forall i | |m| < i < |p| - 8 :: p[i] == 0)
            && Number(p[|p| - 8..]) == 8 * |m| % TWO64
  {
    var p := Padded(m);
    var length := (8 * |m|) % TWO64;
    LengthBytesAre(length);
    hide LengthBytes, Number;
    PaddedParts(m);
  }

  lemma PaddedParts(m: seq<byte>)
    requires |LengthBytes((8 * |m|) % TWO64)| == 8
    ensures var p := Padded(m);
            && m <= p && |m| + 9 <= |p| < |m| + 9 + 64
            && p[|m|] == 0x80 && (forall i | |m| < i < |p| - 8 :: p[i] == 0)
            && p[|p| - 8..] == LengthBytes((8 * |m|) % TWO64)
  {
    hide LengthBytes;
    var z, l := Zeros(Filling(|m|)), LengthBytes((8 * |m|) % TWO64);
    assert Padded(m) == m + [0x80] + z + l;
    forall i | |m| < i < |Padded(m)| - 8 ensures Padded(m)[i] == 0 { assert Padded(m)[i] == z[i - |m| - 1]; }
  }

  // The digest writes the eight words of the hash, one after the other.
  lemma DigestIs(s: Hash)
    ensures var d := Digest(s);
            && |d| == 32 && Number(d[0..4]) == s.a && Number(d[4..8]) == s.b && Number(d[8..12]) == s.c
            && Number(d[12..16]) == s.d && Number(d[16..20]) == s.e && Number(d[20..24]) == s.f
            && Number(d[24..28]) == s.g && Number(d[28..32]) == s.h
  {
    var d := Digest(s);
    WordBytesAre(s.a); WordBytesAre(s.b); WordBytesAre(s.c); WordBytesAre(s.d);
    WordBytesAre(s.e); WordBytesAre(s.f); WordBytesAre(s.g); WordBytesAre(s.h);
    hide WordBytes, Number;
    assert d[0..4] == WordBytes(s.a) && d[4..8] == WordBytes(s.b) && d[8..12] == WordBytes(s.c);
    assert d[12..16] == WordBytes(s.d) && d[16..20] == WordBytes(s.e) && d[20..24] == WordBytes(s.f);
    assert d[24..28] == WordBytes(s.g) && d[28..32] == WordBytes(s.h);
  }

  // ----- nothing is lost in a round -----

  function Minus(x: word32, y: word32): word32 { (x + TWO32 - y) % TWO32 }

  lemma MinusPlus(x: word32, y: word32)
    ensures Minus(Plus(x, y), y) == x && Minus(Plus(y, x), y) == x
  {
  }

  // The state before a round, from the one after it.
  function Undone(s: Hash, k: word32, w: word32): Hash {
    var t1 := Minus(s.a, Plus(BigSigma0(s.b), Maj32(s.b, s.c, s.d)));
    var h := Minus(Minus(Minus(Minus(t1, w), k), Ch32(s.f, s.g, s.h)), BigSigma1(s.f));
    Hash(s.b, s.c, s.d, Minus(s.e, t1), s.f, s.g, s.h, h)
  }

  lemma RoundUndone(s: Hash, k: word32, w: word32)
    ensures Undone(Round(s, k, w), k, w) == s
  {
    hide BigSigma0, BigSigma1, Maj32, Ch32, Plus, Minus;
    var h1 := Plus(s.h, BigSigma1(s.e));
    var h2 := Plus(h1, Ch32(s.e, s.f, s.g));
    var h3 := Plus(h2, k);
    var t1 := Plus(h3, w);
    MinusPlus(s.h, BigSigma1(s.e));
    MinusPlus(h1, Ch32(s.e, s.f, s.g));
    MinusPlus(h2, k);
    MinusPlus(h3, w);
    MinusPlus(t1, Plus(BigSigma0(s.a), Maj32(s.a, s.b, s.c)));
    MinusPlus(s.d, t1);
  }

  // Of the words of the schedule, any sixteen in a row give the one before them.
  lemma ScheduleUndone(m: seq<byte>, t: nat)
    requires IsBlock(m) && t >= 16
    ensures W(m, t - 16) ==
            Minus(Minus(Minus(W(m, t), SmallSigma0(W(m, t - 15))), W(m, t - 7)), SmallSigma1(W(m, t - 2)))
  {
    hide SmallSigma0, SmallSigma1, Minus;
    var a, b, c, d := SmallSigma1(W(m, t - 2)), W(m, t - 7), SmallSigma0(W(m, t - 15)), W(m, t - 16);
    SumUndone(a, b, c, d);
  }

  lemma SumUndone(a: word32, b: word32, c: word32, d: word32)
    ensures Minus(Minus(Minus(Plus(Plus(Plus(a, b), c), d), c), b), a) == d
  {
    var s1, s2 := Plus(a, b), Plus(Plus(a, b), c);
    PlusSwap(s2, d);
    assert Plus(s2, d) == Plus(Plus(s1, d), c) by { PlusTurn(s1, c, d); }
    MinusPlus(Plus(s1, d), c);
    assert Plus(s1, d) == Plus(Plus(a, d), b) by { PlusTurn(a, b, d); }
    MinusPlus(Plus(a, d), b);
    MinusPlus(d, a);
    hide Plus, Minus;
  }

  lemma PlusSwap(x: word32, y: word32)
    ensures Plus(x, y) == Plus(y, x)
  {
  }

  lemma PlusTurn(x: word32, y: word32, z: word32)
    ensures Plus(Plus(x, y), z) == Plus(Plus(x, z), y)
  {
    PlusThree(x, y, z);
    PlusThree(x, z, y);
    hide Plus;
  }

  lemma PlusThree(x: word32, y: word32, z: word32)
    ensures Plus(Plus(x, y), z) == (x + y + z) % TWO32
  {
  }

  // The first sixteen words of the schedule are those of the block.
  lemma BlockWords(m: seq<byte>, t: nat)
    requires IsBlock(m) && t < 16
    ensures W(m, t) == Number(m[4 * t..4 * t + 4])
  {
    BigEndianIs(m[4 * t], m[4 * t + 1], m[4 * t + 2], m[4 * t + 3]);
    assert m[4 * t..4 * t + 4] == [m[4 * t], m[4 * t + 1], m[4 * t + 2], m[4 * t + 3]];
  }

  /** All 64 rounds can be undone, the last one first, with the constants and words in order. */
  lemma RoundsUndone(s: Hash, m: seq<byte>, t: nat)
    requires IsBlock(m) && t < 64
    ensures Undone(Rounds(s, m, t + 1), K(t), W(m, t)) == Rounds(s, m, t)
  {
    hide Round, Undone, K, W;
    RoundUndone(Rounds(s, m, t), K(t), W(m, t));
  }

  // What compression adds to each word is that word after 64 rounds.
  lemma CompressUndone(s: Hash, m: seq<byte>)
    requires IsBlock(m)
    ensures var c, r := Compress(s, m), Rounds(s, m, 64);
            && Minus(c.a, s.a) == r.a && Minus(c.b, s.b) == r.b && Minus(c.c, s.c) == r.c && Minus(c.d, s.d) == r.d
            && Minus(c.e, s.e) == r.e && Minus(c.f, s.f) == r.f && Minus(c.g, s.g) == r.g && Minus(c.h, s.h) == r.h
  {
    hide Rounds, Plus, Minus;
    var r := Rounds(s, m, 64);
    MinusPlus(r.a, s.a); MinusPlus(r.b, s.b); MinusPlus(r.c, s.c); MinusPlus(r.d, s.d);
    MinusPlus(r.e, s.e); MinusPlus(r.f, s.f); MinusPlus(r.g, s.g); MinusPlus(r.h, s.h);
  }
}
