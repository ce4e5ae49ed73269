/** The SHA-256 code of the compiler: wide words that are masked late, and a hasher that takes
    its message in pieces. */
module PicoSha2 {
  import opened Words
  import opened Sha256

  // ----- on 64-bit words -----

  function Mask32(x: word): nat { And(x, 0xffff_ffff) }

  function Mask8(x: byte): nat { And(x, 0xff) }

  function Ch(x: word, y: word, z: word): nat { Xor(And(x, y), And(TWO64 - 1 - x, z)) }

  function Maj(x: word, y: word, z: word): nat { Xor(Xor(And(x, y), And(x, z)), And(y, z)) }

  function Rotr(x: word, n: nat): nat
    requires 0 < n < 32
  {
    OrFits64(x, n, Shl(x, 32 - n));
    Mask32(Or(Shr(x, n), Shl(x, 32 - n) % TWO64))
  }

  function Bsig0(x: word): nat { Xor(Xor(Rotr(x, 2), Rotr(x, 13)), Rotr(x, 22)) }
  function Bsig1(x: word): nat { Xor(Xor(Rotr(x, 6), Rotr(x, 11)), Rotr(x, 25)) }
  function Ssig0(x: word): nat { Xor(Xor(Rotr(x, 7), Rotr(x, 18)), Shr(x, 3)) }
  function Ssig1(x: word): nat { Xor(Xor(Rotr(x, 17), Rotr(x, 19)), Shr(x, 10)) }

  lemma Pow64()
    ensures Pow2(64) == TWO64
  {
    Pow32();
    assert Pow2(40) == 0x100 * Pow2(32);
    assert Pow2(48) == 0x100 * Pow2(40);
    assert Pow2(56) == 0x100 * Pow2(48);
  }

  lemma OrFits64(x: word, n: nat, y: nat)
    ensures Or(Shr(x, n), y % TWO64) < TWO64
  {
    hide Or, Shr;
    Pow64();
    OrBound(Shr(x, n), y % TWO64, 64);
  }

  lemma MaskIs(x: word)
    ensures Mask32(x) == x % TWO32
  {
    hide And;
    Pow32();
    AndMask(x, 32);
  }

  lemma Mask8Is(x: byte)
    ensures Mask8(x) == x
  {
    hide And;
    AndMask(x, 8);
    assert Pow2(8) == 0x100;
  }

  // The rotation is right for words that are within 32 bits.
  lemma RotrIs(x: word32, n: nat)
    requires 0 < n < 32
    ensures Rotr(x, n) == Rotr32(x, n)
  {
    hide Or, And, Mask32, Shr, Shl;
    var a, b := Shr(x, n), Shl(x, 32 - n);
    OrFits64(x, n, b);
    MaskIs(Or(a, b % TWO64));
    Pow32();
    OrMod(a, b % TWO64, 32);
    assert (b % TWO64) % TWO32 == b % TWO32;
  }

  lemma SigmasAre(x: word32)
    ensures Bsig0(x) == BigSigma0(x) && Bsig1(x) == BigSigma1(x)
    ensures Ssig0(x) == SmallSigma0(x) && Ssig1(x) == SmallSigma1(x)
  {
    hide Rotr, Rotr32, Xor;
    RotrIs(x, 2); RotrIs(x, 13); RotrIs(x, 22);
    RotrIs(x, 6); RotrIs(x, 11); RotrIs(x, 25);
    RotrIs(x, 7); RotrIs(x, 18);
    RotrIs(x, 17); RotrIs(x, 19);
  }

  // The high half of the complement is masked away by z.
  lemma ChIs(x: word32, y: word32, z: word32)
    ensures Ch(x, y, z) == Ch32(x, y, z)
  {
    hide And, Xor;
    Pow32();
    AndLow(TWO64 - 1 - x, TWO32 - 1 - x, z, 32);
  }

  lemma MajIs(x: word32, y: word32, z: word32)
    ensures Maj(x, y, z) == Maj32(x, y, z)
  {
    hide And, Xor;
  }

  // Four bytes shifted into place and or-ed are a word.
  lemma BytesAre(b0: byte, b1: byte, b2: byte, b3: byte)
    ensures Or(Or(Or(Shl(b0, 24), Shl(b1, 16)), Shl(b2, 8)), b3) == BigEndian(b0, b1, b2, b3)
  {
    hide Or;
    assert Pow2(8) == 0x100;
    assert Pow2(16) == 0x10000;
    assert Pow2(24) == 0x1000000;
    OrDisjoint(b0, b1 * 0x10000, 24);
    OrDisjoint(b0 * 0x100 + b1, b2 * 0x100, 16);
    OrDisjoint(b0 * 0x10000 + b1 * 0x100 + b2, b3, 8);
  }

  lemma Absorb(x: nat, y: nat)
    ensures Plus(x % TWO32, y) == Plus(x, y) == Plus(x, y % TWO32)
  {
    AbsorbOne(x, y);
    AbsorbOne(y, x);
  }

  lemma AbsorbOne(x: nat, y: nat)
    ensures (x % TWO32 + y) % TWO32 == (x + y) % TWO32
  {
    var q, r := x / TWO32, (x % TWO32 + y) % TWO32;
    ModUnique(x + y, TWO32, q + (x % TWO32 + y) / TWO32, r);
  }

  // Masking once, after the sum, is adding modulo 2^32 at every step.
  lemma LateMask(h: nat, s: nat, c: nat, k: nat, w: nat)
    ensures (h + s + c + k + w) % TWO32 == Plus(Plus(Plus(Plus(h, s), c), k), w)
  {
    Absorb(h + s, c);
    Absorb(h + s + c, k);
    Absorb(h + s + c + k, w);
  }

  lemma LateMaskE(d: word32, h: word32, s: word32, c: word32, k: word32, w: word32)
    ensures (d + (h + s + c + k + w)) % TWO32 == Plus(d, Plus(Plus(Plus(Plus(h, s), c), k), w))
  {
    LateMask(h, s, c, k, w);
    Absorb(d, h + s + c + k + w);
  }

  lemma LateMaskA(h: word32, s: word32, c: word32, k: word32, w: word32, s0: word32, m: word32)
    ensures ((h + s + c + k + w) + (s0 + m)) % TWO32 == Plus(Plus(Plus(Plus(Plus(h, s), c), k), w), Plus(s0, m))
  {
    LateMask(h, s, c, k, w);
    Absorb(h + s + c + k + w, s0 + m);
    Absorb((h + s + c + k + w) % TWO32, s0 + m);
  }

  lemma LateMaskW(x: word32, y: word32, z: word32, u: word32)
    ensures (x + y + z + u) % TWO32 == Plus(Plus(Plus(x, y), z), u)
  {
    Absorb(x + y, z);
    Absorb(x + y + z, u);
  }

  // The eight words in memory are those of s.
  predicate IsHash(h: seq<nat>, s: Hash) {
    h == [s.a, s.b, s.c, s.d, s.e, s.f, s.g, s.h]
  }

  function Temp1(s: Hash, k: word32, w: word32): nat { s.h + Bsig1(s.e) + Ch(s.e, s.f, s.g) + k + w }

  function Temp2(s: Hash): nat { Bsig0(s.a) + Maj(s.a, s.b, s.c) }

  // One pass of the loop, on wide words, is one round on 32-bit words; no sum reaches 2^64.
  lemma RoundIs(s: Hash, k: word32, w: word32)
    ensures Temp1(s, k, w) < 5 * TWO32 && Temp2(s) < 2 * TWO32
    ensures Round(s, k, w) == Hash(Mask32(Temp1(s, k, w) + Temp2(s)), s.a, s.b, s.c,
                                   Mask32(s.d + Temp1(s, k, w)), s.e, s.f, s.g)
  {
    hide Mask32, Plus, Bsig0, Bsig1, BigSigma0, BigSigma1, Ch, Ch32, Maj, Maj32;
    SigmasAre(s.a);
    SigmasAre(s.e);
    ChIs(s.e, s.f, s.g);
    MajIs(s.a, s.b, s.c);
    var t1, t2 := Temp1(s, k, w), Temp2(s);
    MaskIs(t1 + t2);
    MaskIs(s.d + t1);
    LateMaskE(s.d, s.h, Bsig1(s.e), Ch(s.e, s.f, s.g), k, w);
    LateMaskA(s.h, Bsig1(s.e), Ch(s.e, s.f, s.g), k, w, Bsig0(s.a), Maj(s.a, s.b, s.c));
  }

  lemma ScheduleIs(m: seq<byte>, t: nat)
    requires IsBlock(m) && 16 <= t < 64
    ensures var sum := Ssig1(W(m, t - 2)) + W(m, t - 7) + Ssig0(W(m, t - 15)) + W(m, t - 16);
            sum < TWO64 && Mask32(sum) == W(m, t)
  {
    hide Mask32, Plus, Ssig0, Ssig1, SmallSigma0, SmallSigma1;
    SigmasAre(W(m, t - 2));
    SigmasAre(W(m, t - 15));
    LateMaskW(Ssig1(W(m, t - 2)), W(m, t - 7), Ssig0(W(m, t - 15)), W(m, t - 16));
    MaskIs(Ssig1(W(m, t - 2)) + W(m, t - 7) + Ssig0(W(m, t - 15)) + W(m, t - 16));
  }

  method Schedule(block: seq<byte>) returns (w: array<nat>)
    requires IsBlock(block)
    ensures fresh(w) && w.Length == 64 && forall t {:trigger w[t]} | 0 <= t < 64 :: w[t] == W(block, t)
  {
    hide W, Ssig0, Ssig1, Mask32, Mask8, Or, Shl;
    w := new nat[64];
    for i := 0 to 16
      invariant forall t {:trigger w[t]} | 0 <= t < i :: w[t] == W(block, t)
    {
      FirstWords(block, i);
      w[i] := Or(Or(Or(Shl(Mask8(block[i * 4]), 24), Shl(Mask8(block[i * 4 + 1]), 16)),
                    Shl(Mask8(block[i * 4 + 2]), 8)), Mask8(block[i * 4 + 3]));
    }
    for i := 16 to 64
      invariant forall t {:trigger w[t]} | 0 <= t < i :: w[t] == W(block, t)
    {
      ScheduleIs(block, i);
      w[i] := Mask32(Ssig1(w[i - 2]) + w[i - 7] + Ssig0(w[i - 15]) + w[i - 16]);
    }
  }

  lemma FirstWords(m: seq<byte>, t: nat)
    requires IsBlock(m) && t < 16
    ensures Or(Or(Or(Shl(Mask8(m[t * 4]), 24), Shl(Mask8(m[t * 4 + 1]), 16)),
                  Shl(Mask8(m[t * 4 + 2]), 8)), Mask8(m[t * 4 + 3])) == W(m, t)
  {
    hide Or, Shl, Mask8, BigEndian;
    Mask8Is(m[t * 4]);
    Mask8Is(m[t * 4 + 1]);
    Mask8Is(m[t * 4 + 2]);
    Mask8Is(m[t * 4 + 3]);
    BytesAre(m[t * 4], m[t * 4 + 1], m[t * 4 + 2], m[t * 4 + 3]);
  }

  function Added(s: Hash, r: Hash): Hash {
    Hash(Plus(s.a, r.a), Plus(s.b, r.b), Plus(s.c, r.c), Plus(s.d, r.d),
         Plus(s.e, r.e), Plus(s.f, r.f), Plus(s.g, r.g), Plus(s.h, r.h))
  }

  function Sums(s: Hash, r: Hash): seq<nat> {
    [s.a + r.a, s.b + r.b, s.c + r.c, s.d + r.d, s.e + r.e, s.f + r.f, s.g + r.g, s.h + r.h]
  }

  lemma MaskedSums(h: seq<nat>, s: Hash, r: Hash)
    requires |h| == 8 && forall j {:trigger h[j]} | 0 <= j < 8 :: h[j] == Sums(s, r)[j] % TWO32
    ensures IsHash(h, Added(s, r))
  {
    var t := Added(s, r);
    assert h[0] == t.a && h[1] == t.b && h[2] == t.c && h[3] == t.d;
    assert h[4] == t.e && h[5] == t.f && h[6] == t.g && h[7] == t.h;
  }

  method AddBack(messageDigest: array<nat>, ghost s: Hash, r: Hash)
    requires messageDigest.Length == 8 && IsHash(messageDigest[..], s)
    modifies messageDigest
    ensures IsHash(messageDigest[..], Added(s, r))
  {
    hide Mask32, Added;
    messageDigest[0] := messageDigest[0] + r.a;
    messageDigest[1] := messageDigest[1] + r.b;
    messageDigest[2] := messageDigest[2] + r.c;
    messageDigest[3] := messageDigest[3] + r.d;
    messageDigest[4] := messageDigest[4] + r.e;
    messageDigest[5] := messageDigest[5] + r.f;
    messageDigest[6] := messageDigest[6] + r.g;
    messageDigest[7] := messageDigest[7] + r.h;
    assert messageDigest[..] == Sums(s, r);
    MaskAll(messageDigest);
    MaskedSums(messageDigest[..], s, r);
  }

  method MaskAll(messageDigest: array<nat>)
    requires messageDigest.Length == 8 && forall j | 0 <= j < 8 :: messageDigest[j] < TWO64
    modifies messageDigest
    ensures forall j {:trigger messageDigest[j]} | 0 <= j < 8 :: messageDigest[j] == old(messageDigest[j]) % TWO32
  {
    hide Mask32;
    for i := 0 to 8
      invariant forall j {:trigger messageDigest[j]} | 0 <= j < 8 ::
                  messageDigest[j] == if j < i then old(messageDigest[j]) % TWO32 else old(messageDigest[j])
    {
      MaskIs(messageDigest[i]);
      messageDigest[i] := Mask32(messageDigest[i]);
    }
  }

  /** One block, over words whose sums are masked only when they are kept: this is the
      compression of 32-bit words. */
  method Hash256Block(messageDigest: array<nat>, block: seq<byte>, ghost s: Hash)
    requires messageDigest.Length == 8 && IsHash(messageDigest[..], s) && IsBlock(block)
    modifies messageDigest
    ensures IsHash(messageDigest[..], Compress(s, block))
  {
    hide Round, W, K, Bsig0, Bsig1, Ch, Maj, Mask32, Plus;
    var w := Schedule(block);
    var a: word32, b: word32, c: word32, d: word32 :=
      messageDigest[0], messageDigest[1], messageDigest[2], messageDigest[3];
    var e: word32, f: word32, g: word32, h: word32 :=
      messageDigest[4], messageDigest[5], messageDigest[6], messageDigest[7];
    for i := 0 to 64
      invariant messageDigest[..] == old(messageDigest[..])
      invariant forall t {:trigger w[t]} | 0 <= t < 64 :: w[t] == W(block, t)
      invariant Hash(a, b, c, d, e, f, g, h) == Rounds(s, block, i)
    {
      RoundIs(Hash(a, b, c, d, e, f, g, h), K(i), W(block, i));
      var temp1 := h + Bsig1(e) + Ch(e, f, g) + K(i) + w[i];
      var temp2 := Bsig0(a) + Maj(a, b, c);
      MaskIs(d + temp1);
      MaskIs(temp1 + temp2);
      h := g;
      g := f;
      f := e;
      e := Mask32(d + temp1);
      d := c;
      c := b;
      b := a;
      a := Mask32(temp1 + temp2);
    }
    AddBack(messageDigest, s, Hash(a, b, c, d, e, f, g, h));
  }
}
