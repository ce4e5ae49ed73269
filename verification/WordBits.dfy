/** What the functions on words do to single bits. */
module WordBits {
  import opened Words
  import opened Sha256

  // The binary digit of x with the weight 2^i.
  function Bit(x: nat, i: nat): (b: nat)
    ensures b < 2
  {
    if i == 0 then x % 2 else Bit(x / 2, i - 1)
  }

  // A number is determined by its digits.
  lemma {:induction false} SameBits(x: nat, y: nat)
    requires forall i: nat :: Bit(x, i) == Bit(y, i)
    ensures x == y
    decreases x + y
  {
    assert Bit(x, 0) == Bit(y, 0);
    if x > 0 || y > 0 {
      forall i: nat ensures Bit(x / 2, i) == Bit(y / 2, i) { assert Bit(x, i + 1) == Bit(y, i + 1); }
      SameBits(x / 2, y / 2);
    }
  }

  lemma {:induction false} BitAnd(x: nat, y: nat, i: nat)
    ensures Bit(And(x, y), i) == 1 <==> Bit(x, i) == 1 && Bit(y, i) == 1
  {
    hide And;
    AndStep(x, y);
    if i > 0 { BitAnd(x / 2, y / 2, i - 1); }
  }

  lemma {:induction false} BitOr(x: nat, y: nat, i: nat)
    ensures Bit(Or(x, y), i) == 1 <==> Bit(x, i) == 1 || Bit(y, i) == 1
  {
    hide Or;
    OrStep(x, y);
    if i > 0 { BitOr(x / 2, y / 2, i - 1); }
  }

  lemma {:induction false} BitXor(x: nat, y: nat, i: nat)
    ensures Bit(Xor(x, y), i) == 1 <==> Bit(x, i) != Bit(y, i)
  {
    hide Xor;
    XorStep(x, y);
    if i > 0 { BitXor(x / 2, y / 2, i - 1); }
  }

  lemma DivHalf(x: nat, p: nat)
    requires p > 0
    ensures x / (2 * p) == (x / 2) / p
  {
    var q, r := x / 2 / p, x / 2 % p;
    assert x == 2 * (p * q + r) + x % 2;
    assert 2 * (p * q) == (2 * p) * q by { var s := p * q; assert (2 * p) * q == s + s; }
    ModUnique(x, 2 * p, q, 2 * r + x % 2);
  }

  lemma {:induction false} BitShr(x: nat, n: nat, i: nat)
    ensures Bit(Shr(x, n), i) == Bit(x, i + n)
    decreases n
  {
    if n > 0 {
      DivHalf(x, Pow2(n - 1));
      BitShr(x / 2, n - 1, i);
      assert Shr(x, n) == Shr(x / 2, n - 1);
    } else {
      assert x / 1 == x;
    }
  }

  lemma {:induction false} BitShl(x: nat, n: nat, i: nat)
    ensures Bit(Shl(x, n), i) == if i < n then 0 else Bit(x, i - n)
  {
    if n > 0 {
      var y := x * Pow2(n - 1);
      assert Shl(x, n) == 2 * y by { assert x * (2 * Pow2(n - 1)) == 2 * (x * Pow2(n - 1)); }
      if i > 0 { BitShl(x, n - 1, i - 1); }
    } else {
      assert x * 1 == x;
    }
  }

  lemma {:induction false} BitMod(x: nat, k: nat, i: nat)
    ensures Bit(x % Pow2(k), i) == if i < k then Bit(x, i) else 0
  {
    if k > 0 {
      ModHalf(x, Pow2(k - 1));
      if i > 0 { BitMod(x / 2, k - 1, i - 1); }
    } else {
      BitZero(i);
    }
  }

  lemma {:induction false} BitZero(i: nat)
    ensures Bit(0, i) == 0
  {
    if i > 0 { BitZero(i - 1); }
  }

  lemma BitHigh(x: word32, i: nat)
    requires i >= 32
    ensures Bit(x, i) == 0
  {
    hide Pow2, Bit;
    Pow32();
    BitMod(x, 32, i);
    assert x % TWO32 == x;
  }

  // ----- the functions of section 4.1.2 of FIPS 180-4, digit by digit -----

  /** A rotation to the right: digit i comes from n places further up, round the end. */
  lemma BitRotr32(x: word32, n: nat, i: nat)
    requires 0 < n < 32 && i < 32
    ensures Bit(Rotr32(x, n), i) == Bit(x, (i + n) % 32)
  {
    hide Or, Shr, Shl, Bit, Pow2;
    Pow32();
    BitOr(Shr(x, n), Shl(x, 32 - n) % TWO32, i);
    BitShr(x, n, i);
    BitMod(Shl(x, 32 - n), 32, i);
    BitShl(x, 32 - n, i);
    if i + n >= 32 { BitHigh(x, i + n); }
  }

  lemma BitNot32(x: word32, i: nat)
    requires i < 32
    ensures Bit(Not32(x), i) == 1 - Bit(x, i)
  {
    Pow32();
    BitComplement(x, 32, i);
  }

  lemma {:induction false} BitComplement(x: nat, k: nat, i: nat)
    requires x < Pow2(k) && i < k
    ensures Bit(Pow2(k) - 1 - x, i) == 1 - Bit(x, i)
  {
    var p := Pow2(k - 1);
    Halves(2 * p - 1 - x, p - 1 - x / 2, 1 - x % 2);
    if i > 0 { BitComplement(x / 2, k - 1, i - 1); }
  }

  /** Choice: a digit of x chooses between those of y and z. */
  lemma BitCh32(x: word32, y: word32, z: word32, i: nat)
    requires i < 32
    ensures Bit(Ch32(x, y, z), i) == if Bit(x, i) == 1 then Bit(y, i) else Bit(z, i)
  {
    hide And, Xor, Not32;
    BitXor(And(x, y), And(Not32(x), z), i);
    BitAnd(x, y, i);
    BitAnd(Not32(x), z, i);
    BitNot32(x, i);
  }

  lemma BitXor3(x: word32, y: word32, z: word32, i: nat)
    ensures Bit(Xor3(x, y, z), i) == (Bit(x, i) + Bit(y, i) + Bit(z, i)) % 2
  {
    hide Xor;
    BitXor(Xor(x, y), z, i);
    BitXor(x, y, i);
  }

  /** Majority: a digit is 1 where at least two of three are. */
  lemma BitMaj32(x: word32, y: word32, z: word32, i: nat)
    ensures Bit(Maj32(x, y, z), i) == 1 <==> Bit(x, i) + Bit(y, i) + Bit(z, i) >= 2
  {
    hide And, Xor3;
    BitXor3(And(x, y), And(x, z), And(y, z), i);
    BitAnd(x, y, i);
    BitAnd(x, z, i);
    BitAnd(y, z, i);
  }

  /** The four sigma functions, as the digits that are added modulo 2. */
  lemma BitSigmas(x: word32, i: nat)
    requires i < 32
    ensures Bit(BigSigma0(x), i) == (Bit(x, (i + 2) % 32) + Bit(x, (i + 13) % 32) + Bit(x, (i + 22) % 32)) % 2
    ensures Bit(BigSigma1(x), i) == (Bit(x, (i + 6) % 32) + Bit(x, (i + 11) % 32) + Bit(x, (i + 25) % 32)) % 2
    ensures Bit(SmallSigma0(x), i) == (Bit(x, (i + 7) % 32) + Bit(x, (i + 18) % 32) + Bit(x, i + 3)) % 2
    ensures Bit(SmallSigma1(x), i) == (Bit(x, (i + 17) % 32) + Bit(x, (i + 19) % 32) + Bit(x, i + 10)) % 2
  {
    hide Rotr32, Shr, Xor3, Bit;
    BitXor3(Rotr32(x, 2), Rotr32(x, 13), Rotr32(x, 22), i);
    BitXor3(Rotr32(x, 6), Rotr32(x, 11), Rotr32(x, 25), i);
    BitXor3(Rotr32(x, 7), Rotr32(x, 18), Shr(x, 3), i);
    BitXor3(Rotr32(x, 17), Rotr32(x, 19), Shr(x, 10), i);
    BitRotr32(x, 2, i); BitRotr32(x, 13, i); BitRotr32(x, 22, i);
    BitRotr32(x, 6, i); BitRotr32(x, 11, i); BitRotr32(x, 25, i);
    BitRotr32(x, 7, i); BitRotr32(x, 18, i);
    BitRotr32(x, 17, i); BitRotr32(x, 19, i);
    BitShr(x, 3, i);
    BitShr(x, 10, i);
  }
}
