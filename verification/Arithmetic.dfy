/** What the operators compute on 64-bit integers. */
module Arithmetic {
  import opened TipTypes
  import opened TipLanguage
  import opened Ir
  import WordBits
  import Words

  // -2^63 and up, below 2^63.
  predicate Fits64(x: int) { -0x8000_0000_0000_0000 <= x < 0x8000_0000_0000_0000 }

  lemma WordSize()
    ensures 2 * TWO63 == Words.TWO64 == Words.Pow2(64)
  {
    assert Words.Pow2(4) == 0x10;
    PowAdds(4, 4);
    PowAdds(8, 8);
    PowAdds(16, 16);
    PowAdds(32, 32);
  }

  lemma {:induction false} PowAdds(j: nat, k: nat)
    ensures Words.Pow2(j + k) == Words.Pow2(j) * Words.Pow2(k)
  {
    if k > 0 {
      PowAdds(j, k - 1);
      var p, q := Words.Pow2(j), Words.Pow2(k - 1);
      assert p * (2 * q) == 2 * (p * q);
    } else {
      assert Words.Pow2(j) * 1 == Words.Pow2(j);
    }
  }

  /** Wrap-around gives the one number of 64 bits that differs by a multiple of 2^64. */
  lemma WrapIs(x: int, y: int)
    requires Fits64(y)
    ensures y == Wrap(x) <==> (y - x) % 0x1_0000_0000_0000_0000 == 0
  {
  }

  lemma WrapFits(x: int)
    ensures Fits64(Wrap(x)) && (Fits64(x) ==> Wrap(x) == x)
  {
  }

  // Adding, subtracting and multiplying, in the language and in the machine.
  lemma SumsAre(x: int, y: int)
    ensures Apply(Add, x, y) == IrApply(IAdd, x, y) && Apply(Sub, x, y) == IrApply(ISub, x, y)
    ensures Apply(Mul, x, y) == IrApply(IMul, x, y)
    ensures var z := Apply(Add, x, y); z.Some? && Fits64(z.value) && (z.value - (x + y)) % 0x1_0000_0000_0000_0000 == 0
    ensures var z := Apply(Sub, x, y); z.Some? && Fits64(z.value) && (z.value - (x - y)) % 0x1_0000_0000_0000_0000 == 0
    ensures var z := Apply(Mul, x, y); z.Some? && Fits64(z.value) && (z.value - x * y) % 0x1_0000_0000_0000_0000 == 0
  {
    WrapFits(x + y); WrapIs(x + y, Wrap(x + y));
    WrapFits(x - y); WrapIs(x - y, Wrap(x - y));
    var p := x * y;
    WrapFits(p); WrapIs(p, Wrap(p));
  }

  // The quotient and the remainder of a division that truncates towards zero.
  ghost predicate Divides(x: int, y: int, q: int, r: int) {
    && x == y * q + r
    && (if r < 0 then -r else r) < (if y < 0 then -y else y)
    && (r == 0 || (r < 0 <==> x < 0))
  }

  lemma QuotientIs(x: int, y: int)
    requires y != 0
    ensures Divides(x, y, Quotient(x, y), x - y * Quotient(x, y))
  {
    var a, b := if x < 0 then -x else x, if y < 0 then -y else y;
    var q := a / b;
    assert a == b * q + a % b;
    if (x < 0) == (y < 0) {
      assert Quotient(x, y) == q;
      if x < 0 { assert y * q == -(b * q); }
    } else {
      assert Quotient(x, y) == -q;
      if x < 0 { assert y * -q == -(b * q); } else { assert y * -q == b * q; }
    }
  }

  /** Division and remainder are undefined for 0 and where the quotient does not fit; elsewhere they
      fit each other, the remainder is smaller than the divisor and has the sign of the dividend. */
  lemma DivisionIs(x: int, y: int)
    ensures Apply(Div, x, y) == IrApply(SDiv, x, y) && Apply(Mod, x, y) == IrApply(SRem, x, y)
    ensures Apply(Div, x, y).None? <==> y == 0 || (x == -0x8000_0000_0000_0000 && y == -1)
    ensures Apply(Mod, x, y).None? <==> Apply(Div, x, y).None?
    ensures Apply(Div, x, y).Some? ==> Divides(x, y, Apply(Div, x, y).value, Apply(Mod, x, y).value)
    ensures Apply(Div, x, y).Some? && Fits64(x) ==> Fits64(Apply(Div, x, y).value)
  {
    if Apply(Div, x, y).Some? {
      QuotientIs(x, y);
      hide Quotient;
      if Fits64(x) { QuotientFits(x, y); }
    }
  }

  // A multiple is no smaller in size.
  lemma MultipleSize(p: int, d: int)
    requires d != 0
    ensures Size(p * d) >= Size(p)
  {
    if p >= 0 {
      Words.MulBig(p, d);
    } else {
      Words.MulBig(-p, d);
      assert -p * d == -(p * d);
    }
  }

  function Size(x: int): nat { if x < 0 then -x else x }

  lemma QuotientFits(x: int, y: int)
    requires Fits64(x) && y != 0 && !(x == -0x8000_0000_0000_0000 && y == -1)
    ensures Fits64(Quotient(x, y))
  {
    var q := Quotient(x, y);
    QuotientIs(x, y);
    hide Quotient;
    MultipleSize(q, y);
    var p := q * y;
    assert y * q == p;
    if q != 0 { MultipleSize(y, q); }
    QuotientRange(x, y, q, p, x - p);
  }

  lemma QuotientRange(x: int, y: int, q: int, p: int, r: int)
    requires Fits64(x) && y != 0 && !(x == -0x8000_0000_0000_0000 && y == -1)
    requires x == p + r && Size(r) < Size(y) && (r == 0 || (r < 0 <==> x < 0))
    requires Size(q) <= Size(p) && (q != 0 ==> Size(p) >= Size(y)) && (q == 0 ==> p == 0)
    requires q == 0x8000_0000_0000_0000 ==> p == 0x8000_0000_0000_0000 * y
    ensures Fits64(q)
  {
  }

  // There are only one quotient and one remainder of this kind.
  lemma DivisionIsUnique(x: int, y: int, q: int, r: int, q': int, r': int)
    requires Divides(x, y, q, r) && Divides(x, y, q', r')
    ensures q == q' && r == r'
  {
    var d := q - q';
    assert y * q - y * q' == y * d;
    if d != 0 { MultipleSize(y, d); }
  }

  /** Comparisons are 1 where they hold and 0 elsewhere. */
  lemma ComparisonsAre(x: int, y: int)
    ensures Apply(Lt, x, y) == Some(if x < y then 1 else 0) && Apply(Ge, x, y) == Some(if x < y then 0 else 1)
    ensures Apply(Gt, x, y) == Some(if y < x then 1 else 0) && Apply(Le, x, y) == Some(if y < x then 0 else 1)
    ensures Apply(Eq, x, y) == Some(if x == y then 1 else 0) && Apply(Ne, x, y) == Some(if x == y then 0 else 1)
    ensures Compare(SLT, x, y) == !Compare(SGE, x, y) == (x < y) && Compare(SGT, x, y) == !Compare(SLE, x, y) == (y < x)
    ensures Compare(EQ, x, y) == !Compare(NE, x, y) == (x == y)
  {
  }

  // Logic on truth values is the minimum and the maximum.
  lemma ConnectivesAre(x: int, y: int)
    requires 0 <= x < 2 && 0 <= y < 2
    ensures Apply(And, x, y) == Some(if x < y then x else y) && Apply(Or, x, y) == Some(if x < y then y else x)
  {
  }

  /** The bitwise operations of the machine, digit by digit of the 64 that a number has. */
  lemma BitwiseIs(x: int, y: int, i: nat)
    requires i < 64
    ensures var z := IrApply(BitAnd, x, y);
            z.Some? && (Digit(z.value, i) == 1 <==> Digit(x, i) == 1 && Digit(y, i) == 1)
    ensures var z := IrApply(BitOr, x, y);
            z.Some? && (Digit(z.value, i) == 1 <==> Digit(x, i) == 1 || Digit(y, i) == 1)
    ensures var z := IrApply(BitXor, x, y);
            z.Some? && (Digit(z.value, i) == 1 <==> Digit(x, i) != Digit(y, i))
  {
    hide Words.And, Words.Or, Words.Xor, Words.Pow2, WordBits.Bit;
    WordSize();
    var a, b := Unsigned(x), Unsigned(y);
    UnsignedIs(x);
    UnsignedIs(y);
    Words.OrBound(a, b, 64);
    Words.XorBound(a, b, 64);
    UnsignedWrap(Words.And(a, b));
    UnsignedWrap(Words.Or(a, b));
    UnsignedWrap(Words.Xor(a, b));
    WordBits.BitAnd(a, b, i);
    WordBits.BitOr(a, b, i);
    WordBits.BitXor(a, b, i);
  }

  // Digit i of a number in two's complement: that of the number between 0 and 2^64 that is the same modulo 2^64.
  function Digit(x: int, i: nat): nat { WordBits.Bit(x % 0x1_0000_0000_0000_0000, i) }

  lemma UnsignedIs(x: int)
    ensures Unsigned(x) == x % 0x1_0000_0000_0000_0000
  {
  }

  lemma UnsignedWrap(n: nat)
    requires n < 0x1_0000_0000_0000_0000
    ensures Wrap(n) % 0x1_0000_0000_0000_0000 == n
  {
  }
}
