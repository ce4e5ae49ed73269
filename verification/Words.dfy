/** Unsigned machine words as numbers: bitwise operations on their binary digits, and arithmetic that
    wraps around. What a word of 32 bits needs is stated here once, for the standard and for the code alike. */
module Words {

  const TWO32: nat := 0x1_0000_0000
  const TWO64: nat := 0x1_0000_0000_0000_0000

  type byte = x: nat | x < 0x100
  type word32 = x: nat | x < TWO32
  // unsigned long
  type word = x: nat | x < TWO64

  function Pow2(k: nat): (p: nat)
    ensures p > 0
  {
    if k == 0 then 1 else 2 * Pow2(k - 1)
  }

  // Bit by bit, from the lowest; they do not depend on a width.
  function And(x: nat, y: nat): (r: nat)
    ensures r <= x && r <= y
  {
    if x == 0 || y == 0 then 0 else (x % 2) * (y % 2) + 2 * And(x / 2, y / 2)
  }

  function Or(x: nat, y: nat): nat {
    if x == 0 then y else if y == 0 then x else
    (if x % 2 + y % 2 > 0 then 1 else 0) + 2 * Or(x / 2, y / 2)
  }

  function Xor(x: nat, y: nat): nat {
    if x == 0 then y else if y == 0 then x else
    (x + y) % 2 + 2 * Xor(x / 2, y / 2)
  }

  lemma {:induction false} MulBig(p: int, d: int)
    requires p >= 0 && d != 0
    ensures p * d >= p || p * d <= -p
    decreases if d > 0 then d else -d
  {
    if d > 1 {
      MulBig(p, d - 1);
      assert p * d == p * (d - 1) + p;
    } else if d < -1 {
      MulBig(p, d + 1);
      assert p * d == p * (d + 1) - p;
    } else {
      assert p * 1 == p && p * -1 == -p;
    }
  }

  // Quotient and remainder are unique.
  lemma ModUnique(a: nat, p: nat, q: nat, r: nat)
    requires a == p * q + r && r < p
    ensures a % p == r && a / p == q
  {
    var d := a / p - q;
    assert p * d == r - a % p by { assert p * (a / p) == p * q + p * d; }
    if d != 0 { MulBig(p, d); }
  }

  lemma ModHalf(x: nat, p: nat)
    requires p > 0
    ensures (x % (2 * p)) % 2 == x % 2 && (x % (2 * p)) / 2 == (x / 2) % p
  {
    var m := 2 * p;
    var q, r := x / m, x % m;
    var pq := p * q;
    assert m * q == 2 * pq;
    Halves(x, pq, r);
    ModUnique(x / 2, p, q, r / 2);
  }

  lemma Halves(x: nat, y: nat, r: nat)
    requires x == 2 * y + r
    ensures x / 2 == y + r / 2 && x % 2 == r % 2
  {
  }

  // Masking with k ones is the remainder.
  lemma {:induction false} AndMask(x: nat, k: nat)
    ensures And(x, Pow2(k) - 1) == x % Pow2(k)
  {
    hide And;
    if k > 0 {
      var p := Pow2(k - 1);
      AndMask(x / 2, k - 1);
      ModHalf(x, p);
      Halves(2 * p - 1, p - 1, 1);
      AndStep(x, 2 * p - 1);
      Halves(x % (2 * p), (x / 2) % p, x % 2);
    } else {
      AndZero(x);
    }
  }

  // Against a number of k bits only the low k bits matter.
  lemma {:induction false} AndLow(u: nat, v: nat, z: nat, k: nat)
    requires u % Pow2(k) == v % Pow2(k) && z < Pow2(k)
    ensures And(u, z) == And(v, z)
  {
    if k > 0 && z > 0 {
      var p := Pow2(k - 1);
      ModHalf(u, p);
      ModHalf(v, p);
      AndLow(u / 2, v / 2, z / 2, k - 1);
      AndStep(u, z);
      AndStep(v, z);
    }
  }

  lemma AndZero(x: nat)
    ensures And(x, 0) == 0
  {
  }

  lemma AndStep(x: nat, y: nat)
    ensures And(x, y) == (x % 2) * (y % 2) + 2 * And(x / 2, y / 2)
  {
  }

  lemma OrZero()
    ensures Or(0, 0) == 0
  {
  }

  lemma OrStep(x: nat, y: nat)
    ensures Or(x, y) == (if x % 2 + y % 2 > 0 then 1 else 0) + 2 * Or(x / 2, y / 2)
  {
  }

  lemma XorStep(x: nat, y: nat)
    ensures Xor(x, y) == (x + y) % 2 + 2 * Xor(x / 2, y / 2)
  {
  }

  lemma {:induction false} OrMod(u: nat, v: nat, k: nat)
    ensures Or(u, v) % Pow2(k) == Or(u % Pow2(k), v % Pow2(k))
  {
    hide Or;
    if k > 0 {
      var p := Pow2(k - 1);
      OrStep(u, v);
      ModHalf(u, p);
      ModHalf(v, p);
      ModHalf(Or(u, v), p);
      OrMod(u / 2, v / 2, k - 1);
      OrStep(u % (2 * p), v % (2 * p));
      var bit := if u % 2 + v % 2 > 0 then 1 else 0;
      Halves(Or(u, v), Or(u / 2, v / 2), bit);
      Halves(Or(u, v) % (2 * p), Or(u / 2, v / 2) % p, bit);
    } else {
      OrZero();
    }
  }

  lemma {:induction false} OrBound(x: nat, y: nat, k: nat)
    requires x < Pow2(k) && y < Pow2(k)
    ensures Or(x, y) < Pow2(k)
  {
    if k > 0 {
      OrStep(x, y);
      OrBound(x / 2, y / 2, k - 1);
    }
  }

  lemma {:induction false} XorBound(x: nat, y: nat, k: nat)
    requires x < Pow2(k) && y < Pow2(k)
    ensures Xor(x, y) < Pow2(k)
  {
    if k > 0 {
      XorStep(x, y);
      XorBound(x / 2, y / 2, k - 1);
    }
  }

  // Where no bits meet, or is addition.
  lemma {:induction false} OrDisjoint(x: nat, y: nat, k: nat)
    requires y < Pow2(k)
    ensures Or(x * Pow2(k), y) == x * Pow2(k) + y
  {
    if k > 0 {
      var p := Pow2(k - 1);
      var xp := x * p;
      assert x * (2 * p) == 2 * xp;
      OrDisjoint(x, y / 2, k - 1);
      OrStep(2 * xp, y);
    } else {
      assert x * 1 == x;
    }
  }

  lemma {:induction false} MulGrows(p: nat, q: nat)
    requires p > 0
    ensures p * q >= q
  {
    if q > 0 {
      MulGrows(p, q - 1);
      assert p * q == p * (q - 1) + p;
    }
  }

  lemma ShiftShrinks(x: nat, p: nat)
    requires p > 0
    ensures 0 <= x / p <= x
  {
    MulGrows(p, x / p);
  }

  function Shl(x: nat, n: nat): nat {
    MulGrows(Pow2(n), x);
    x * Pow2(n)
  }

  function Shr(x: nat, n: nat): (r: nat)
    ensures r <= x
  {
    ShiftShrinks(x, Pow2(n));
    x / Pow2(n)
  }
}
