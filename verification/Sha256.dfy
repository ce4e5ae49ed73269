/** SHA-256 as FIPS 180-4 defines it, on 32-bit words. */
module Sha256 {
  import opened Words

  // ----- functions and constants: sections 4.1.2, 4.2.2 and 5.3.3 -----

  function Plus(x: nat, y: nat): word32 { (x + y) % TWO32 }

  function Not32(x: word32): word32 { TWO32 - 1 - x }

  function Rotr32(x: word32, n: nat): word32
    requires 0 < n < 32
  {
    OrFits(x, n, Shl(x, 32 - n));
    Or(Shr(x, n), Shl(x, 32 - n) % TWO32)
  }

  function Xor3(x: word32, y: word32, z: word32): word32 {
    Pow32();
    XorBound(x, y, 32);
    XorBound(Xor(x, y), z, 32);
    Xor(Xor(x, y), z)
  }

  function Ch32(x: word32, y: word32, z: word32): word32 {
    Pow32();
    XorBound(And(x, y), And(Not32(x), z), 32);
    Xor(And(x, y), And(Not32(x), z))
  }

  function Maj32(x: word32, y: word32, z: word32): word32 { Xor3(And(x, y), And(x, z), And(y, z)) }

  function BigSigma0(x: word32): word32 { Xor3(Rotr32(x, 2), Rotr32(x, 13), Rotr32(x, 22)) }
  function BigSigma1(x: word32): word32 { Xor3(Rotr32(x, 6), Rotr32(x, 11), Rotr32(x, 25)) }
  function SmallSigma0(x: word32): word32 { Xor3(Rotr32(x, 7), Rotr32(x, 18), Shr(x, 3)) }
  function SmallSigma1(x: word32): word32 { Xor3(Rotr32(x, 17), Rotr32(x, 19), Shr(x, 10)) }

  function K(t: nat): word32
    requires t < 64
  {
    var rows: seq<seq<word32>> :=
      [[0x428a2f98, 0x71374491, 0xb5c0fbcf, 0xe9b5dba5, 0x3956c25b, 0x59f111f1, 0x923f82a4, 0xab1c5ed5],
       [0xd807aa98, 0x12835b01, 0x243185be, 0x550c7dc3, 0x72be5d74, 0x80deb1fe, 0x9bdc06a7, 0xc19bf174],
       [0xe49b69c1, 0xefbe4786, 0x0fc19dc6, 0x240ca1cc, 0x2de92c6f, 0x4a7484aa, 0x5cb0a9dc, 0x76f988da],
       [0x983e5152, 0xa831c66d, 0xb00327c8, 0xbf597fc7, 0xc6e00bf3, 0xd5a79147, 0x06ca6351, 0x14292967],
       [0x27b70a85, 0x2e1b2138, 0x4d2c6dfc, 0x53380d13, 0x650a7354, 0x766a0abb, 0x81c2c92e, 0x92722c85],
       [0xa2bfe8a1, 0xa81a664b, 0xc24b8b70, 0xc76c51a3, 0xd192e819, 0xd6990624, 0xf40e3585, 0x106aa070],
       [0x19a4c116, 0x1e376c08, 0x2748774c, 0x34b0bcb5, 0x391c0cb3, 0x4ed8aa4a, 0x5b9cca4f, 0x682e6ff3],
       [0x748f82ee, 0x78a5636f, 0x84c87814, 0x8cc70208, 0x90befffa, 0xa4506ceb, 0xbef9a3f7, 0xc67178f2]];
    assert forall r | 0 <= r < 8 :: |rows[r]| == 8;
    rows[t / 8][t % 8]
  }

  datatype Hash = Hash(a: word32, b: word32, c: word32, d: word32, e: word32, f: word32, g: word32, h: word32)

  const INITIAL_HASH: Hash :=
    Hash(0x6a09e667, 0xbb67ae85, 0x3c6ef372, 0xa54ff53a, 0x510e527f, 0x9b05688c, 0x1f83d9ab, 0x5be0cd19)

  // ----- one block: section 6.2.2 -----

  predicate IsBlock(m: seq<byte>) { |m| == 64 }

  // Four bytes, the highest first.
  function BigEndian(b0: byte, b1: byte, b2: byte, b3: byte): word32 {
    b0 * 0x1000000 + b1 * 0x10000 + b2 * 0x100 + b3
  }

  function W(m: seq<byte>, t: nat): word32
    requires IsBlock(m)
  {
    if t < 16 then BigEndian(m[4 * t], m[4 * t + 1], m[4 * t + 2], m[4 * t + 3])
    else Plus(Plus(Plus(SmallSigma1(W(m, t - 2)), W(m, t - 7)), SmallSigma0(W(m, t - 15))), W(m, t - 16))
  }

  function Round(s: Hash, k: word32, w: word32): Hash {
    var t1 := Plus(Plus(Plus(Plus(s.h, BigSigma1(s.e)), Ch32(s.e, s.f, s.g)), k), w);
    var t2 := Plus(BigSigma0(s.a), Maj32(s.a, s.b, s.c));
    Hash(Plus(t1, t2), s.a, s.b, s.c, Plus(s.d, t1), s.e, s.f, s.g)
  }

  function Rounds(s: Hash, m: seq<byte>, t: nat): Hash
    requires IsBlock(m) && t <= 64
  {
    if t == 0 then s else Round(Rounds(s, m, t - 1), K(t - 1), W(m, t - 1))
  }

  function Compress(s: Hash, m: seq<byte>): Hash
    requires IsBlock(m)
  {
    var r := Rounds(s, m, 64);
    Hash(Plus(s.a, r.a), Plus(s.b, r.b), Plus(s.c, r.c), Plus(s.d, r.d),
         Plus(s.e, r.e), Plus(s.f, r.f), Plus(s.g, r.g), Plus(s.h, r.h))
  }

  // ----- whole messages: sections 5.1.1 and 6.2 -----

  // The hash value after the first n blocks of m.
  function Hashed(m: seq<byte>, n: nat): Hash
    requires 64 * n <= |m|
  {
    if n == 0 then INITIAL_HASH else Compress(Hashed(m, n - 1), m[64 * (n - 1)..64 * n])
  }

  function Zeros(k: nat): seq<byte> { seq(k, _ => 0) }

  // The length in bits as a 64-bit number, the highest byte first.
  function LengthBytes(x: nat): seq<byte> {
    [(x / 0x100_0000_0000_0000) % 0x100, (x / 0x1_0000_0000_0000) % 0x100, (x / 0x100_0000_0000) % 0x100,
     (x / 0x1_0000_0000) % 0x100, (x / 0x100_0000) % 0x100, (x / 0x1_0000) % 0x100, (x / 0x100) % 0x100, x % 0x100]
  }

  // How many zero bytes fill up the last block, as few as possible.
  function Filling(length: nat): (k: nat)
    ensures (length + 1 + k + 8) % 64 == 0 && k < 64
  {
    (119 - length % 64) % 64
  }

  function Padded(m: seq<byte>): (p: seq<byte>)
    ensures |p| % 64 == 0
  {
    m + [0x80] + Zeros(Filling(|m|)) + LengthBytes((8 * |m|) % TWO64)
  }

  function WordBytes(x: word32): seq<byte> { [x / 0x1000000, (x / 0x10000) % 0x100, (x / 0x100) % 0x100, x % 0x100] }

  function Digest(s: Hash): seq<byte> {
    WordBytes(s.a) + WordBytes(s.b) + WordBytes(s.c) + WordBytes(s.d) +
    WordBytes(s.e) + WordBytes(s.f) + WordBytes(s.g) + WordBytes(s.h)
  }

  function MessageDigest(m: seq<byte>): seq<byte> {
    Digest(Hashed(Padded(m), |Padded(m)| / 64))
  }

  // ----- lemmas -----

  lemma Pow32()
    ensures Pow2(32) == TWO32
  {
    assert Pow2(8) == 0x100;
    assert Pow2(16) == 0x10000;
    assert Pow2(24) == 0x1000000;
  }

  lemma OrFits(x: word32, n: nat, y: nat)
    ensures Or(Shr(x, n), y % TWO32) < TWO32
  {
    hide Or, Shr;
    Pow32();
    OrBound(Shr(x, n), y % TWO32, 32);
  }

  // The blocks hashed so far do not depend on what follows.
  lemma {:induction false} HashedPrefix(m: seq<byte>, m': seq<byte>, n: nat)
    requires 64 * n <= |m| && m <= m'
    ensures Hashed(m, n) == Hashed(m', n)
  {
    hide Compress;
    if n > 0 {
      HashedPrefix(m, m', n - 1);
      assert m[64 * (n - 1)..64 * n] == m'[64 * (n - 1)..64 * n];
    }
  }
}
