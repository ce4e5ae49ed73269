/** The hasher that takes its message in pieces. */
module Hash256 {
  import opened Words
  import opened Sha256
  import opened PicoSha2

  // ----- the length as four 16-bit digits, the lowest first -----

  function Weight(i: nat): nat
    requires i <= 4
  {
    [1, 0x1_0000, 0x1_0000_0000, 0x1_0000_0000_0000, TWO64][i]
  }

  function Value(d: seq<nat>): nat
    requires |d| == 4
  {
    d[0] + d[1] * 0x1_0000 + d[2] * 0x1_0000_0000 + d[3] * 0x1_0000_0000_0000
  }

  predicate IsDigits(d: seq<nat>) {
    |d| == 4 && forall i | 0 <= i < 4 :: d[i] < 0x1_0000
  }

  lemma WeightOne()
    ensures Weight(0) == 1
  {
  }

  lemma WeightFour()
    ensures Weight(4) == TWO64
  {
  }

  // The sum in the lowest digit may wrap, which loses nothing modulo 2^64.
  lemma FirstDigit(d: seq<nat>, n: nat)
    requires |d| == 4
    ensures Value(d[0 := (d[0] + n) % TWO64]) % TWO64 == (Value(d) + n) % TWO64
  {
    var x := d[0] + n;
    var q := x / TWO64;
    assert x == x % TWO64 + q * TWO64;
    assert Value(d) + n == Value(d[0 := x % TWO64]) + q * TWO64;
  }

  lemma DigitMask(x: word)
    ensures And(x, 65535) == x % 0x1_0000
  {
    hide And;
    AndMask(x, 16);
    assert Pow2(8) == 0x100;
    assert Pow2(16) == 0x1_0000;
  }

  // A carry into digit i, and what is carried on from there.
  lemma CarryStep(d: seq<nat>, i: nat, carry: nat)
    requires |d| == 4 && i < 4
    ensures var x := d[i] + carry;
            Value(d[i := x % 0x1_0000]) + (x / 0x1_0000) * Weight(i + 1) == Value(d) + carry * Weight(i)
  {
    var x := d[i] + carry;
    assert x == x % 0x1_0000 + (x / 0x1_0000) * 0x1_0000;
    if i == 0 {} else if i == 1 {} else if i == 2 {} else {}
  }

  // The value of the lowest i digits.
  function Low(d: seq<nat>, i: nat): nat
    requires |d| == 4 && i <= 4
  {
    if i == 0 then 0 else Low(d, i - 1) + d[i - 1] * Weight(i - 1)
  }

  lemma LowIsValue(d: seq<nat>)
    requires IsDigits(d)
    ensures Low(d, 4) == Value(d) < TWO64
  {
    assert Low(d, 1) == d[0];
    assert Low(d, 2) == d[0] + d[1] * 0x1_0000;
    assert Low(d, 3) == d[0] + d[1] * 0x1_0000 + d[2] * 0x1_0000_0000;
  }

  lemma {:induction false} LowSame(d: seq<nat>, d': seq<nat>, i: nat)
    requires |d| == |d'| == 4 && i <= 4 && forall j | 0 <= j < i :: d[j] == d'[j]
    ensures Low(d, i) == Low(d', i)
  {
    if i > 0 { LowSame(d, d', i - 1); }
  }

  // Eight times a digit, with the three bits carried in or-ed into the gap.
  lemma ShiftDigit(x: nat, carry: nat)
    requires x < 0x1_0000 && carry < 8
    ensures And(Or((x * 8) % TWO64, carry), 65535) == (8 * x + carry) % 0x1_0000
    ensures And(x / 0x2000, 65535) == (8 * x + carry) / 0x1_0000 < 8
  {
    hide And, Or;
    assert Pow2(3) == 8;
    OrDisjoint(x, carry, 3);
    DigitMask(8 * x + carry);
    DigitMask(x / 0x2000);
  }

  // One digit off the bottom.
  lemma Digit(v: nat, rest: nat, d: nat)
    requires v == rest * 0x1_0000 + d && d < 0x1_0000
    ensures v / 0x1_0000 == rest && v % 0x100 == d % 0x100 && (v / 0x100) % 0x100 == d / 0x100
  {
    var high, low := d / 0x100, d % 0x100;
    ModUnique(v, 0x1_0000, rest, d);
    ModUnique(v, 0x100, rest * 0x100 + high, low);
    ModUnique(rest * 0x100 + high, 0x100, rest, high);
  }

  lemma Quotients(v: nat)
    ensures v / 0x1_0000_0000 == v / 0x1_0000 / 0x1_0000
    ensures v / 0x1_0000_0000_0000 == v / 0x1_0000_0000 / 0x1_0000
    ensures v / 0x100_0000 == v / 0x1_0000 / 0x100
    ensures v / 0x100_0000_0000 == v / 0x1_0000_0000 / 0x100
    ensures v / 0x100_0000_0000_0000 == v / 0x1_0000_0000_0000 / 0x100
  {
  }

  lemma DigitBytes(d: seq<nat>)
    requires IsDigits(d)
    ensures LengthBytes(Value(d)) ==
            [d[3] / 0x100, d[3] % 0x100, d[2] / 0x100, d[2] % 0x100,
             d[1] / 0x100, d[1] % 0x100, d[0] / 0x100, d[0] % 0x100]
  {
    var v := Value(d);
    var v1 := d[1] + d[2] * 0x1_0000 + d[3] * 0x1_0000_0000;
    var v2 := d[2] + d[3] * 0x1_0000;
    Quotients(v);
    Digit(v, v1, d[0]);
    Digit(v1, v2, d[1]);
    Digit(v2, d[3], d[2]);
    Digit(d[3], 0, d[3]);
  }

  // ----- padding -----

  // The part of a message that is left over after its last whole block.
  function Rest(m: seq<byte>): (r: seq<byte>)
    ensures |r| == |m| % 64
  {
    m[64 * (|m| / 64)..]
  }

  lemma PaddedPrefix(m: seq<byte>)
    ensures m <= Padded(m)
  {
  }

  // With room for the length in the last block there is one more block; otherwise two.
  lemma PaddedShort(m: seq<byte>)
    requires |m| % 64 <= 55
    ensures var p, n := Padded(m), |m| / 64;
            && |p| == 64 * (n + 1) && |p| / 64 == n + 1
            && p[64 * n..64 * (n + 1)] == Rest(m) + [0x80] + Zeros(55 - |m| % 64) + LengthBytes((8 * |m|) % TWO64)
  {
    assert Filling(|m|) == 55 - |m| % 64;
  }

  lemma PaddedLong(m: seq<byte>)
    requires |m| % 64 > 55
    ensures var p, n := Padded(m), |m| / 64;
            && |p| == 64 * (n + 2) && |p| / 64 == n + 2
            && p[64 * n..64 * (n + 1)] == Rest(m) + [0x80] + Zeros(63 - |m| % 64)
            && p[64 * (n + 1)..64 * (n + 2)] == Zeros(56) + LengthBytes((8 * |m|) % TWO64)
  {
    assert Filling(|m|) == 119 - |m| % 64;
  }

  // The whole blocks of a longer message.
  lemma BlocksFit(m: seq<byte>, c: seq<byte>, i: nat)
    requires 64 * i + 64 <= |Rest(m) + c|
    ensures var n := |m| / 64; 64 * (n + i) + 64 <= |m + c|
    ensures var n := |m| / 64; (Rest(m) + c)[64 * i..64 * i + 64] == (m + c)[64 * (n + i)..64 * (n + i + 1)]
  {
    assert (m + c)[64 * (|m| / 64)..] == Rest(m) + c;
  }

  lemma RestOf(m: seq<byte>, c: seq<byte>, i: nat)
    requires 64 * i <= |Rest(m) + c| < 64 * i + 64
    ensures |m + c| / 64 == |m| / 64 + i
    ensures (Rest(m) + c)[64 * i..] == Rest(m + c)
  {
    assert (m + c)[64 * (|m| / 64)..] == Rest(m) + c;
    ModUnique(|m + c|, 64, |m| / 64 + i, |Rest(m) + c| - 64 * i);
  }

  lemma LengthAdds(m: seq<byte>, c: seq<byte>)
    ensures (|m| % TWO64 + |c| % TWO64) % TWO64 == |m + c| % TWO64
  {
  }

  lemma HashedNext(m: seq<byte>, n: nat)
    requires 64 * (n + 1) <= |m|
    ensures Hashed(m, n + 1) == Compress(Hashed(m, n), m[64 * n..64 * (n + 1)])
  {
  }

  lemma ShiftStep(d: seq<nat>, bits: seq<nat>, i: nat, carry: nat)
    requires |d| == |bits| == 4 && i < 4 && Low(bits, i) + carry * Weight(i) == 8 * Low(d, i)
    ensures var x := 8 * d[i] + carry;
            Low(bits[i := x % 0x1_0000], i + 1) + (x / 0x1_0000) * Weight(i + 1) == 8 * Low(d, i + 1)
  {
    var x := 8 * d[i] + carry;
    var bits' := bits[i := x % 0x1_0000];
    LowSame(bits, bits', i);
    assert x == x % 0x1_0000 + (x / 0x1_0000) * 0x1_0000;
    if i == 0 {} else if i == 1 {} else if i == 2 {} else {}
  }

  function InitialWords(): (w: seq<nat>)
    ensures |w| == 8
  {
    var s := INITIAL_HASH;
    [s.a, s.b, s.c, s.d, s.e, s.f, s.g, s.h]
  }

  lemma AtFirst()
    ensures IsHash(InitialWords(), Hashed([], 0)) && Rest([]) == []
    ensures IsDigits([0, 0, 0, 0]) && Value([0, 0, 0, 0]) == 0
  {
  }

  lemma DigitsAre(d: seq<nat>)
    requires |d| == 4
    ensures IsDigits(d) <==> forall j {:trigger d[j]} | 0 <= j < 4 :: d[j] < 0x1_0000
  {
  }

  lemma CarriedOut(d: seq<nat>, v: nat, w: nat, lost: nat)
    requires IsDigits(d) && Value(d) + lost * TWO64 == v && v % TWO64 == w % TWO64
    ensures Value(d) == w % TWO64
  {
    LowIsValue(d);
    ModUnique(v, TWO64, lost, Value(d));
  }

  class Hash256OneByOne {
    var buffer: seq<byte>
    const dataLengthDigits: array<nat>
    const h: array<nat>
    // Everything processed so far.
    ghost var message: seq<byte>

    ghost predicate Valid() reads this, dataLengthDigits, h {
      && dataLengthDigits.Length == 4 && h.Length == 8 && dataLengthDigits != h
      && IsHash(h[..], Hashed(message, |message| / 64))
      && buffer == Rest(message)
      && IsDigits(dataLengthDigits[..]) && Value(dataLengthDigits[..]) == |message| % TWO64
    }

    constructor ()
      ensures Valid() && fresh(dataLengthDigits) && fresh(h) && message == []
    {
      hide Hashed, Value, IsDigits, IsHash, Rest;
      buffer, message := [], [];
      dataLengthDigits := new nat[4](_ => 0);
      var words := InitialWords();
      h := new nat[8](i requires 0 <= i < 8 => words[i]);
      new;
      AtFirst();
      assert dataLengthDigits[..] == [0, 0, 0, 0];
      assert h[..] == InitialWords();
    }

    // Adds modulo 2^64.
    method AddToDataLength(n: word)
      requires dataLengthDigits.Length == 4 && IsDigits(dataLengthDigits[..])
      modifies dataLengthDigits
      ensures IsDigits(dataLengthDigits[..])
      ensures Value(dataLengthDigits[..]) == (old(Value(dataLengthDigits[..])) + n) % TWO64
    {
      hide And, Value, Weight, IsDigits;
      DigitsAre(dataLengthDigits[..]);
      var carry: nat := 0;
      var d := dataLengthDigits;
      ghost var was := d[..];
      d[0] := (d[0] + n) % TWO64;
      ghost var v := Value(d[..]);
      assert d[..] == was[0 := d[0]];
      FirstDigit(was, n);
      WeightOne();
      for i := 0 to 4
        invariant carry < 0x1_0000_0000_0000 && (i == 0 ==> carry == 0 && d[0] < TWO64)
        invariant forall j {:trigger d[j]} | 0 <= j < 4 && (i > 0 || j > 0) :: d[j] < 0x1_0000
        invariant Value(d[..]) + carry * Weight(i) == v
      {
        CarryStep(d[..], i, carry);
        carry := PassOn(i, carry);
        if carry == 0 {
          DigitsAre(d[..]);
          CarriedOut(d[..], v, Value(was) + n, 0);
          return;
        }
      }
      WeightFour();
      DigitsAre(d[..]);
      CarriedOut(d[..], v, Value(was) + n, carry);
    }

    // The carry goes into digit i, and what does not fit there is the next one.
    method PassOn(i: nat, carry: nat) returns (next: nat)
      requires i < 4 == dataLengthDigits.Length && dataLengthDigits[i] + carry < TWO64
      modifies dataLengthDigits
      ensures var x := old(dataLengthDigits[i]) + carry;
              dataLengthDigits[..] == old(dataLengthDigits[..])[i := x % 0x1_0000] && next == x / 0x1_0000
    {
      hide And;
      var d := dataLengthDigits;
      d[i] := (d[i] + carry) % TWO64;
      DigitMask(d[i]);
      next := 0;
      if d[i] >= 65536 {
        next := d[i] / 0x1_0000;
        d[i] := And(d[i], 65535);
      }
    }

    // The next block of m.
    method HashNext(block: seq<byte>, ghost m: seq<byte>, ghost n: nat)
      requires h.Length == 8 && 64 * (n + 1) <= |m| && block == m[64 * n..64 * (n + 1)]
      requires IsHash(h[..], Hashed(m, n))
      modifies h
      ensures IsHash(h[..], Hashed(m, n + 1))
    {
      hide Compress, IsHash;
      HashedNext(m, n);
      Hash256Block(h, block, Hashed(m, n));
    }

    method Process(chunk: seq<byte>)
      requires Valid()
      modifies this, dataLengthDigits, h
      ensures Valid() && message == old(message) + chunk
    {
      hide Hashed, Compress, Value, IsDigits, IsHash, Rest;
      LengthAdds(message, chunk);
      AddToDataLength(|chunk| % TWO64);
      buffer := buffer + chunk;
      ghost var m' := message + chunk;
      ghost var n := |message| / 64;
      HashedPrefix(message, m', n);
      label added:
      var i := 0;
      ghost var k := 0;
      while i + 64 <= |buffer|
        invariant i == 64 * k && i <= |buffer| && buffer == Rest(message) + chunk && message == old(message)
        invariant 64 * (n + k) <= |m'| && IsHash(h[..], Hashed(m', n + k))
        invariant dataLengthDigits[..] == old@added(dataLengthDigits[..])
        decreases |buffer| - i
      {
        BlocksFit(message, chunk, k);
        HashNext(buffer[i..i + 64], m', n + k);
        i, k := i + 64, k + 1;
      }
      RestOf(message, chunk, k);
      buffer := buffer[i..];
      message := m';
    }

    method WriteDataBitLength(temp: array<byte>, begin: nat)
      requires dataLengthDigits.Length == 4 && IsDigits(dataLengthDigits[..]) && begin + 8 == temp.Length
      modifies temp
      ensures temp[..begin] == old(temp[..begin])
      ensures temp[begin..] == LengthBytes((8 * Value(dataLengthDigits[..])) % TWO64)
    {
      hide And, Or, Value, LengthBytes;
      ghost var d := dataLengthDigits[..];
      var bits: seq<nat> := dataLengthDigits[..];
      var carry: nat := 0;
      for i := 0 to 4
        invariant |bits| == 4 && carry < 8 && temp[..] == old(temp[..])
        invariant forall j | 0 <= j < 4 :: bits[j] < 0x1_0000 && (j >= i ==> bits[j] == d[j])
        invariant Low(bits, i) + carry * Weight(i) == 8 * Low(d, i)
      {
        var before := bits[i];
        ghost var bits' := bits;
        ShiftDigit(before, carry);
        ShiftStep(d, bits, i, carry);
        bits := bits[i := (bits[i] * 8) % TWO64];
        bits := bits[i := Or(bits[i], carry)];
        bits := bits[i := And(bits[i], 65535)];
        carry := And(before / 0x2000, 65535);
        assert bits == bits'[i := bits[i]];
      }
      LowIsValue(d);
      LowIsValue(bits);
      WeightFour();
      assert Value(bits) == (8 * Value(d)) % TWO64 by { ModUnique(8 * Value(d), TWO64, carry, Value(bits)); }
      DigitBytes(bits);
      var at := begin;
      for i := 4 downto 0
        invariant at == begin + 8 - 2 * i && temp[..begin] == old(temp[..begin])
        invariant forall j | i <= j < 4 ::
            temp[begin + 6 - 2 * j] == bits[j] / 0x100 && temp[begin + 7 - 2 * j] == bits[j] % 0x100
      {
        temp[at] := (bits[i] / 0x100) % 0x100;
        temp[at + 1] := bits[i] % 0x100;
        at := at + 2;
      }
      EightBytes(temp[begin..], bits);
    }

    /** Pads what is left over and hashes it: in the end all blocks of the padded message, and
        no others, have been hashed. */
    method Finish()
      requires Valid()
      modifies h
      ensures h.Length == 8
      ensures IsHash(h[..], Hashed(Padded(message), |Padded(message)| / 64))
    {
      hide Hashed, Compress, Value, IsDigits, IsHash, Rest, LengthBytes, Padded;
      ghost var p := Padded(message);
      LengthTimes8(|message|);
      var temp := new byte[64](_ => 0);
      var remains := |buffer|;
      CopyIn(temp, buffer);
      temp[remains] := 0x80;
      ghost var n := HashFilled(temp, remains);
      HashLast(temp, p, n);
    }

    // Fills up with zeros, and if the length does not fit any more starts another block.
    method HashFilled(temp: array<byte>, remains: nat) returns (ghost n: nat)
      requires Valid() && temp.Length == 64 && remains == |buffer| && temp[..remains + 1] == buffer + [0x80]
      modifies temp, h
      ensures h.Length == 8 && var p := Padded(message);
              && |p| / 64 == n + 1 && IsHash(h[..], Hashed(p, n))
              && p[64 * n..64 * (n + 1)] == temp[..56] + LengthBytes((8 * |message|) % TWO64)
    {
      hide Hashed, Compress, Value, IsDigits, IsHash, Rest, LengthBytes, Padded;
      ghost var p := Padded(message);
      n := |message| / 64;
      PaddedPrefix(message);
      HashedPrefix(message, p, n);
      if remains > 55 {
        PaddedLong(message);
        FillZero(temp, remains + 1, 64);
        HashNext(temp[..], p, n);
        FillZero(temp, 0, 60);
        n := n + 1;
      } else {
        PaddedShort(message);
        FillZero(temp, remains + 1, 60);
      }
    }

    // The last block has the length at its end.
    method HashLast(temp: array<byte>, ghost p: seq<byte>, ghost n: nat)
      requires dataLengthDigits.Length == 4 && h.Length == 8 && IsDigits(dataLengthDigits[..])
      requires temp.Length == 64 && 64 * (n + 1) <= |p|
      requires p[64 * n..64 * (n + 1)] == temp[..56] + LengthBytes((8 * Value(dataLengthDigits[..])) % TWO64)
      requires IsHash(h[..], Hashed(p, n))
      modifies temp, h
      ensures IsHash(h[..], Hashed(p, n + 1))
    {
      hide Hashed, Compress, Value, IsDigits, IsHash, Rest, LengthBytes;
      WriteDataBitLength(temp, 56);
      assert temp[..] == temp[..56] + temp[56..];
      HashNext(temp[..], p, n);
    }

    // The first n bytes of the digest, or all 32 of them.
    method GetHashBytes(n: nat, ghost s: Hash) returns (out: seq<byte>)
      requires h.Length == 8 && IsHash(h[..], s)
      ensures out == Digest(s)[..if n < 32 then n else 32]
    {
      hide Shr, WordBytes;
      out := [];
      DigestIndex(s, 0, 0);
      for iter := 0 to 8
        invariant |out| == (if n < 4 * iter then n else 4 * iter) && out <= Digest(s)
      {
        assert h[iter] == WordAt(s, iter);
        for i := 0 to 4
          invariant |out| == (if n < 4 * iter + i then n else 4 * iter + i) && out <= Digest(s)
        {
          if |out| == n { break; }
          DigestByte(s, iter, i);
          out := out + [Shr(h[iter], 24 - 8 * i) % 0x100];
        }
      }
    }
  }

  method CopyIn(temp: array<byte>, from: seq<byte>)
    requires |from| <= temp.Length
    modifies temp
    ensures temp[..] == from + old(temp[|from|..])
  {
    for i := 0 to |from|
      invariant temp[..i] == from[..i] && temp[|from|..] == old(temp[|from|..])
    {
      temp[i] := from[i];
    }
    assert temp[..] == temp[..|from|] + temp[|from|..];
  }

  // std::fill with zeros
  method FillZero(temp: array<byte>, first: nat, last: nat)
    requires first <= last <= temp.Length
    modifies temp
    ensures temp[..] == old(temp[..first]) + Zeros(last - first) + old(temp[last..])
  {
    for i := first to last
      invariant forall j | 0 <= j < temp.Length :: temp[j] == if first <= j < i then 0 else old(temp[j])
    {
      temp[i] := 0;
    }
  }

  lemma EightBytes(t: seq<byte>, bits: seq<nat>)
    requires |t| == 8 && IsDigits(bits)
    requires forall j | 0 <= j < 4 :: t[6 - 2 * j] == bits[j] / 0x100 && t[7 - 2 * j] == bits[j] % 0x100
    ensures t == [bits[3] / 0x100, bits[3] % 0x100, bits[2] / 0x100, bits[2] % 0x100,
                  bits[1] / 0x100, bits[1] % 0x100, bits[0] / 0x100, bits[0] % 0x100]
  {
    assert t[6 - 2 * 3] == bits[3] / 0x100 && t[6 - 2 * 2] == bits[2] / 0x100;
    assert t[6 - 2 * 1] == bits[1] / 0x100 && t[6 - 2 * 0] == bits[0] / 0x100;
  }

  lemma LengthTimes8(n: nat)
    ensures (8 * (n % TWO64)) % TWO64 == (8 * n) % TWO64
  {
    var q := n / TWO64;
    assert 8 * n == 8 * (n % TWO64) + TWO64 * (8 * q);
  }

  lemma DigestByte(s: Hash, k: nat, i: nat)
    requires k < 8 && i < 4
    ensures Digest(s)[4 * k + i] == Shr(WordAt(s, k), 24 - 8 * i) % 0x100
  {
    hide Shr;
    WordByte(WordAt(s, k), i);
    assert Digest(s)[4 * k + i] == WordBytes(WordAt(s, k))[i] by { hide WordBytes; DigestIndex(s, k, i); }
  }

  function WordAt(s: Hash, k: nat): word32
    requires k < 8
  {
    if k == 0 then s.a else if k == 1 then s.b else if k == 2 then s.c else if k == 3 then s.d
    else if k == 4 then s.e else if k == 5 then s.f else if k == 6 then s.g else s.h
  }

  lemma DigestIndex(s: Hash, k: nat, i: nat)
    requires k < 8 && i < 4
    ensures |WordBytes(WordAt(s, k))| == 4 && |Digest(s)| == 32 && Digest(s)[4 * k + i] == WordBytes(WordAt(s, k))[i]
  {
  }

  lemma WordByte(w: word32, i: nat)
    requires i < 4
    ensures WordBytes(w)[i] == Shr(w, 24 - 8 * i) % 0x100
  {
    assert Pow2(0) == 1;
    assert Pow2(8) == 0x100;
    assert Pow2(16) == 0x1_0000;
    assert Pow2(24) == 0x100_0000;
  }

  // ----- the two entry points -----

  // For random access iterators.
  method Hash256Whole(input: seq<byte>, n: nat) returns (out: seq<byte>)
    ensures out == MessageDigest(input)[..if n < 32 then n else 32]
  {
    hide Hash256OneByOne.Valid, Hashed, Padded, Digest, IsHash;
    var hasher := new Hash256OneByOne();
    hasher.Process(input);
    hasher.Finish();
    assert [] + input == input;
    out := hasher.GetHashBytes(n, Hashed(Padded(input), |Padded(input)| / 64));
  }

  // Where one round of the buffered loop takes the position.
  function AfterChunk(total: nat, start: nat, size: nat): nat {
    if start + size <= total then start + size else total
  }

  // Fills the buffer as far as the input goes.
  method ReadChunk(input: seq<byte>, start: nat, buffer: array<byte>) returns (size: nat, first: nat)
    requires start < |input|
    modifies buffer
    ensures first == AfterChunk(|input|, start, buffer.Length)
    ensures size <= buffer.Length && start <= first && buffer[..size] == input[start..first]
  {
    size, first := buffer.Length, start;
    var i := 0;
    while i != buffer.Length
      invariant 0 <= i <= buffer.Length == size && first == start + i <= |input| && buffer[..i] == input[start..first]
      decreases buffer.Length - i
    {
      if first == |input| {
        size := i;
        break;
      }
      buffer[i] := input[first];
      i, first := i + 1, first + 1;
    }
  }

  // The position in a message of the given length after so many rounds.
  function Position(total: nat, size: nat, rounds: nat): (p: nat)
    ensures p <= total
  {
    if rounds == 0 then 0 else
    var p := Position(total, size, rounds - 1);
    if p == total then p else AfterChunk(total, p, size)
  }

  lemma {:induction false} PositionIs(total: nat, size: nat, rounds: nat)
    ensures Position(total, size, rounds) == if rounds * size <= total then rounds * size else total
  {
    if rounds > 0 {
      PositionIs(total, size, rounds - 1);
      assert rounds * size == (rounds - 1) * size + size;
    }
  }

  /** The loop over the chunks comes to its end if and only if the buffer has room or there is
      nothing to read. */
  lemma BufferedEnds(total: nat, size: nat)
    ensures (exists rounds: nat :: Position(total, size, rounds) == total) <==> size > 0 || total == 0
  {
    if size > 0 {
      PositionIs(total, size, total);
      MulGrows(size, total);
      assert Position(total, size, total) == total;
    } else if total == 0 {
      assert Position(total, size, 0) == total;
    } else {
      forall rounds: nat ensures Position(total, size, rounds) == 0 { PositionIs(total, size, rounds); }
    }
  }

  // The digest, or the exception of a vector that is asked for a negative length.
  datatype Buffered = Digested(bytes: seq<byte>) | LengthError

  /** For input iterators: the message goes through a buffer, in chunks of at most its size. The
      loop is asked to run only where it ends, by the law above. */
  method Hash256Buffered(input: seq<byte>, n: nat, bufferSize: int) returns (r: Buffered)
    requires bufferSize == 0 ==> input == []
    ensures r == if bufferSize < 0 then LengthError else Digested(MessageDigest(input)[..if n < 32 then n else 32])
  {
    hide Hash256OneByOne.Valid, Hashed, Padded, Digest, IsHash;
    if bufferSize < 0 { return LengthError; }
    var buffer := new byte[bufferSize](_ => 0);
    var hasher := new Hash256OneByOne();
    var first := 0;
    ghost var rounds := 0;
    while first != |input|
      invariant first == Position(|input|, bufferSize, rounds) && hasher.Valid() && hasher.message == input[..first]
      invariant fresh(hasher) && fresh(hasher.h) && fresh(hasher.dataLengthDigits)
      decreases |input| - first
    {
      var size, next := ReadChunk(input, first, buffer);
      hasher.Process(buffer[..size]);
      assert input[..first] + input[first..next] == input[..next];
      first, rounds := next, rounds + 1;
    }
    assert input[..|input|] == input;
    hasher.Finish();
    var out := hasher.GetHashBytes(n, Hashed(Padded(input), |Padded(input)| / 64));
    return Digested(out);
  }
}
