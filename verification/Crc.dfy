/** CRC-32: the remainder of a polynomial division, and the shift register that computes it bit by bit. */
module Crc {
  import opened ByteStrings

  // ----- polynomials over two elements

  /** The coefficients, the highest first. */
  type Poly = seq<bool>

  /** The exponents of the generator below 32, as section 5.5 of the PNG specification lists them. */
  const EXPONENTS: set<int> := {26, 23, 22, 16, 12, 11, 10, 8, 7, 5, 4, 2, 1, 0}

  /** The generator without its highest coefficient. */
  function Generator(): (g: Poly)
    ensures |g| == 32
  {
    seq(32, i requires 0 <= i < 32 => 31 - i in EXPONENTS)
  }

  function Zeros(n: nat): Poly { seq(n, i => false) }

  function Ones(n: nat): Poly { seq(n, i => true) }

  function Sum(p: Poly, q: Poly): (r: Poly)
    requires |p| == |q|
    ensures |r| == |p|
  {
    seq(|p|, i requires 0 <= i < |p| => p[i] != q[i])
  }

  /** One step of the long division: the highest coefficient is eliminated. */
  function Reduced(p: Poly): (r: Poly)
    requires |p| > 32
    ensures |r| == |p| - 1
  {
    seq(|p| - 1, i requires 0 <= i < |p| - 1 => p[i + 1] != (p[0] && i < 32 && Generator()[i]))
  }

  /** The remainder of the division by the generator. */
  function Remainder(p: Poly): (r: Poly)
    requires |p| >= 32
    ensures |r| == 32
    decreases |p|
  {
    if |p| == 32 then p else Remainder(Reduced(p))
  }

  // ----- the checksum

  /** The lowest `n` bits of a number, the lowest first. */
  function Bits(v: nat, n: nat): (r: Poly)
    ensures |r| == n
  {
    if n == 0 then [] else [v % 2 == 1] + Bits(v / 2, n - 1)
  }

  function NumberOf(bits: Poly): nat {
    if bits == [] then 0 else (if bits[0] then 1 else 0) + 2 * NumberOf(bits[1..])
  }

  /** The bits of a message in the order of their transmission. */
  function MessageBits(s: Bytes): (p: Poly)
    ensures |p| == 8 * |s|
  {
    if s == [] then [] else MessageBits(s[..|s| - 1]) + Bits(s[|s| - 1], 8)
  }

  /** The message is followed by 32 zeros, and the first 32 coefficients of that are complemented. */
  function Dividend(m: Poly): (p: Poly)
    ensures |p| == |m| + 32
  {
    Sum(m + Zeros(32), Ones(32) + Zeros(|m|))
  }

  /** The complement of the remainder; its highest coefficient is the lowest bit of the number. */
  function Checksum(s: Bytes): (v: int)
    ensures 0 <= v < WORD
  {
    NumberBound(Sum(Remainder(Dividend(MessageBits(s))), Ones(32)));
    NumberOf(Sum(Remainder(Dividend(MessageBits(s))), Ones(32)))
  }

  function Pow2(n: nat): (r: nat)
    ensures r > 0
  {
    if n == 0 then 1 else 2 * Pow2(n - 1)
  }

  lemma {:induction false} Pow32()
    ensures Pow2(32) == WORD
  {
    assert Pow2(8) == 256;
    assert Pow2(16) == 0x1_0000;
    assert Pow2(24) == 0x100_0000;
  }

  lemma {:induction false} NumberBelow(bits: Poly)
    ensures NumberOf(bits) < Pow2(|bits|)
  {
    if bits != [] { NumberBelow(bits[1..]); }
  }

  lemma {:induction false} NumberBound(bits: Poly)
    requires |bits| == 32
    ensures NumberOf(bits) < WORD
  {
    NumberBelow(bits);
    Pow32();
  }

  lemma {:induction false} NumberOfBits(v: nat, n: nat)
    requires v < Pow2(n)
    ensures NumberOf(Bits(v, n)) == v
  {
    if n > 0 {
      NumberOfBits(v / 2, n - 1);
      assert Bits(v, n)[1..] == Bits(v / 2, n - 1);
    }
  }

  // ----- what the remainder is

  lemma {:induction false} SumReduced(p: Poly, q: Poly)
    requires |p| == |q| > 32
    ensures Reduced(Sum(p, q)) == Sum(Reduced(p), Reduced(q))
  {
  }

  /** The remainder of a sum is the sum of the remainders. */
  lemma {:induction false} SumRemainder(p: Poly, q: Poly)
    requires |p| == |q| >= 32
    ensures Remainder(Sum(p, q)) == Sum(Remainder(p), Remainder(q))
    decreases |p|
  {
    hide Reduced, Sum;
    if |p| > 32 {
      SumReduced(p, q);
      SumRemainder(Reduced(p), Reduced(q));
    }
  }

  /** Zeros in front change nothing. */
  lemma {:induction false} LeadingZeros(n: nat, p: Poly)
    requires |p| >= 32
    ensures Remainder(Zeros(n) + p) == Remainder(p)
  {
    if n == 0 {
      assert Zeros(0) + p == p;
    } else {
      assert Reduced(Zeros(n) + p) == Zeros(n - 1) + p;
      LeadingZeros(n - 1, p);
    }
  }

  lemma {:induction false} OneStep(p: Poly)
    requires |p| > 32
    ensures Remainder(p) == Remainder(Reduced(p))
  {
  }

  /** A zero behind is one more step. */
  lemma {:induction false} TrailingZero(p: Poly)
    requires |p| >= 32
    ensures Remainder(p + [false]) == Reduced(Remainder(p) + [false])
    decreases |p|
  {
    hide Reduced;
    OneStep(p + [false]);
    if |p| > 32 {
      ReducedTail(p);
      TrailingZero(Reduced(p));
    }
  }

  lemma {:induction false} ReducedTail(p: Poly)
    requires |p| > 32
    ensures Reduced(p + [false]) == Reduced(p) + [false]
  {
  }

  // ----- what the checksum notices

  /** The constant coefficient of the generator is one, so a step loses nothing. */
  lemma {:induction false} StepKeepsNonzero(r: Poly)
    requires |r| == 32 && r != Zeros(32)
    ensures Reduced(r + [false]) != Zeros(32)
  {
    var next := Reduced(r + [false]);
    if r[0] {
      assert Generator()[31] && next[31];
    } else {
      var i :| 0 <= i < 32 && r[i];
      assert next[i - 1];
    }
  }

  lemma {:induction false} BehindStaysNonzero(p: Poly, n: nat)
    requires |p| >= 32 && Remainder(p) != Zeros(32)
    ensures Remainder(p + Zeros(n)) != Zeros(32)
  {
    if n == 0 {
      assert p + Zeros(0) == p;
    } else {
      BehindStaysNonzero(p, n - 1);
      assert p + Zeros(n) == p + Zeros(n - 1) + [false];
      TrailingZero(p + Zeros(n - 1));
      StepKeepsNonzero(Remainder(p + Zeros(n - 1)));
    }
  }

  /** What is not zero but zero outside of 32 places from `a` on is no multiple of the generator. */
  lemma {:induction false} BurstRemains(p: Poly, a: nat)
    requires a + 32 <= |p| && p != Zeros(|p|)
    requires forall i | 0 <= i < |p| && !(a <= i < a + 32) :: !p[i]
    ensures Remainder(p) != Zeros(32)
  {
    var burst := p[a..a + 32];
    assert p == Zeros(a) + burst + Zeros(|p| - a - 32);
    var i :| 0 <= i < |p| && p[i];
    assert burst[i - a];
    LeadingZeros(a, burst);
    BehindStaysNonzero(Zeros(a) + burst, |p| - a - 32);
  }

  lemma {:induction false} NumbersDiffer(p: Poly, q: Poly)
    requires |p| == |q| && p != q
    ensures NumberOf(p) != NumberOf(q)
  {
    if p[0] == q[0] {
      assert p == [p[0]] + p[1..] && q == [q[0]] + q[1..];
      NumbersDiffer(p[1..], q[1..]);
    }
  }

  lemma {:induction false} MessagesDiffer(s: Bytes, t: Bytes)
    requires |s| == |t| && s != t
    ensures MessageBits(s) != MessageBits(t)
  {
    hide Bits, NumberOf;
    var n := |s| - 1;
    var p, q := MessageBits(s), MessageBits(t);
    assert p[..8 * n] == MessageBits(s[..n]) && p[8 * n..] == Bits(s[n], 8);
    assert q[..8 * n] == MessageBits(t[..n]) && q[8 * n..] == Bits(t[n], 8);
    if s[n] == t[n] {
      assert s == s[..n] + [s[n]] && t == t[..n] + [t[n]];
      MessagesDiffer(s[..n], t[..n]);
    } else {
      assert Pow2(8) == 256;
      NumberOfBits(s[n], 8);
      NumberOfBits(t[n], 8);
    }
  }

  /** All the bits in which `s` and `t` differ lie within 32 bits from `a` on. */
  ghost predicate Burst(s: Bytes, t: Bytes, a: nat) {
    && |s| == |t| && a <= 8 * |s|
    && forall i | 0 <= i < 8 * |s| && !(a <= i < a + 32) :: MessageBits(s)[i] == MessageBits(t)[i]
  }

  /** Damage within 32 neighbouring bits changes the checksum. */
  lemma {:induction false} BurstNoticed(s: Bytes, t: Bytes, a: nat)
    requires s != t && Burst(s, t, a)
    ensures Checksum(s) != Checksum(t)
  {
    hide MessageBits, Remainder, NumberOf;
    MessagesDiffer(s, t);
    var p, q := Dividend(MessageBits(s)), Dividend(MessageBits(t));
    var d := Sum(p, q);
    assert d == Sum(MessageBits(s), MessageBits(t)) + Zeros(32);
    var i :| 0 <= i < 8 * |s| && MessageBits(s)[i] != MessageBits(t)[i];
    assert d[i];
    BurstRemains(d, a);
    SumRemainder(p, q);
    var r, r' := Remainder(p), Remainder(q);
    assert Sum(r, r) == Zeros(32);
    var k :| 0 <= k < 32 && r[k] != r'[k];
    assert Sum(r, Ones(32))[k] != Sum(r', Ones(32))[k];
    NumbersDiffer(Sum(r, Ones(32)), Sum(r', Ones(32)));
  }

  // ----- the register

  /** Bitwise exclusive or of two numbers of `n` bits. */
  function Xor(a: nat, b: nat, n: nat): (r: nat)
    ensures r < Pow2(n)
  {
    if n == 0 then 0 else (if a % 2 != b % 2 then 1 else 0) + 2 * Xor(a / 2, b / 2, n - 1)
  }

  lemma {:induction false} XorBits(a: nat, b: nat, n: nat)
    ensures Bits(Xor(a, b, n), n) == Sum(Bits(a, n), Bits(b, n))
  {
    if n > 0 {
      XorBits(a / 2, b / 2, n - 1);
      assert Xor(a, b, n) / 2 == Xor(a / 2, b / 2, n - 1);
    }
  }

  const POLYNOMIAL := 0xEDB8_8320

  lemma {:induction false} TwoBits(v: nat, n: nat)
    requires n >= 2
    ensures Bits(v, n) == [v % 2 == 1, v / 2 % 2 == 1] + Bits(v / 4, n - 2)
  {
    hide Bits;
    OneBit(v, n);
    OneBit(v / 2, n - 1);
    HalfTwice(v);
  }

  lemma {:induction false} OneBit(v: nat, n: nat)
    requires n >= 1
    ensures Bits(v, n) == [v % 2 == 1] + Bits(v / 2, n - 1)
  {
  }

  lemma {:induction false} HalfTwice(v: nat)
    ensures v / 2 / 2 == v / 4
  {
  }

  lemma {:induction false} FourBits(v: nat, n: nat)
    requires n >= 4
    ensures Bits(v, n) == [v % 2 == 1, v / 2 % 2 == 1, v / 4 % 2 == 1, v / 8 % 2 == 1] + Bits(v / 16, n - 4)
  {
    hide Bits;
    TwoBits(v, n);
    TwoBits(v / 4, n - 2);
    assert v / 4 / 2 == v / 8 && v / 4 / 4 == v / 16;
  }

  lemma {:induction false} LowBits()
    ensures Bits(POLYNOMIAL, 32) ==
      [false, false, false, false, false, true, false, false] +
      [true, true, false, false, false, false, false, true] + Bits(0xEDB8, 16)
  {
    hide Bits;
    FourBits(0xEDB8_8320, 32);
    FourBits(0xED_B883_2, 28);
    FourBits(0xED_B883, 24);
    FourBits(0xE_DB88, 20);
  }

  lemma {:induction false} HighBits()
    ensures Bits(0xEDB8, 16) ==
      [false, false, false, true, true, true, false, true] +
      [true, false, true, true, false, true, true, true]
  {
    hide Bits;
    FourBits(0xEDB8, 16);
    FourBits(0xEDB, 12);
    FourBits(0xED, 8);
    FourBits(0xE, 4);
    NoBits(0);
  }

  lemma {:induction false} NoBits(v: nat)
    ensures Bits(v, 0) == []
  {
  }

  /** The register holds the coefficients in reverse. */
  lemma {:induction false} PolynomialBits()
    ensures Bits(POLYNOMIAL, 32) == Generator()
  {
    hide Bits;
    LowBits();
    HighBits();
  }

  /** One step of the register: shift, and eliminate the coefficient that drops out. */
  function Shifted(crc: nat): (r: nat)
    requires crc < WORD
    ensures r < WORD
  {
    Pow32();
    Xor(crc / 2, if crc % 2 == 1 then POLYNOMIAL else 0, 32)
  }

  function ShiftedTimes(crc: nat, n: nat): (r: nat)
    requires crc < WORD
    ensures r < WORD
    decreases n
  {
    if n == 0 then crc else ShiftedTimes(Shifted(crc), n - 1)
  }

  function Absorb(crc: nat, byte: Byte): (r: nat)
    requires crc < WORD
    ensures r < WORD
  {
    Pow32();
    ShiftedTimes(Xor(crc, byte, 32), 8)
  }

  function Register(s: Bytes): (r: nat)
    ensures r < WORD
  {
    if s == [] then 0xFFFF_FFFF else Absorb(Register(s[..|s| - 1]), s[|s| - 1])
  }

  // ----- the register holds the remainder

  lemma {:induction false} ZeroBits(n: nat)
    ensures Bits(0, n) == Zeros(n)
  {
    if n > 0 { ZeroBits(n - 1); }
  }

  lemma {:induction false} OneBits(n: nat)
    ensures Bits(Pow2(n) - 1, n) == Ones(n)
  {
    if n > 0 {
      OneBits(n - 1);
      assert (Pow2(n) - 1) / 2 == Pow2(n - 1) - 1;
    }
  }

  lemma {:induction false} PaddedBits(v: nat, n: nat, k: nat)
    requires v < Pow2(n)
    ensures Bits(v, n + k) == Bits(v, n) + Zeros(k)
  {
    if n == 0 { ZeroBits(k); } else { PaddedBits(v / 2, n - 1, k); }
  }

  /** A step of the register is a step of the long division. */
  lemma {:induction false} ShiftedReduces(crc: nat)
    requires crc < WORD
    ensures Bits(Shifted(crc), 32) == Reduced(Bits(crc, 32) + [false])
  {
    hide Xor, Generator;
    Pow32();
    var bits := Bits(crc, 32);
    PaddedBits(crc, 32, 1);
    assert Zeros(1) == [false];
    assert Bits(crc, 33) == [crc % 2 == 1] + Bits(crc / 2, 32);
    assert Bits(crc / 2, 32) == (bits + [false])[1..];
    ZeroBits(32);
    PolynomialBits();
    XorBits(crc / 2, if crc % 2 == 1 then POLYNOMIAL else 0, 32);
  }

  /** Long division with nothing but zeros coming in. */
  function Steps(p: Poly, n: nat): (r: Poly)
    requires |p| == 32
    ensures |r| == 32
    decreases n
  {
    if n == 0 then p else Steps(Reduced(p + [false]), n - 1)
  }

  lemma {:induction false} ShiftedSteps(crc: nat, n: nat)
    requires crc < WORD
    ensures Bits(ShiftedTimes(crc, n), 32) == Steps(Bits(crc, 32), n)
    decreases n
  {
    hide Bits, Shifted, Reduced;
    if n > 0 {
      ShiftedReduces(crc);
      ShiftedSteps(Shifted(crc), n - 1);
    }
  }

  lemma {:induction false} DividendGrows(m: Poly, b: bool)
    ensures Dividend(m + [b]) == Sum(Dividend(m) + [false], Zeros(|m|) + ([b] + Zeros(32)))
  {
  }

  /** One more bit of the message. */
  lemma {:induction false} BitStep(m: Poly, b: bool)
    ensures Remainder(Dividend(m + [b])) == Reduced(Sum(Remainder(Dividend(m)), [b] + Zeros(31)) + [false])
  {
    hide Reduced, Dividend;
    var p, q := Dividend(m), [b] + Zeros(32);
    DividendGrows(m, b);
    SumRemainder(p + [false], Zeros(|m|) + q);
    TrailingZero(p);
    LeadingZeros(|m|, q);
    OneStep(q);
    SumReduced(Remainder(p) + [false], q);
    assert Sum(Remainder(p) + [false], q) == Sum(Remainder(p), [b] + Zeros(31)) + [false];
  }

  /** Bits that are added further behind can be added later. */
  lemma {:induction false} AddLater(r: Poly, b: bool, rest: Poly)
    requires |r| == 32 && |rest| == 31
    ensures Reduced(Sum(r, [b] + rest) + [false])
         == Sum(Reduced(Sum(r, [b] + Zeros(31)) + [false]), rest + [false])
  {
  }

  /** Adding some bits of the message at once, and then as many steps, is one step for each bit. */
  lemma {:induction false} BitsAtOnce(m: Poly, bits: Poly)
    requires |bits| <= 32
    ensures Steps(Sum(Remainder(Dividend(m)), bits + Zeros(32 - |bits|)), |bits|) == Remainder(Dividend(m + bits))
    decreases |bits|
  {
    hide Reduced, Remainder, Dividend;
    var r := Remainder(Dividend(m));
    if bits == [] {
      assert Sum(r, bits + Zeros(32)) == r && m + bits == m;
    } else {
      var b, rest := bits[0], bits[1..];
      var padded := rest + Zeros(32 - |bits|);
      assert bits + Zeros(32 - |bits|) == [b] + padded;
      AddLater(r, b, padded);
      BitStep(m, b);
      assert padded + [false] == rest + Zeros(32 - |rest|);
      BitsAtOnce(m + [b], rest);
      assert m + [b] + rest == m + bits;
    }
  }

  lemma {:induction false} NothingYet()
    ensures Remainder(Dividend([])) == Bits(0xFFFF_FFFF, 32)
  {
    OneBits(32);
    Pow32();
    assert Dividend([]) == Ones(32);
  }

  /** After every byte the register holds the remainder of what was read. */
  lemma {:induction false} RegisterIsRemainder(s: Bytes)
    ensures Bits(Register(s), 32) == Remainder(Dividend(MessageBits(s)))
  {
    hide Bits, Remainder, Dividend, ShiftedTimes;
    if s == [] {
      NothingYet();
    } else {
      var before, byte := s[..|s| - 1], s[|s| - 1];
      RegisterIsRemainder(before);
      Pow32();
      ShiftedSteps(Xor(Register(before), byte, 32), 8);
      XorBits(Register(before), byte, 32);
      assert Pow2(8) == 256;
      PaddedBits(byte, 8, 24);
      BitsAtOnce(MessageBits(before), Bits(byte, 8));
    }
  }

  /** What the loop computes is the checksum. */
  lemma {:induction false} RegisterIsChecksum(s: Bytes)
    ensures Xor(Register(s), 0xFFFF_FFFF, 32) == Checksum(s)
  {
    hide Register, Xor, Remainder, Dividend, MessageBits;
    RegisterIsRemainder(s);
    XorBits(Register(s), 0xFFFF_FFFF, 32);
    OneBits(32);
    Pow32();
    NumberOfBits(Xor(Register(s), 0xFFFF_FFFF, 32), 32);
  }

  method Compute(s: Bytes) returns (r: int)
    ensures r == Checksum(s)
  {
    hide Absorb, Checksum, Xor;
    var crc: nat := 0xFFFF_FFFF;
    for i := 0 to |s|
      invariant crc == Register(s[..i])
    {
      assert s[..i + 1][..i] == s[..i];
      crc := AbsorbByte(crc, s[i]);
    }
    assert s[..|s|] == s;
    RegisterIsChecksum(s);
    r := Xor(crc, 0xFFFF_FFFF, 32);
  }

  method AbsorbByte(start: nat, byte: Byte) returns (crc: nat)
    requires start < WORD
    ensures crc == Absorb(start, byte)
  {
    hide Shifted, Xor;
    Pow32();
    crc := Xor(start, byte, 32);
    for bit := 0 to 8
      invariant crc < WORD && Absorb(start, byte) == ShiftedTimes(crc, 8 - bit)
    {
      crc := Shifted(crc);
    }
  }
}
