/**
 * That the checksum is CRC-32C: its polynomial has the terms the standard gives, and the nine
 * digits have the check value. For the latter, registers are compared bit by bit with 32-bit
 * vectors, on which the solver computes.
 */
module CrcCheck {
  import opened Bytes
  import opened Crc32c

  // ---- hexadecimal digits ----

  /** Hexadecimal digits, lowest first, as bits. */
  function Hex(ds: seq<nat>): (bs: seq<bool>)
    ensures |bs| == 4 * |ds|
  {
    if ds == [] then [] else Bits(ds[0], 4) + Hex(ds[1..])
  }

  lemma Sixteenth(q: nat, d: nat)
    requires d < 16
    ensures (16 * q + d) / 16 == q
  {
  }

  lemma Halves(q: nat, d: nat)
    ensures (16 * q + d) / 2 == 8 * q + d / 2
  {
  }

  lemma Quarters(q: nat, d: nat)
    ensures (16 * q + d) / 4 == 4 * q + d / 4
  {
  }

  lemma Eighths(q: nat, d: nat)
    ensures (16 * q + d) / 8 == 2 * q + d / 8
  {
  }

  lemma Parity(a: nat, b: nat)
    ensures (2 * a + b) % 2 == b % 2
  {
  }

  lemma Sixteen(q: nat, d: nat)
    requires d < 16
    ensures
      var n := 16 * q + d;
      n / 16 == q && n % 2 == d % 2 && n / 2 % 2 == d / 2 % 2 && n / 4 % 2 == d / 4 % 2 && n / 8 % 2 == d / 8 % 2
  {
    Sixteenth(q, d);
    Halves(q, d);
    Quarters(q, d);
    Eighths(q, d);
    Parity(8 * q, d);
    Parity(4 * q, d / 2);
    Parity(2 * q, d / 4);
    Parity(q, d / 8);
  }

  lemma HexDigit(q: nat, d: nat, k: nat)
    requires d < 16 && k >= 4
    ensures Bits(16 * q + d, k) == Bits(d, 4) + Bits(q, k - 4)
  {
    hide Bits;
    Sixteen(q, d);
    BitsFour(16 * q + d, k);
    BitsFour(d, 4);
  }

  lemma BitsFour(n: nat, k: nat)
    requires k >= 4
    ensures Bits(n, k) == [n % 2 == 1, n / 2 % 2 == 1, n / 4 % 2 == 1, n / 8 % 2 == 1] + Bits(n / 16, k - 4)
  {
    assert n / 2 / 2 == n / 4 && n / 4 / 2 == n / 8 && n / 8 / 2 == n / 16;
    assert Bits(n, k) == [n % 2 == 1] + Bits(n / 2, k - 1);
    assert Bits(n / 2, k - 1) == [n / 2 % 2 == 1] + Bits(n / 4, k - 2);
    assert Bits(n / 4, k - 2) == [n / 4 % 2 == 1] + Bits(n / 8, k - 3);
    assert Bits(n / 8, k - 3) == [n / 8 % 2 == 1] + Bits(n / 16, k - 4);
  }

  /** The number the digits spell. */
  function HexValue(ds: seq<nat>): nat {
    if ds == [] then 0 else ds[0] + 16 * HexValue(ds[1..])
  }

  predicate IsHex(ds: seq<nat>) {
    forall i :: 0 <= i < |ds| ==> ds[i] < 16
  }

  lemma {:induction false} HexBits(ds: seq<nat>)
    requires IsHex(ds)
    ensures Hex(ds) == Bits(HexValue(ds), 4 * |ds|)
  {
    if ds != [] {
      HexBits(ds[1..]);
      HexDigit(HexValue(ds[1..]), ds[0], 4 * |ds|);
    }
  }

  lemma {:induction false} HexAt(ds: seq<nat>, i: nat)
    requires i < 4 * |ds|
    ensures Hex(ds)[i] == Bits(ds[i / 4], 4)[i % 4]
  {
    hide Bits;
    if i >= 4 {
      HexAt(ds[1..], i - 4);
    }
  }

  const POLY_DIGITS: seq<nat> := [8, 7, 0xB, 3, 6, 0xF, 2, 8]

  lemma PolyDigits()
    ensures Hex(POLY_DIGITS) == POLY
  {
    var ds := POLY_DIGITS;
    assert HexValue(ds[7..]) == 8;
    assert HexValue(ds[6..]) == 0x82 by { assert ds[6..][1..] == ds[7..]; }
    assert HexValue(ds[5..]) == 0x82F by { assert ds[5..][1..] == ds[6..]; }
    assert HexValue(ds[4..]) == 0x82F6 by { assert ds[4..][1..] == ds[5..]; }
    assert HexValue(ds[3..]) == 0x8_2F63 by { assert ds[3..][1..] == ds[4..]; }
    assert HexValue(ds[2..]) == 0x82_F63B by { assert ds[2..][1..] == ds[3..]; }
    assert HexValue(ds[1..]) == 0x82F_63B7 by { assert ds[1..][1..] == ds[2..]; }
    HexBits(ds);
  }

  // ---- the polynomial ----

  lemma PolyBit(i: nat)
    requires i < 32
    ensures Bits(POLY_DIGITS[i / 4], 4)[i % 4] <==>
            31 - i in {28, 27, 26, 25, 23, 22, 20, 19, 18, 14, 13, 11, 10, 9, 8, 6, 0}
  {
    hide Bits;
    BitsFour(POLY_DIGITS[i / 4], 4);
  }

  /** The divisor is x^32 plus these powers of x: the polynomial of section 12.1 of RFC 3720. */
  lemma Generator(i: nat)
    requires i < 32
    ensures Remainder([true] + Falses(32))[i] <==>
            31 - i in {28, 27, 26, 25, 23, 22, 20, 19, 18, 14, 13, 11, 10, 9, 8, 6, 0}
  {
    hide Bits, Hex;
    var m := [true] + Falses(32);
    assert Remainder(m) == POLY by {
      assert Xor(m[1..33], POLY) + m[33..] == POLY;
    }
    PolyDigits();
    HexAt(POLY_DIGITS, i);
    PolyBit(i);
  }

  // ---- the shift on vectors ----

  const POLYNOMIAL: bv32 := 0x82F6_3B78

  function Step(c: bv32): bv32 {
    if c & 1 != 0 then (c >> 1) ^ POLYNOMIAL else c >> 1
  }

  function Fed(c: bv32, b: bv32): bv32 {
    Step(Step(Step(Step(Step(Step(Step(Step(c ^ b))))))))
  }

  // ---- vectors bit by bit ----

  predicate Has(c: bv32, m: bv32) {
    c & m != 0
  }

  predicate Single(m: bv32) {
    m & (m - 1) == 0
  }

  function Doubled(m: bv32): bv32 {
    m << 1
  }

  /** The vector with bit i alone. */
  function Mask(i: nat): bv32 {
    if i == 0 then 1 else Doubled(Mask(i - 1))
  }

  lemma DoubledSingle(m: bv32)
    requires Single(m)
    ensures Single(Doubled(m))
  {
  }

  lemma OneSingle()
    ensures Single(1)
  {
  }

  lemma MaskSingle(i: nat)
    ensures Single(Mask(i))
  {
    hide Single, Doubled;
    OneSingle();
    if i > 0 {
      MaskSingle(i - 1);
      DoubledSingle(Mask(i - 1));
    }
  }

  lemma ShiftBit(c: bv32, m: bv32)
    ensures Has(c >> 1, m) == Has(c, Doubled(m))
  {
  }

  lemma XorBit(c: bv32, d: bv32, m: bv32)
    requires Single(m)
    ensures Has(c ^ d, m) == (Has(c, m) != Has(d, m))
  {
  }

  lemma StepBit(c: bv32, m: bv32)
    requires Single(m)
    ensures Has(Step(c), m) == (Has(c, Doubled(m)) != (Has(c, 1) && Has(POLYNOMIAL, m)))
  {
    ShiftBit(c, m);
    XorBit(c >> 1, POLYNOMIAL, m);
  }

  lemma MaskEnds()
    ensures Mask(0) == 1 && Mask(31) == 0x8000_0000 && Mask(32) == 0
  {
    assert Mask(8) == 0x100;
    assert Mask(16) == 0x1_0000;
    assert Mask(24) == 0x100_0000;
  }

  lemma PastEnd(c: bv32)
    ensures !Has(c, 0)
  {
  }

  /** The bits are those of the vector. */
  ghost predicate Same(bs: seq<bool>, c: bv32) {
    forall i :: 0 <= i < |bs| ==> bs[i] == Has(c, Mask(i))
  }

  lemma ShiftAt(c: Reg, i: nat)
    requires i < 32
    ensures Shift(c)[i] == ((i < 31 && c[i + 1]) != (c[0] && POLY[i]))
  {
    hide Bits;
  }

  lemma StepAt(r: Reg, c: bv32, i: nat)
    requires Same(r, c) && Same(POLY, POLYNOMIAL) && i < 32
    ensures Shift(r)[i] == Has(Step(c), Mask(i))
  {
    hide Has, Single, Doubled, Step, Shift, Bits;
    MaskEnds();
    PastEnd(c);
    ShiftAt(r, i);
    MaskSingle(i);
    StepBit(c, Mask(i));
    assert Mask(i + 1) == Doubled(Mask(i));
    hide Mask;
    assert POLY[i] == Has(POLYNOMIAL, Mask(i));
    assert r[0] == Has(c, Mask(0));
    if i < 31 {
      assert r[i + 1] == Has(c, Mask(i + 1));
    }
  }

  lemma StepSame(r: Reg, c: bv32)
    requires Same(r, c) && Same(POLY, POLYNOMIAL)
    ensures Same(Shift(r), Step(c))
  {
    hide Has, Mask, Step, Shift, Bits;
    forall i | 0 <= i < 32
      ensures Shift(r)[i] == Has(Step(c), Mask(i))
    {
      StepAt(r, c, i);
    }
  }

  lemma XorSame(a: Reg, b: Reg, c: bv32, d: bv32)
    requires Same(a, c) && Same(b, d)
    ensures Same(Xor(a, b), c ^ d)
  {
    hide Has, Mask, Single, Xor, Bits;
    forall i | 0 <= i < 32
      ensures Xor(a, b)[i] == Has(c ^ d, Mask(i))
    {
      MaskSingle(i);
      XorBit(c, d, Mask(i));
    }
  }

  // ---- numbers as vectors ----

  function Digit(d: nat): bv32
    requires d < 16
  {
    d as bv32
  }

  function Append(v: bv32, d: bv32): bv32 {
    (v << 4) | d
  }

  function Vector(ds: seq<nat>): bv32
    requires IsHex(ds)
  {
    if ds == [] then 0 else Append(Vector(ds[1..]), Digit(ds[0]))
  }

  lemma DigitBitsOf(d: nat)
    requires d < 16
    ensures
      var v := Digit(d);
      && Has(v, 1) == (d % 2 == 1) && Has(v, 2) == (d / 2 % 2 == 1)
      && Has(v, 4) == (d / 4 % 2 == 1) && Has(v, 8) == (d / 8 % 2 == 1)
  {
  }

  lemma SmallDigit(d: nat)
    requires d < 16
    ensures Digit(d) < 16
  {
  }

  lemma FirstMasks()
    ensures Mask(0) == 1 && Mask(1) == 2 && Mask(2) == 4 && Mask(3) == 8
  {
  }

  lemma DigitAt(d: nat, i: nat)
    requires d < 16 && i < 4
    ensures Bits(d, 4)[i] == Has(Digit(d), Mask(i))
  {
    FirstMasks();
    hide Bits, Has, Mask, Digit;
    BitsFour(d, 4);
    DigitBitsOf(d);
  }

  lemma LowBit(v: bv32, d: bv32, m: bv32)
    requires d < 16 && m < 16
    ensures Has(Append(v, d), m) == Has(d, m)
  {
  }

  lemma HighBit(v: bv32, d: bv32, m: bv32)
    requires d < 16 && Single(m) && Doubled(Doubled(Doubled(Doubled(m)))) != 0
    ensures Has(Append(v, d), Doubled(Doubled(Doubled(Doubled(m))))) == Has(v, m)
  {
  }

  lemma Nonzero(m: bv32)
    requires Doubled(m) != 0
    ensures m != 0
  {
  }

  lemma MaskThere(i: nat)
    requires i < 32
    ensures Mask(i) != 0
    decreases 32 - i
  {
    hide Doubled;
    if i < 31 {
      MaskThere(i + 1);
      assert Mask(i + 1) == Doubled(Mask(i));
      Nonzero(Mask(i));
    } else {
      MaskEnds();
    }
  }

  lemma MaskFour(i: nat)
    requires i >= 4
    ensures Mask(i) == Doubled(Doubled(Doubled(Doubled(Mask(i - 4)))))
  {
    hide Doubled;
    assert Mask(i) == Doubled(Mask(i - 1)) && Mask(i - 1) == Doubled(Mask(i - 2));
    assert Mask(i - 2) == Doubled(Mask(i - 3)) && Mask(i - 3) == Doubled(Mask(i - 4));
  }

  lemma HexSplit(ds: seq<nat>, i: nat)
    requires i < 4 * |ds|
    ensures Hex(ds)[i] == if i < 4 then Bits(ds[0], 4)[i] else Hex(ds[1..])[i - 4]
  {
    hide Bits;
  }

  /** A number given by its digits, as bits and as a vector. */
  lemma {:induction false} HexAtSame(ds: seq<nat>, i: nat)
    requires IsHex(ds) && |ds| <= 8 && i < 4 * |ds|
    ensures Hex(ds)[i] == Has(Vector(ds), Mask(i))
  {
    FirstMasks();
    hide Bits, Mask, Hex, Has, Single, Digit, Append, Doubled;
    var (v, d) := (Vector(ds[1..]), Digit(ds[0]));
    HexSplit(ds, i);
    SmallDigit(ds[0]);
    if i < 4 {
      DigitAt(ds[0], i);
      LowBit(v, d, Mask(i));
    } else {
      HexAtSame(ds[1..], i - 4);
      MaskThere(i);
      MaskSingle(i - 4);
      MaskFour(i);
      HighBit(v, d, Mask(i - 4));
    }
  }

  lemma HexSame(ds: seq<nat>)
    requires IsHex(ds) && |ds| <= 8
    ensures Same(Hex(ds), Vector(ds))
  {
    hide Hex, Has, Mask, Vector;
    forall i | 0 <= i < 4 * |ds|
      ensures Hex(ds)[i] == Has(Vector(ds), Mask(i))
    {
      HexAtSame(ds, i);
    }
  }

  lemma VectorTwo(a: nat, b: nat, rest: seq<nat>)
    requires a < 16 && b < 16 && IsHex(rest)
    ensures Vector([a, b] + rest) == Append(Append(Vector(rest), Digit(b)), Digit(a))
  {
    hide Append, Digit;
    var ds := [a, b] + rest;
    assert ds[1..] == [b] + rest && ds[1..][1..] == rest;
  }

  lemma VectorOf(a: nat, b: nat, c: nat, d: nat, e: nat, f: nat, g: nat, h: nat)
    requires a < 16 && b < 16 && c < 16 && d < 16 && e < 16 && f < 16 && g < 16 && h < 16
    ensures Vector([a, b, c, d, e, f, g, h]) ==
            Append(Append(Append(Append(Append(Append(Append(Append(
              0, Digit(h)), Digit(g)), Digit(f)), Digit(e)), Digit(d)), Digit(c)), Digit(b)), Digit(a))
  {
    hide Append, Digit;
    VectorTwo(g, h, []);
    VectorTwo(e, f, [g, h]);
    VectorTwo(c, d, [e, f, g, h]);
    VectorTwo(a, b, [c, d, e, f, g, h]);
    assert [g, h] + [] == [g, h] && [e, f] + [g, h] == [e, f, g, h];
    assert [c, d] + [e, f, g, h] == [c, d, e, f, g, h];
    assert [a, b] + [c, d, e, f, g, h] == [a, b, c, d, e, f, g, h];
  }

  lemma VectorSame(bs: Reg, ds: seq<nat>, v: bv32)
    requires IsHex(ds) && |ds| == 8 && Hex(ds) == bs && Vector(ds) == v
    ensures Same(bs, v)
  {
    hide Hex, Vector, Same;
    HexSame(ds);
  }

  lemma PolySame()
    ensures Same(POLY, POLYNOMIAL)
  {
    PolyDigits();
    hide Hex, Vector, Same, Bits;
    VectorOf(8, 7, 0xB, 3, 6, 0xF, 2, 8);
    VectorSame(POLY, POLY_DIGITS, POLYNOMIAL);
  }

  const ONE_DIGITS: seq<nat> := [0xF, 0xF, 0xF, 0xF, 0xF, 0xF, 0xF, 0xF]

  lemma OnesSame()
    ensures Same(ONES, 0xFFFF_FFFF)
  {
    hide Hex, Vector, Same, Bits;
    VectorOf(0xF, 0xF, 0xF, 0xF, 0xF, 0xF, 0xF, 0xF);
    BitsFour(0xF, 4);
    forall i | 0 <= i < 32
      ensures Hex(ONE_DIGITS)[i] == ONES[i]
    {
      HexAt(ONE_DIGITS, i);
    }
    VectorSame(ONES, ONE_DIGITS, 0xFFFF_FFFF);
  }

  /** An ASCII digit in the low bits. */
  lemma AsciiSame(d: nat)
    requires 0 < d < 10
    ensures Same(Low(Bits(0x30 + d, 8)), [0x31, 0x32, 0x33, 0x34, 0x35, 0x36, 0x37, 0x38, 0x39][d - 1])
  {
    var ds := [d, 3, 0, 0, 0, 0, 0, 0];
    AsciiVector(d);
    hide Hex, Vector, Same, Bits;
    AsciiHex(d);
    VectorSame(Low(Bits(0x30 + d, 8)), ds, [0x31, 0x32, 0x33, 0x34, 0x35, 0x36, 0x37, 0x38, 0x39][d - 1]);
  }

  lemma AsciiVector(d: nat)
    requires 0 < d < 10
    ensures Vector([d, 3, 0, 0, 0, 0, 0, 0]) == [0x31, 0x32, 0x33, 0x34, 0x35, 0x36, 0x37, 0x38, 0x39][d - 1]
  {
    hide Vector;
    VectorOf(d, 3, 0, 0, 0, 0, 0, 0);
  }

  lemma {:induction false} HexConcat(a: seq<nat>, b: seq<nat>)
    ensures Hex(a + b) == Hex(a) + Hex(b)
  {
    hide Bits;
    if a == [] {
      assert a + b == b;
    } else {
      assert (a + b)[1..] == a[1..] + b;
      HexConcat(a[1..], b);
    }
  }

  lemma HexZeros()
    ensures Hex([0, 0, 0, 0, 0, 0]) == Falses(24)
  {
    hide Bits, Hex;
    BitsFour(0, 4);
    forall i | 0 <= i < 24
      ensures !Hex([0, 0, 0, 0, 0, 0])[i]
    {
      HexAt([0, 0, 0, 0, 0, 0], i);
    }
  }

  lemma TwoDigits(d: nat)
    requires d < 16
    ensures Hex([d, 3]) == Bits(0x30 + d, 8)
  {
    hide Bits;
    HexDigit(3, d, 8);
    assert [d, 3][1..] == [3] && [3][1..] == [];
  }

  lemma AsciiHex(d: nat)
    requires d < 16
    ensures Hex([d, 3, 0, 0, 0, 0, 0, 0]) == Low(Bits(0x30 + d, 8))
  {
    hide Bits, Hex;
    TwoDigits(d);
    HexZeros();
    HexConcat([d, 3], [0, 0, 0, 0, 0, 0]);
    assert [d, 3] + [0, 0, 0, 0, 0, 0] == [d, 3, 0, 0, 0, 0, 0, 0];
  }

  // ---- the check value ----

  const CHECK: seq<byte> := [0x31, 0x32, 0x33, 0x34, 0x35, 0x36, 0x37, 0x38, 0x39]

  /** The register after the first k digits of the check message. */
  function State(k: nat): bv32 {
    match k
    case 0 => 0xFFFF_FFFF
    case 1 => 0x6F0A_661C
    case 2 => 0x8CAA_3B9F
    case 3 => 0xEF84_D04D
    case 4 => 0x09C5_0B11
    case 5 => 0xE72E_DCCA
    case 6 => 0xBECA_8E79
    case 7 => 0xEDBD_6815
    case 8 => 0x9F78_7F65
    case _ => 0x1CF9_6D7C
  }

  lemma StateStep(k: nat)
    requires k < 9
    ensures Fed(State(k), [0x31, 0x32, 0x33, 0x34, 0x35, 0x36, 0x37, 0x38, 0x39][k]) == State(k + 1)
  {
  }

  lemma ByteSame(r: Reg, c: bv32, bits: seq<bool>, b: bv32)
    requires |bits| == 8 && Same(r, c) && Same(Low(bits), b)
    ensures Same(Feed(r, bits), Fed(c, b))
  {
    hide Same, Step, Shift, Bits, Feed, Low;
    PolySame();
    FeedWord(r, bits);
    XorSame(r, Low(bits), c, b);
    EightShifts(Xor(r, Low(bits)), c ^ b);
  }

  lemma EightShifts(r: Reg, c: bv32)
    requires Same(r, c) && Same(POLY, POLYNOMIAL)
    ensures Same(Shifts(r, 8), Step(Step(Step(Step(Step(Step(Step(Step(c)))))))))
  {
    hide Same, Step, Shift, Bits;
    FourSteps(r, c);
    var (s, d) := (Shifts(r, 4), Step(Step(Step(Step(c)))));
    FourSteps(s, d);
    ShiftsAdd(r, 4, 4);
  }

  lemma FourSteps(r: Reg, c: bv32)
    requires Same(r, c) && Same(POLY, POLYNOMIAL)
    ensures Same(Shifts(r, 4), Step(Step(Step(Step(c)))))
  {
    hide Same, Step, Shift, Bits;
    StepSame(r, c);
    StepSame(Shift(r), Step(c));
    StepSame(Shift(Shift(r)), Step(Step(c)));
    StepSame(Shift(Shift(Shift(r))), Step(Step(Step(c))));
    var a, b := Shift(r), Shift(Shift(r));
    assert Shifts(r, 4) == Shifts(a, 3) && Shifts(a, 3) == Shifts(b, 2) && Shifts(b, 2) == Shifts(Shift(b), 1);
  }

  lemma {:induction false} ShiftsAdd(r: Reg, m: nat, n: nat)
    ensures Shifts(r, m + n) == Shifts(Shifts(r, m), n)
    decreases m
  {
    hide Shift, Bits;
    if m > 0 {
      ShiftsAdd(Shift(r), m - 1, n);
    }
  }

  lemma {:induction false} FeedCheck(k: nat)
    requires k <= 9
    ensures Same(Feed(ONES, MessageBits(CHECK[..k])), State(k))
    decreases k
  {
    if k == 0 {
      OnesSame();
      assert MessageBits(CHECK[..0]) == [];
    } else {
      hide Same, Bits, Feed, Fed, State, Low;
      FeedCheck(k - 1);
      var (head, b) := (MessageBits(CHECK[..k - 1]), Bits(0x30 + k, 8));
      NextDigit(k);
      FeedConcat(ONES, head, b);
      AsciiSame(k);
      StateStep(k - 1);
      ByteSame(Feed(ONES, head), State(k - 1), b,
               [0x31, 0x32, 0x33, 0x34, 0x35, 0x36, 0x37, 0x38, 0x39][k - 1]);
    }
  }

  lemma NextDigit(k: nat)
    requires 0 < k <= 9
    ensures MessageBits(CHECK[..k]) == MessageBits(CHECK[..k - 1]) + Bits(0x30 + k, 8)
  {
    hide Bits;
    assert CHECK[..k] == CHECK[..k - 1] + [CHECK[k - 1]];
    MessageConcat(CHECK[..k - 1], [CHECK[k - 1]]);
    assert CHECK[k - 1] as nat == 0x30 + k;
    assert MessageBits([CHECK[k - 1]]) == Bits(0x30 + k, 8);
  }

  const CHECK_DIGITS: seq<nat> := [3, 8, 2, 9, 6, 0, 3, 0xE]

  lemma CheckDigits()
    ensures Hex(CHECK_DIGITS) == Bits(0xE306_9283, 32)
  {
    var ds := CHECK_DIGITS;
    assert HexValue(ds[7..]) == 0xE;
    assert HexValue(ds[6..]) == 0xE3 by { assert ds[6..][1..] == ds[7..]; }
    assert HexValue(ds[5..]) == 0xE30 by { assert ds[5..][1..] == ds[6..]; }
    assert HexValue(ds[4..]) == 0xE306 by { assert ds[4..][1..] == ds[5..]; }
    assert HexValue(ds[3..]) == 0xE_3069 by { assert ds[3..][1..] == ds[4..]; }
    assert HexValue(ds[2..]) == 0xE3_0692 by { assert ds[2..][1..] == ds[3..]; }
    assert HexValue(ds[1..]) == 0xE30_6928 by { assert ds[1..][1..] == ds[2..]; }
    HexBits(ds);
  }

  lemma SameBits(a: Reg, b: Reg, c: bv32)
    requires Same(a, c) && Same(b, c)
    ensures a == b
  {
    hide Has, Mask, Bits;
  }

  /** The value the CRC-32C of the nine digits must have, and that of nothing. */
  lemma CheckValue()
    ensures Crc(Ascii("123456789")) == 0xE306_9283 && Crc([]) == 0
  {
    hide Same, Bits, Feed, MessageBits, Hex, Vector;
    assert Ascii("123456789") == CHECK && CHECK[..9] == CHECK;
    FeedCheck(9);
    OnesSame();
    XorSame(Feed(ONES, MessageBits(CHECK)), ONES, State(9), 0xFFFF_FFFF);
    VectorOf(3, 8, 2, 9, 6, 0, 3, 0xE);
    CheckDigits();
    VectorSame(Bits(0xE306_9283, 32), CHECK_DIGITS, 0xE306_9283);
    SameBits(Checksum(CHECK), Bits(0xE306_9283, 32), 0xE306_9283);
    Pow2Values();
    ValueOfBits(0xE306_9283, 32);
    NothingsValue();
  }

  lemma NothingsValue()
    ensures Crc([]) == 0
  {
    hide Bits;
    assert Checksum([]) == Falses(32);
    ZeroValue(32);
  }

  lemma {:induction false} ZeroValue(n: nat)
    ensures Value(Falses(n)) == 0
  {
    if n > 0 {
      ZeroValue(n - 1);
      assert Falses(n)[1..] == Falses(n - 1);
    }
  }
}
