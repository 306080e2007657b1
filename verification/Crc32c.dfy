/**
 * CRC-32C as the SDKs compute it: the byte table of _crc32c.py against one bit at a time and
 * against long division of polynomials over GF(2), and the damage the checksum detects.
 *
 * A 32-bit integer is kept as its bits, lowest first: `c & 1` is c[0], `c >> 1` drops c[0], and
 * `^` is bitwise. The lowest bit of a register is the coefficient of x^31; bytes are consumed
 * lowest bit first.
 */
module Crc32c {
  import opened Bytes

  type Reg = r: seq<bool> | |r| == 32 witness Bits(0, 32)

  // ---- integers and their bits ----

  function Bits(n: nat, k: nat): (bs: seq<bool>)
    ensures |bs| == k
    decreases k
  {
    if k == 0 then [] else [n % 2 == 1] + Bits(n / 2, k - 1)
  }

  function Value(bs: seq<bool>): nat {
    if bs == [] then 0 else (if bs[0] then 1 else 0) + 2 * Value(bs[1..])
  }

  function Pow2(k: nat): nat {
    if k == 0 then 1 else 2 * Pow2(k - 1)
  }

  lemma {:induction false} ValueOfBits(n: nat, k: nat)
    requires n < Pow2(k)
    ensures Value(Bits(n, k)) == n
    decreases k
  {
    if k > 0 {
      ValueOfBits(n / 2, k - 1);
      assert Bits(n, k)[1..] == Bits(n / 2, k - 1);
    }
  }

  lemma {:induction false} BitsOfValue(bs: seq<bool>)
    ensures Value(bs) < Pow2(|bs|) && Bits(Value(bs), |bs|) == bs
  {
    if bs != [] {
      BitsOfValue(bs[1..]);
    }
  }

  lemma {:induction false} TopBit(n: nat, k: nat)
    requires 0 < k && Pow2(k - 1) <= n < Pow2(k)
    ensures Bits(n, k)[k - 1]
    decreases k
  {
    if k > 1 {
      TopBit(n / 2, k - 1);
    }
  }

  lemma Pow2Eight(k: nat)
    ensures Pow2(k + 8) == 256 * Pow2(k)
  {
    assert Pow2(k + 8) == 2 * Pow2(k + 7) && Pow2(k + 7) == 2 * Pow2(k + 6);
    assert Pow2(k + 6) == 2 * Pow2(k + 5) && Pow2(k + 5) == 2 * Pow2(k + 4);
    assert Pow2(k + 4) == 2 * Pow2(k + 3) && Pow2(k + 3) == 2 * Pow2(k + 2);
    assert Pow2(k + 2) == 2 * Pow2(k + 1) && Pow2(k + 1) == 2 * Pow2(k);
  }

  lemma Pow2Values()
    ensures Pow2(8) == 256 && Pow2(31) == 0x8000_0000 && Pow2(32) == U32
  {
    Pow2Eight(0);
    Pow2Eight(8);
    Pow2Eight(16);
    Pow2Eight(24);
    assert Pow2(32) == 2 * Pow2(31);
  }

  // ---- the bit-serial register ----

  function Falses(n: nat): (bs: seq<bool>)
    ensures |bs| == n
  {
    seq(n, _ => false)
  }

  function Trues(n: nat): (bs: seq<bool>)
    ensures |bs| == n
  {
    seq(n, _ => true)
  }

  function Xor(a: seq<bool>, b: seq<bool>): (c: seq<bool>)
    requires |a| == |b|
    ensures |c| == |a|
    ensures forall i :: 0 <= i < |c| ==> c[i] == (a[i] != b[i])
  {
    seq(|a|, i requires 0 <= i < |a| => a[i] != b[i])
  }

  const POLY: Reg := Bits(0x82F6_3B78, 32)
  const ONES: Reg := Trues(32)

  /** c >> n. */
  function Drop(c: Reg, n: nat): Reg
    requires n <= 32
  {
    c[n..] + Falses(n)
  }

  /** One inner iteration of the table builder. */
  function Shift(c: Reg): Reg {
    if c[0] then Xor(Drop(c, 1), POLY) else Drop(c, 1)
  }

  function Shifts(c: Reg, n: nat): Reg
    decreases n
  {
    if n == 0 then c else Shifts(Shift(c), n - 1)
  }

  /** A short bit string in the low bits of a register. */
  function Low(bits: seq<bool>): Reg
    requires |bits| <= 32
  {
    bits + Falses(32 - |bits|)
  }

  function Feed(c: Reg, bits: seq<bool>): Reg
    decreases |bits|
  {
    if bits == [] then c else Feed(Shift(Xor(c, Low(bits[..1]))), bits[1..])
  }

  function MessageBits(data: seq<byte>): (bs: seq<bool>)
    ensures |bs| == 8 * |data|
  {
    if data == [] then [] else Bits(data[0] as nat, 8) + MessageBits(data[1..])
  }

  /** The checksum of a payload as a register: start from all ones, complement at the end. */
  function Checksum(data: seq<byte>): Reg {
    Xor(Feed(ONES, MessageBits(data)), ONES)
  }

  /** The checksum as the u32 stored in a record header. */
  function Crc(data: seq<byte>): u32 {
    BitsOfValue(Checksum(data));
    Pow2Values();
    Value(Checksum(data))
  }

  // ---- linearity and injectivity ----

  lemma ShiftLinear(a: Reg, b: Reg)
    ensures Shift(Xor(a, b)) == Xor(Shift(a), Shift(b))
  {
    assert Drop(Xor(a, b), 1) == Xor(Drop(a, 1), Drop(b, 1));
  }

  /** The polynomial's top bit is set, so a shift loses nothing. */
  lemma ShiftInjective(a: Reg, b: Reg)
    requires Shift(a) == Shift(b)
    ensures a == b
  {
    Pow2Values();
    TopBit(0x82F6_3B78, 32);
    assert Shift(a)[31] == a[0] && Shift(b)[31] == b[0];
    forall i | 0 < i < 32
      ensures a[i] == b[i]
    {
      assert Drop(a, 1)[i - 1] == a[i] && Drop(b, 1)[i - 1] == b[i];
      assert Shift(a)[i - 1] == Shift(b)[i - 1];
    }
  }

  lemma {:induction false} FeedLinear(c: Reg, d: Reg, u: seq<bool>, v: seq<bool>)
    requires |u| == |v|
    ensures Feed(Xor(c, d), Xor(u, v)) == Xor(Feed(c, u), Feed(d, v))
    decreases |u|
  {
    if u != [] {
      var a, b := Xor(c, Low(u[..1])), Xor(d, Low(v[..1]));
      assert Xor(Xor(c, d), Low(Xor(u, v)[..1])) == Xor(a, b);
      assert Xor(u, v)[1..] == Xor(u[1..], v[1..]);
      ShiftLinear(a, b);
      FeedLinear(Shift(a), Shift(b), u[1..], v[1..]);
    }
  }

  lemma {:induction false} FeedInjective(c: Reg, d: Reg, u: seq<bool>)
    requires Feed(c, u) == Feed(d, u)
    ensures c == d
    decreases |u|
  {
    if u != [] {
      var a, b := Xor(c, Low(u[..1])), Xor(d, Low(u[..1]));
      FeedInjective(Shift(a), Shift(b), u[1..]);
      ShiftInjective(a, b);
      forall i | 0 <= i < 32
        ensures c[i] == d[i]
      {
        assert a[i] == b[i];
      }
    }
  }

  lemma {:induction false} ShiftsInjective(a: Reg, b: Reg, n: nat)
    requires Shifts(a, n) == Shifts(b, n)
    ensures a == b
    decreases n
  {
    if n > 0 {
      ShiftsInjective(Shift(a), Shift(b), n - 1);
      ShiftInjective(a, b);
    }
  }

  lemma {:induction false} FeedConcat(c: Reg, u: seq<bool>, v: seq<bool>)
    ensures Feed(c, u + v) == Feed(Feed(c, u), v)
    decreases |u|
  {
    if u == [] {
      assert u + v == v;
    } else {
      assert (u + v)[..1] == u[..1] && (u + v)[1..] == u[1..] + v;
      FeedConcat(Shift(Xor(c, Low(u[..1]))), u[1..], v);
    }
  }

  lemma {:induction false} MessageConcat(a: seq<byte>, b: seq<byte>)
    ensures MessageBits(a + b) == MessageBits(a) + MessageBits(b)
  {
    if a == [] {
      assert a + b == b;
    } else {
      assert (a + b)[1..] == a[1..] + b;
      MessageConcat(a[1..], b);
    }
  }

  /** Feeding at most 32 bits is adding them as one word, then shifting. */
  lemma {:induction false} FeedWord(c: Reg, bits: seq<bool>)
    requires |bits| <= 32
    ensures Feed(c, bits) == Shifts(Xor(c, Low(bits)), |bits|)
    decreases |bits|
  {
    if bits == [] {
      assert Xor(c, Low(bits)) == c;
    } else {
      var first := Xor(c, Low(bits[..1]));
      var whole := Xor(c, Low(bits));
      assert Drop(whole, 1) == Xor(Drop(first, 1), Low(bits[1..]));
      assert Shift(whole) == Xor(Shift(first), Low(bits[1..]));
      FeedWord(Shift(first), bits[1..]);
    }
  }

  lemma LowInjective(c: Reg, u: seq<bool>, v: seq<bool>)
    requires |u| == |v| <= 32 && Xor(c, Low(u)) == Xor(c, Low(v))
    ensures u == v
  {
    forall i | 0 <= i < |u|
      ensures u[i] == v[i]
    {
      assert Xor(c, Low(u))[i] == (c[i] != u[i]) && Xor(c, Low(v))[i] == (c[i] != v[i]);
    }
  }

  /** Different words of at most 32 bits leave different registers. */
  lemma WindowSeparates(c: Reg, u: seq<bool>, v: seq<bool>)
    requires |u| == |v| <= 32 && u != v
    ensures Feed(c, u) != Feed(c, v)
  {
    FeedWord(c, u);
    FeedWord(c, v);
    if Feed(c, u) == Feed(c, v) {
      ShiftsInjective(Xor(c, Low(u)), Xor(c, Low(v)), |u|);
      LowInjective(c, u, v);
      assert false;
    }
  }

  // ---- what the checksum promises ----

  /** A checksum resumed where another stopped is the checksum of both pieces together. */
  lemma ChecksumResumes(a: seq<byte>, b: seq<byte>)
    ensures Xor(Feed(Xor(Checksum(a), ONES), MessageBits(b)), ONES) == Checksum(a + b)
  {
    MessageConcat(a, b);
    FeedConcat(ONES, MessageBits(a), MessageBits(b));
    assert Xor(Checksum(a), ONES) == Feed(ONES, MessageBits(a));
  }

  /** Bit k of a message. */
  function MessageBit(data: seq<byte>, k: nat): bool
    requires k < 8 * |data|
  {
    Bits(data[k / 8] as nat, 8)[k % 8]
  }

  lemma {:induction false} MessageBitAt(data: seq<byte>, i: nat, j: nat)
    requires i < |data| && j < 8
    ensures MessageBits(data)[8 * i + j] == Bits(data[i] as nat, 8)[j]
    decreases i
  {
    hide Bits, MessageBits;
    MessageSplit(data);
    var head, tail := Bits(data[0] as nat, 8), MessageBits(data[1..]);
    if i == 0 {
      FirstBits(head, tail, j);
    } else {
      MessageBitAt(data[1..], i - 1, j);
      LaterBits(head, tail, i, j);
    }
  }

  lemma MessageSplit(data: seq<byte>)
    requires data != []
    ensures MessageBits(data) == Bits(data[0] as nat, 8) + MessageBits(data[1..])
  {
    hide Bits;
  }

  lemma FirstBits(head: seq<bool>, tail: seq<bool>, j: nat)
    requires |head| == 8 && j < 8
    ensures (head + tail)[j] == head[j]
  {
  }

  lemma LaterBits(head: seq<bool>, tail: seq<bool>, i: nat, j: nat)
    requires |head| == 8 && 0 < i && 8 * (i - 1) + j < |tail|
    ensures (head + tail)[8 * i + j] == tail[8 * (i - 1) + j]
  {
  }

  lemma MessageBitIs(data: seq<byte>, k: nat)
    requires k < 8 * |data|
    ensures MessageBits(data)[k] == MessageBit(data, k)
  {
    hide Bits, MessageBits;
    MessageBitAt(data, k / 8, k % 8);
  }

  lemma {:induction false} MessageInjective(a: seq<byte>, b: seq<byte>)
    requires |a| == |b| && MessageBits(a) == MessageBits(b)
    ensures a == b
  {
    if a != [] {
      Pow2Values();
      ValueOfBits(a[0] as nat, 8);
      ValueOfBits(b[0] as nat, 8);
      assert MessageBits(a)[..8] == Bits(a[0] as nat, 8) && MessageBits(b)[..8] == Bits(b[0] as nat, 8);
      assert MessageBits(a)[8..] == MessageBits(a[1..]) && MessageBits(b)[8..] == MessageBits(b[1..]);
      MessageInjective(a[1..], b[1..]);
    }
  }

  /** Two different payloads of one length that agree outside some 32 consecutive bits. */
  ghost predicate DifferInWindow(a: seq<byte>, b: seq<byte>, w: nat) {
    && |a| == |b|
    && a != b
    && forall k: nat :: k < 8 * |a| && !(w <= k < w + 32) ==> MessageBit(a, k) == MessageBit(b, k)
  }

  lemma AgreeOutside(a: seq<byte>, b: seq<byte>, w: nat)
    requires DifferInWindow(a, b, w)
    ensures forall k :: 0 <= k < 8 * |a| && !(w <= k < w + 32) ==> MessageBits(a)[k] == MessageBits(b)[k]
  {
    forall k | 0 <= k < 8 * |a| && !(w <= k < w + 32)
      ensures MessageBits(a)[k] == MessageBits(b)[k]
    {
      MessageBitIs(a, k);
      MessageBitIs(b, k);
      assert MessageBit(a, k) == MessageBit(b, k);
    }
  }

  lemma SplitAround(x: seq<bool>, y: seq<bool>, l: nat, h: nat)
    requires |x| == |y| && l <= h <= |x|
    requires forall k :: 0 <= k < |x| && !(l <= k < h) ==> x[k] == y[k]
    ensures x == x[..l] + x[l..h] + x[h..]
    ensures y == x[..l] + y[l..h] + x[h..]
  {
  }

  lemma BurstDetected(a: seq<byte>, b: seq<byte>, w: nat)
    requires DifferInWindow(a, b, w)
    ensures Crc(a) != Crc(b)
  {
    var x, y, n := MessageBits(a), MessageBits(b), 8 * |a|;
    AgreeOutside(a, b, w);
    var l := if w < n then w else n;
    var h := if w + 32 < n then w + 32 else n;
    SplitAround(x, y, l, h);
    if x[l..h] == y[l..h] {
      MessageInjective(a, b);
      assert false;
    }
    PartsSeparate(ONES, x[..l], x[l..h], y[l..h], x[h..]);
    CrcSeparates(a, b);
  }

  /** A common head keeps the registers equal, the window parts them, a common tail cannot rejoin them. */
  lemma PartsSeparate(c: Reg, head: seq<bool>, u: seq<bool>, v: seq<bool>, tail: seq<bool>)
    requires |u| == |v| <= 32 && u != v
    ensures Feed(c, head + u + tail) != Feed(c, head + v + tail)
  {
    FeedConcat(c, head + u, tail);
    FeedConcat(c, head, u);
    FeedConcat(c, head + v, tail);
    FeedConcat(c, head, v);
    var d := Feed(c, head);
    WindowSeparates(d, u, v);
    if Feed(c, head + u + tail) == Feed(c, head + v + tail) {
      FeedInjective(Feed(d, u), Feed(d, v), tail);
      assert false;
    }
  }

  lemma CrcSeparates(a: seq<byte>, b: seq<byte>)
    requires Feed(ONES, MessageBits(a)) != Feed(ONES, MessageBits(b))
    ensures Crc(a) != Crc(b)
  {
    var c, d := Feed(ONES, MessageBits(a)), Feed(ONES, MessageBits(b));
    var i :| 0 <= i < 32 && c[i] != d[i];
    assert Checksum(a)[i] != Checksum(b)[i];
    BitsOfValue(Checksum(a));
    BitsOfValue(Checksum(b));
  }

  // ---- the checksum is the remainder of a polynomial division ----

  /**
   * Long division by x^32 + POLY of the polynomial whose coefficients are listed from the
   * highest power down.
   */
  function Remainder(m: seq<bool>): Reg
    requires |m| >= 32
    decreases |m|
  {
    if |m| == 32 then m
    else if m[0] then Remainder(Xor(m[1..33], POLY) + m[33..])
    else Remainder(m[1..])
  }

  /** The polynomial still to divide when the register is c and the given bits are unread. */
  function Pending(c: Reg, bits: seq<bool>): (m: seq<bool>)
    ensures |m| == 32 + |bits|
  {
    Xor(c + Falses(|bits|), bits + Falses(32))
  }

  lemma DivideStep(c: Reg, bits: seq<bool>)
    requires bits != []
    ensures
      var x, m := Xor(c, Low(bits[..1])), Pending(c, bits);
      && m[0] == x[0]
      && Pending(Drop(x, 1), bits[1..]) == m[1..]
  {
  }

  lemma SubtractStep(c: Reg, p: Reg, bits: seq<bool>)
    ensures Pending(Xor(c, p), bits) == Xor(Pending(c, bits)[..32], p) + Pending(c, bits)[32..]
  {
  }

  lemma {:induction false} FeedDivides(c: Reg, bits: seq<bool>)
    ensures Feed(c, bits) == Remainder(Pending(c, bits))
    decreases |bits|
  {
    if bits == [] {
      assert Pending(c, bits) == c;
    } else {
      var x, m := Xor(c, Low(bits[..1])), Pending(c, bits);
      DivideStep(c, bits);
      SubtractStep(Drop(x, 1), POLY, bits[1..]);
      assert m[1..][..32] == m[1..33] && m[1..][32..] == m[33..];
      FeedDivides(Shift(x), bits[1..]);
    }
  }

  /**
   * Shift the message up by 32 places, complement its first 32 coefficients, divide, and
   * complement the remainder.
   */
  lemma ChecksumIsRemainder(data: seq<byte>)
    ensures
      var shifted := MessageBits(data) + Falses(32);
      Checksum(data) == Xor(Remainder(Xor(ONES + Falses(8 * |data|), shifted)), ONES)
  {
    FeedDivides(ONES, MessageBits(data));
  }

  // ---- xor of payloads ----

  function XorBytes(a: seq<byte>, b: seq<byte>): (c: seq<byte>)
    requires |a| == |b|
    ensures |c| == |a|
  {
    if a == [] then [] else
      var bits := Xor(Bits(a[0] as nat, 8), Bits(b[0] as nat, 8));
      BitsOfValue(bits);
      Pow2Values();
      [Value(bits) as byte] + XorBytes(a[1..], b[1..])
  }

  lemma {:induction false} MessageXor(a: seq<byte>, b: seq<byte>)
    requires |a| == |b|
    ensures MessageBits(XorBytes(a, b)) == Xor(MessageBits(a), MessageBits(b))
  {
    if a != [] {
      BitsOfValue(Xor(Bits(a[0] as nat, 8), Bits(b[0] as nat, 8)));
      assert XorBytes(a, b)[1..] == XorBytes(a[1..], b[1..]);
      MessageXor(a[1..], b[1..]);
    }
  }

  /** The checksum is affine over payloads of one length. */
  lemma ChecksumAffine(a: seq<byte>, b: seq<byte>, c: seq<byte>)
    requires |a| == |b| == |c|
    ensures Checksum(XorBytes(XorBytes(a, b), c)) == Xor(Xor(Checksum(a), Checksum(b)), Checksum(c))
  {
    MessageXor(a, b);
    MessageXor(XorBytes(a, b), c);
    var u, v, w := MessageBits(a), MessageBits(b), MessageBits(c);
    FeedLinear(ONES, ONES, u, v);
    FeedLinear(Xor(ONES, ONES), ONES, Xor(u, v), w);
    assert Xor(Xor(ONES, ONES), ONES) == ONES;
  }

  // ---- the table-driven implementation ----

  lemma {:induction false} ShiftsLinear(a: Reg, b: Reg, n: nat)
    ensures Shifts(Xor(a, b), n) == Xor(Shifts(a, n), Shifts(b, n))
    decreases n
  {
    if n > 0 {
      ShiftLinear(a, b);
      ShiftsLinear(Shift(a), Shift(b), n - 1);
    }
  }

  /** Zeros at the low end just shift out. */
  lemma {:induction false} ShiftsDrop(c: Reg, n: nat)
    requires n <= 32 && forall i :: 0 <= i < n ==> !c[i]
    ensures Shifts(c, n) == Drop(c, n)
    decreases n
  {
    if n > 0 {
      ShiftsDrop(Drop(c, 1), n - 1);
      assert Drop(Drop(c, 1), n - 1) == Drop(c, n);
    } else {
      assert Drop(c, 0) == c;
    }
  }

  predicate IsTable(table: seq<Reg>) {
    && |table| == 256
    && forall i: nat :: i < 256 ==> table[i] == Shifts(Low(Bits(i, 8)), 8)
  }

  lemma ShiftsSplit(x: Reg)
    ensures Shifts(x, 8) == Xor(Shifts(Low(x[..8]), 8), Drop(x, 8))
  {
    var high: Reg := Falses(8) + x[8..];
    assert x == Xor(Low(x[..8]), high);
    ShiftsLinear(Low(x[..8]), high, 8);
    ShiftsDrop(high, 8);
    assert Drop(high, 8) == Drop(x, 8);
  }

  function TableIndex(c: Reg, b: byte): (i: nat)
    ensures i < 256
  {
    var low := Xor(c, Low(Bits(b as nat, 8)))[..8];
    BitsOfValue(low);
    Pow2Values();
    Value(low)
  }

  /** One table step consumes one byte. */
  lemma TableStep(table: seq<Reg>, c: Reg, b: byte)
    requires IsTable(table)
    ensures Xor(table[TableIndex(c, b)], Drop(c, 8)) == Feed(c, Bits(b as nat, 8))
  {
    var x := Xor(c, Low(Bits(b as nat, 8)));
    BitsOfValue(x[..8]);
    assert table[TableIndex(c, b)] == Shifts(Low(x[..8]), 8);
    ShiftsSplit(x);
    assert Drop(x, 8) == Drop(c, 8);
    FeedWord(c, Bits(b as nat, 8));
  }

  /** The module-level table cache of _crc32c.py and the functions that use it. */
  class Crc32cModule {
    var table: Option<seq<Reg>>

    constructor ()
      ensures Valid()
    {
      table := None;
    }

    predicate Valid()
      reads this
    {
      table.Some? ==> IsTable(table.value)
    }

    static method MakeTable() returns (table: seq<Reg>)
      ensures IsTable(table)
    {
      table := [];
      for i := 0 to 256
        invariant |table| == i
        invariant forall j: nat :: j < i ==> table[j] == Shifts(Low(Bits(j, 8)), 8)
      {
        var crc := MakeEntry(i);
        table := table + [crc];
      }
    }

    /** The inner loop of the table builder. */
    static method MakeEntry(i: nat) returns (crc: Reg)
      ensures crc == Shifts(Low(Bits(i, 8)), 8)
    {
      crc := Low(Bits(i, 8));
      ghost var start := crc;
      for k := 0 to 8
        invariant Shifts(crc, 8 - k) == Shifts(start, 8)
      {
        assert Shifts(crc, 8 - k) == Shifts(Shift(crc), 8 - k - 1);
        if crc[0] {
          crc := Xor(Drop(crc, 1), POLY);
        } else {
          crc := Drop(crc, 1);
        }
      }
    }

    /** The byte loop returns the bit-serial checksum, whether or not the table is cached yet. */
    method Crc32c(data: seq<byte>) returns (crc: Reg)
      requires Valid()
      modifies this
      ensures Valid() && table.Some?
      ensures crc == Checksum(data)
    {
      if table.None? {
        var t := MakeTable();
        table := Some(t);
      }
      crc := ONES;
      for k := 0 to |data|
        invariant Valid() && table.Some?
        invariant Feed(crc, MessageBits(data[k..])) == Feed(ONES, MessageBits(data))
      {
        var b := data[k];
        TableStep(table.value, crc, b);
        FeedConcat(crc, Bits(b as nat, 8), MessageBits(data[k + 1..]));
        assert data[k..][1..] == data[k + 1..];
        crc := Xor(table.value[TableIndex(crc, b)], Drop(crc, 8));
      }
      crc := Xor(crc, ONES);
    }
  }
}
