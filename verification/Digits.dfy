/** Numbers as text: the format strings and `from_str_radix` that ids, file names and JSON rest on. */
module Digits {
  import opened Bytes

  type Base = b: nat | b == 10 || b == 16 witness 10

  function Digit(d: nat): byte
    requires d < 16
  {
    if d < 10 then (48 + d) as byte else (87 + d) as byte
  }

  /** Either case of a hexadecimal letter is read, only the lower one is printed. */
  function DigitValue(c: byte, b: Base): Option<nat> {
    var d := if 48 <= c <= 57 then c as nat - 48
             else if 97 <= c <= 102 then c as nat - 87
             else if 65 <= c <= 70 then c as nat - 55
             else 16;
    if d < b then Some(d) else None
  }

  predicate IsDigit(c: byte, b: Base) {
    DigitValue(c, b).Some?
  }

  predicate AllDigits(s: Text, b: Base) {
    forall i :: 0 <= i < |s| ==> IsDigit(s[i], b)
  }

  /** `{}` for base ten, `{:x}` for base sixteen. */
  function Print(n: nat, b: Base): (s: Text)
    ensures s != []
  {
    if n < b then [Digit(n)] else Print(n / b, b) + [Digit(n % b)]
  }

  function ZeroDigits(k: nat): (s: Text)
    ensures |s| == k && forall i :: 0 <= i < k ==> s[i] == 48
  {
    seq(k, _ => 48)
  }

  function Pad(p: Text, width: nat): (s: Text)
    ensures |s| == if |p| < width then width else |p|
  {
    if |p| < width then ZeroDigits(width - |p|) + p else p
  }

  /** `{:08x}` and `{:04x}`: zeros in front up to the width. */
  function PrintPadded(n: nat, b: Base, width: nat): (s: Text)
    ensures |s| >= width && s != []
  {
    Pad(Print(n, b), width)
  }

  /** The value of a string of digits, None at the first character that is not one. */
  function Number(s: Text, b: Base): Option<nat> {
    if s == [] then Some(0) else
      var n, d := Number(s[..|s| - 1], b), DigitValue(s[|s| - 1], b);
      if n.Some? && d.Some? then Some(n.value * b + d.value) else None
  }

  /** Rust's from_str_radix for an unsigned type: one leading plus, at least one digit, no overflow. */
  function FromStrRadix(s: Text, b: Base, limit: nat): (r: Option<nat>)
    ensures r.Some? ==> r.value < limit
  {
    var digits := if |s| > 1 && s[0] == 43 then s[1..] else s;
    if digits == [] then None else
      var n := Number(digits, b);
      if n.Some? && n.value < limit then n else None
  }

  function Power(b: nat, k: nat): nat {
    if k == 0 then 1 else b * Power(b, k - 1)
  }

  lemma {:induction false} PrintDigits(n: nat, b: Base)
    ensures AllDigits(Print(n, b), b)
  {
    if n >= b {
      PrintDigits(n / b, b);
    }
  }

  lemma QuotientAndDigit(n: nat, b: Base)
    ensures n / b * b + n % b == n && n % b < b
    ensures n >= b ==> n / b >= 1
  {
    if b == 10 {
    } else {
    }
  }

  lemma {:induction false} NumberOfPrint(n: nat, b: Base)
    ensures Number(Print(n, b), b) == Some(n)
  {
    var s := Print(n, b);
    if n < b {
      assert s[..0] == [];
    } else {
      NumberOfPrint(n / b, b);
      QuotientAndDigit(n, b);
      assert s[..|s| - 1] == Print(n / b, b);
    }
  }

  lemma {:induction false} LeadingZeros(k: nat, s: Text, b: Base)
    ensures Number(ZeroDigits(k) + s, b) == Number(s, b)
    decreases |s|, k
  {
    var z := ZeroDigits(k);
    if s != [] {
      assert (z + s)[..|z + s| - 1] == z + s[..|s| - 1];
      LeadingZeros(k, s[..|s| - 1], b);
    } else if k > 0 {
      assert (z + s)[..k - 1] == ZeroDigits(k - 1) + s;
      LeadingZeros(k - 1, s, b);
    }
  }

  lemma NumberOfPadded(n: nat, b: Base, width: nat)
    ensures Number(PrintPadded(n, b, width), b) == Some(n)
  {
    NumberOfPrint(n, b);
    if |Print(n, b)| < width {
      LeadingZeros(width - |Print(n, b)|, Print(n, b), b);
    }
  }

  lemma {:induction false} HexLength(n: nat, k: nat)
    requires k > 0 && n < Power(16, k)
    ensures |Print(n, 16)| <= k
    decreases k
  {
    if n >= 16 {
      HexLength(n / 16, k - 1);
    }
  }

  lemma HexWidths()
    ensures Power(16, 8) == U32 && Power(16, 16) == U64
  {
    assert Power(16, 4) == 0x1_0000;
    assert Power(16, 12) == 0x1_0000_0000_0000;
  }

  lemma PrintReads(n: nat, b: Base, limit: nat)
    requires n < limit
    ensures FromStrRadix(Print(n, b), b, limit) == Some(n)
  {
    NumberOfPrint(n, b);
    PrintDigits(n, b);
  }

  lemma PaddedReads(n: nat, b: Base, width: nat, limit: nat)
    requires n < limit
    ensures FromStrRadix(PrintPadded(n, b, width), b, limit) == Some(n)
  {
    NumberOfPadded(n, b, width);
    PrintDigits(n, b);
  }

  // ---- which texts are printed ones ----

  /** A digit as Print writes it: no capital letters. */
  predicate IsPlain(c: byte, b: Base) {
    IsDigit(c, b) && !(65 <= c <= 70)
  }

  predicate AllPlain(s: Text, b: Base) {
    forall i :: 0 <= i < |s| ==> IsPlain(s[i], b)
  }

  /** No sign, no capitals, no zero in front. */
  predicate Canonical(s: Text, b: Base) {
    s != [] && AllPlain(s, b) && (s[0] == 48 ==> |s| == 1)
  }

  lemma DivMod(n: nat, d: nat, b: Base)
    requires d < b
    ensures (n * b + d) / b == n && (n * b + d) % b == d
  {
    if b == 10 {
    } else {
    }
  }

  lemma PrintSnoc(n: nat, d: nat, b: Base)
    requires 1 <= n && d < b
    ensures n * b + d >= 0 && Print(n * b + d, b) == Print(n, b) + [Digit(d)]
  {
    DivMod(n, d, b);
    var m: nat := n * b + d;
    assert m >= b;
  }

  lemma {:induction false} PrintCanonical(n: nat, b: Base)
    ensures Canonical(Print(n, b), b)
    ensures n >= 1 ==> Print(n, b)[0] != 48
  {
    if n >= b {
      PrintCanonical(n / b, b);
      QuotientAndDigit(n, b);
    }
  }

  lemma {:induction false} PrintOfNumber(s: Text, b: Base)
    requires Canonical(s, b)
    ensures Number(s, b).Some? && Print(Number(s, b).value, b) == s
  {
    var init, last := s[..|s| - 1], s[|s| - 1];
    assert IsPlain(last, b);
    var d := DigitValue(last, b).value;
    assert Digit(d) == last && s == init + [last];
    if init == [] {
      assert Number(init, b) == Some(0);
    } else {
      PrintOfNumber(init, b);
      PrintCanonical(Number(init, b).value, b);
      PrintSnoc(Number(init, b).value, d, b);
    }
  }

  lemma ZeroInFront(k: nat, p: Text)
    ensures ZeroDigits(k + 1) + p == [48] + (ZeroDigits(k) + p)
    ensures ZeroDigits(0) + p == p
  {
    assert ZeroDigits(k + 1) == [48] + ZeroDigits(k);
  }

  lemma PadOneMore(p: Text, width: nat)
    requires |p| <= width
    ensures Pad(p, width + 1) == [48] + Pad(p, width)
  {
    ZeroInFront(width - |p|, p);
  }

  lemma {:induction false} PaddedOfNumber(s: Text, b: Base)
    requires s != [] && AllPlain(s, b)
    ensures Number(s, b).Some?
    ensures |Print(Number(s, b).value, b)| <= |s|
    ensures PrintPadded(Number(s, b).value, b, |s|) == s
  {
    if s[0] == 48 && |s| > 1 {
      var t := s[1..];
      assert ZeroDigits(1) + t == s && [48] + t == s;
      PaddedOfNumber(t, b);
      LeadingZeros(1, t, b);
      PadOneMore(Print(Number(t, b).value, b), |t|);
    } else {
      PrintOfNumber(s, b);
    }
  }

  // ---- which texts are numbers ----

  /** A number reads exactly if every character is a digit. */
  lemma {:induction false} NumberDigits(s: Text, b: Base)
    ensures Number(s, b).Some? <==> AllDigits(s, b)
  {
    if s != [] {
      var init := s[..|s| - 1];
      NumberDigits(init, b);
      assert s == init + [s[|s| - 1]];
      assert AllDigits(s, b) <==> AllDigits(init, b) && IsDigit(s[|s| - 1], b);
    }
  }

  /** The texts from_str_radix reads: digits below the limit, with or without one plus in front. */
  lemma RadixExact(s: Text, b: Base, limit: nat, n: nat)
    ensures
      FromStrRadix(s, b, limit) == Some(n) <==>
      exists d :: d != [] && (s == d || s == [43] + d) && AllDigits(d, b) && Number(d, b) == Some(n) && n < limit
  {
    hide Number;
    NumberDigits(s, b);
    if |s| > 1 && s[0] == 43 {
      assert s == [43] + s[1..] && !IsDigit(s[0], b);
      NumberDigits(s[1..], b);
    }
    forall d | d != [] && s == [43] + d
      ensures s[1..] == d && s != d && s[0] == 43
    {
    }
  }
}
