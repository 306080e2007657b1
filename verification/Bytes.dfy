/** Bytes, machine integers and the little-endian layout used by every binary header. */
module Bytes {
  const U32 := 0x1_0000_0000
  const U64 := 0x1_0000_0000_0000_0000

  newtype byte = x: int | 0 <= x < 256
  type u32 = x: int | 0 <= x < U32
  type u64 = x: int | 0 <= x < U64

  /** Text is kept as its UTF-8 bytes. */
  type Text = seq<byte>

  datatype Option<+T> = None | Some(value: T)

  /** The bytes of an ASCII literal. */
  function Ascii(s: string): (t: Text)
    ensures |t| == |s|
  {
    seq(|s|, i requires 0 <= i < |s| => if s[i] < 128 as char then s[i] as int as byte else 63)
  }

  function Zeros(n: nat): (z: seq<byte>)
    ensures |z| == n
  {
    seq(n, _ => 0)
  }

  /** Rust's `as u32` and `as u64`, and wrapping addition on u64. */
  function AsU32(n: nat): u32 { n % U32 }

  function AsU64(n: nat): u64 { n % U64 }

  lemma WrappingAdd(a: nat, b: nat)
    ensures AsU64(AsU64(a) + b) == AsU64(a + b)
  {
  }

  /** The k low bytes of n, least significant first. */
  function Le(n: nat, k: nat): (bs: seq<byte>)
    ensures |bs| == k
  {
    if k == 0 then [] else [(n % 256) as byte] + Le(n / 256, k - 1)
  }

  function LeValue(bs: seq<byte>): nat {
    if bs == [] then 0 else bs[0] as nat + 256 * LeValue(bs[1..])
  }

  function Pow256(k: nat): (p: nat)
    ensures p > 0
  {
    if k == 0 then 1 else 256 * Pow256(k - 1)
  }

  lemma {:induction false} LeRoundTrip(n: nat, k: nat)
    requires n < Pow256(k)
    ensures LeValue(Le(n, k)) == n
  {
    if k > 0 {
      LeRoundTrip(n / 256, k - 1);
      assert Le(n, k)[1..] == Le(n / 256, k - 1);
    }
  }

  /** The low m bytes, with zeros for the others, are the number modulo 256^m. */
  lemma {:induction false} LeCut(n: nat, k: nat, m: nat)
    requires m <= k
    ensures LeValue(Le(n, k)[..m] + Zeros(k - m)) == n % Pow256(m)
    decreases k
  {
    if k == 0 {
      assert Le(n, k)[..m] + Zeros(k - m) == [];
    } else if m == 0 {
      assert Le(n, k)[..0] + Zeros(k) == Zeros(k);
      ZerosValue(k);
    } else {
      LeCut(n / 256, k - 1, m - 1);
      var rest := Le(n / 256, k - 1)[..m - 1] + Zeros(k - m);
      assert Le(n, k)[..m] + Zeros(k - m) == [(n % 256) as byte] + rest;
      assert ([(n % 256) as byte] + rest)[1..] == rest;
      RemainderDigit(n, Pow256(m - 1));
    }
  }

  lemma {:induction false} ZerosValue(k: nat)
    ensures LeValue(Zeros(k)) == 0
  {
    if k > 0 {
      ZerosValue(k - 1);
      assert Zeros(k)[1..] == Zeros(k - 1);
    }
  }

  lemma RemainderDigit(n: nat, p: nat)
    requires p > 0
    ensures n % (256 * p) == n % 256 + 256 * (n / 256 % p)
  {
    var (q, r) := (n / 256 / p, n / 256 % p);
    assert n / 256 == q * p + r;
    assert n == (256 * p) * q + (n % 256 + 256 * r) by {
      assert n == 256 * (n / 256) + n % 256;
      assert 256 * (q * p) == (256 * p) * q;
    }
    RemainderUnique(n, 256 * p, q, n % 256 + 256 * r);
  }

  lemma RemainderUnique(n: nat, d: nat, q: nat, r: nat)
    requires n == d * q + r && r < d
    ensures n % d == r
  {
    var (p, s) := (n / d, n % d);
    assert n == d * p + s;
    MultipleBound(d, q - p);
    assert d * (q - p) == d * q - d * p;
  }

  lemma MultipleBound(d: int, k: int)
    requires d > 0
    ensures k >= 1 ==> d * k >= d
    ensures k <= -1 ==> d * k <= -d
  {
    if k >= 1 {
      assert d * k == d + d * (k - 1);
    } else if k <= -1 {
      assert d * k == -d + d * (k + 1);
    }
  }

  lemma {:induction false} PowGrows(a: nat, b: nat)
    requires a <= b
    ensures Pow256(a) <= Pow256(b)
    decreases b
  {
    if a < b {
      PowGrows(a, b - 1);
    }
  }

  lemma RemainderSame(n: nat, p: nat)
    requires p > 0
    ensures n % p == n <==> n < p
  {
  }

  lemma Le4(n: u32)
    ensures LeValue(Le(n, 4)) == n
  {
    assert Pow256(4) == U32 by { assert Pow256(2) == 0x1_0000; }
    LeRoundTrip(n, 4);
  }

  lemma Le8(n: u64)
    ensures LeValue(Le(n, 8)) == n
  {
    assert Pow256(8) == U64 by {
      assert Pow256(2) == 0x1_0000;
      assert Pow256(4) == U32;
      assert Pow256(6) == 0x1_0000_0000_0000;
    }
    LeRoundTrip(n, 8);
  }

  /** The second of two neighbouring pieces is where its length says. */
  lemma Cut(a: seq<byte>, b: seq<byte>, whole: seq<byte>)
    requires a + b <= whole
    ensures |a| + |b| <= |whole| && whole[|a|..|a| + |b|] == b
  {
    assert whole[..|a| + |b|] == a + b;
  }

  lemma CutFields(a: seq<byte>, b: seq<byte>, c: seq<byte>, d: seq<byte>, e: seq<byte>, s: seq<byte>)
    requires s == a + b + c + d + e
    ensures
      var j, k, l := |a| + |b|, |a| + |b| + |c|, |a| + |b| + |c| + |d|;
      && l + |e| == |s|
      && s[0..|a|] == a && s[|a|..j] == b && s[j..k] == c && s[k..l] == d && s[l..l + |e|] == e
  {
    Cut([], a, s);
    Cut(a, b, s);
    Cut(a + b, c, s);
    Cut(a + b + c, d, s);
    Cut(a + b + c + d, e, s);
  }
}
