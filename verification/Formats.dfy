/** The formats as a reader of the files sees them: the very bytes and characters of each. */
module Formats {
  import opened Bytes
  import CrcCheck
  import opened Crc32c
  import opened Digits
  import IndexId
  import opened MetaJson
  import opened MetaRoundTrip
  import opened Paths
  import opened Records
  import opened StackLog

  // ---- integers ----

  /** Byte i of a number is its i-th digit to base 256, the lowest first. */
  lemma {:induction false} LeByte(n: nat, k: nat, i: nat)
    requires i < k
    ensures Le(n, k)[i] as nat == n / Pow256(i) % 256
    decreases i
  {
    if i > 0 {
      LeByte(n / 256, k - 1, i - 1);
      DivideTwice(n, Pow256(i - 1));
    }
  }

  lemma DivideTwice(n: nat, p: nat)
    requires p > 0
    ensures n / 256 / p == n / (256 * p)
  {
    var q, r := n / 256 / p, n / 256 % p;
    assert n / 256 == q * p + r;
    assert 256 * (q * p) == (256 * p) * q;
    RemainderUnique(n, 256 * p, q, n % 256 + 256 * r);
    assert n == (256 * p) * (n / (256 * p)) + n % (256 * p);
    SameFactor(256 * p, q, n / (256 * p));
  }

  lemma SameFactor(d: nat, a: int, b: int)
    requires d > 0 && d * a == d * b
    ensures a == b
  {
    MultipleBound(d, a - b);
    assert d * (a - b) == d * a - d * b;
  }

  /** A cast to 32 or 64 bits keeps the four or eight low bytes. */
  lemma CastsKeepLowBytes(n: nat)
    ensures AsU32(n) == LeValue(Le(n, 4)) && AsU64(n) == LeValue(Le(n, 8))
  {
    assert Pow256(4) == U32 by { assert Pow256(2) == 0x1_0000; }
    assert Pow256(8) == U64 by { assert Pow256(6) == 0x1_0000_0000_0000; }
    LeCut(n, 4, 4);
    LeCut(n, 8, 8);
    assert Le(n, 4)[..4] + Zeros(0) == Le(n, 4);
    assert Le(n, 8)[..8] + Zeros(0) == Le(n, 8);
  }

  lemma DigitsAre(d: nat)
    requires d < 16
    ensures Digit(d) == Ascii("0123456789abcdef")[d]
    ensures d >= 10 ==> DigitValue(Ascii("ABCDEF")[d - 10], 16) == Some(d)
  {
  }

  // ---- binary layouts ----

  lemma FourBytes(a: byte, b: byte, c: byte, d: byte)
    ensures
      var n := a as nat + 256 * (b as nat + 256 * (c as nat + 256 * d as nat));
      Le(n, 4) == [a, b, c, d] && Le(n, 8) == [a, b, c, d, 0, 0, 0, 0]
  {
    hide Le, LeValue;
    FourBefore(a, b, c, d, []);
    FourBefore(a, b, c, d, Zeros(4));
    ZerosValue(0);
    ZerosValue(4);
    assert Zeros(0) == [];
    assert [a, b, c, d] + [] == [a, b, c, d];
    LeOf([a, b, c, d]);
    assert [a, b, c, d] + Zeros(4) == [a, b, c, d, 0, 0, 0, 0];
    LeOf([a, b, c, d, 0, 0, 0, 0]);
  }

  lemma FourBefore(a: byte, b: byte, c: byte, d: byte, bs: seq<byte>)
    ensures
      LeValue([a, b, c, d] + bs) ==
      a as nat + 256 * (b as nat + 256 * (c as nat + 256 * (d as nat + 256 * LeValue(bs))))
  {
    LeFront([a, b, c, d] + bs, [b, c, d] + bs);
    LeFront([b, c, d] + bs, [c, d] + bs);
    LeFront([c, d] + bs, [d] + bs);
    LeFront([d] + bs, bs);
  }

  lemma LeFront(s: seq<byte>, rest: seq<byte>)
    requires s != [] && s[1..] == rest
    ensures LeValue(s) == s[0] as nat + 256 * LeValue(rest)
  {
  }

  lemma {:induction false} LeOf(bs: seq<byte>)
    ensures Le(LeValue(bs), |bs|) == bs
  {
    if bs != [] {
      LeOf(bs[1..]);
      assert bs == [bs[0]] + bs[1..];
    }
  }

  /** The magic numbers, and the 16 bytes in front of the data and index file of a stack. */
  lemma MagicHeadersAre(id: u64)
    ensures MagicHeader(DATA_MAGIC, id) == [0xEE, 0xB5, 0xD4, 0x02, 0, 0, 0, 0] + Le(id, 8)
    ensures MagicHeader(INDEX_MAGIC, id) == [0xA2, 0x5D, 0x4F, 0, 0, 0, 0, 0] + Le(id, 8)
  {
    hide Le;
    FourBytes(0xEE, 0xB5, 0xD4, 0x02);
    FourBytes(0xA2, 0x5D, 0x4F, 0);
  }

  /** The data file starts with its header and zeros up to the first slot. */
  lemma DataHeadIs(id: u64)
    ensures |DataHead(id)| == 4096 && DataHead(id)[..16] == MagicHeader(DATA_MAGIC, id)
    ensures forall i :: 16 <= i < 4096 ==> DataHead(id)[i] == 0
  {
    hide MagicHeader;
  }

  /** The header of a slot: start magic, cookie, size, checksum, end magic, four bytes each. */
  lemma SlotHeaderIs(cookie: u32, payload: seq<byte>)
    ensures
      EncodeData(HeaderOf(cookie, payload)) ==
      [0xDE, 0xEE, 0x03, 0x00] + Le(cookie, 4) + Le(AsU32(|payload|), 4) + Le(Crc(payload), 4) +
      [0x98, 0x16, 0x0D, 0x00]
  {
    hide Crc, Le;
    FourBytes(0xDE, 0xEE, 0x03, 0x00);
    FourBytes(0x98, 0x16, 0x0D, 0x00);
  }

  /** Header, payload, and nothing but zeros up to the next multiple of 4096. */
  lemma SlotIs(cookie: u32, payload: seq<byte>)
    ensures
      var slot, n := Slot(cookie, payload), |payload|;
      && slot[..20] == EncodeData(HeaderOf(cookie, payload)) && slot[20..20 + n] == payload
      && (forall i :: 20 + n <= i < |slot| ==> slot[i] == 0)
      && |slot| % 4096 == 0 && |slot| < 20 + n + 4096
  {
    hide EncodeData, HeaderOf, PaddedSize;
    SlotBounds(|payload|);
    var head, body := EncodeData(HeaderOf(cookie, payload)), Body(payload);
    forall i | 20 + |payload| <= i < |head + body|
      ensures (head + body)[i] == 0
    {
      assert (head + body)[i] == body[i - 20];
    }
  }

  /** The nine bytes of the standard check, stored under cookie 12345. */
  lemma SlotExample()
    ensures
      EncodeData(HeaderOf(12345, Ascii("123456789"))) ==
      [0xDE, 0xEE, 0x03, 0, 0x39, 0x30, 0, 0, 9, 0, 0, 0, 0x83, 0x92, 0x06, 0xE3, 0x98, 0x16, 0x0D, 0]
  {
    hide Crc, Le, EncodeData, HeaderOf, Ascii;
    SlotHeaderIs(12345, Ascii("123456789"));
    CrcCheck.CheckValue();
    FourBytes(0x39, 0x30, 0, 0);
    FourBytes(9, 0, 0, 0);
    FourBytes(0x83, 0x92, 0x06, 0xE3);
  }

  /** An index record: cookie, offset and size of the data, offset and size of the line. */
  lemma IndexExample()
    ensures
      EncodeIndex(IndexRecord(12345, 4096, 9, 48, 100)) ==
      [0x39, 0x30, 0, 0, 0, 0x10, 0, 0, 0, 0, 0, 0, 9, 0, 0, 0, 48, 0, 0, 0, 0, 0, 0, 0, 100, 0, 0, 0]
  {
    hide Le;
    FourBytes(0x39, 0x30, 0, 0);
    FourBytes(0, 0x10, 0, 0);
    FourBytes(9, 0, 0, 0);
    FourBytes(48, 0, 0, 0);
    FourBytes(100, 0, 0, 0);
  }

  // ---- names and ids ----

  lemma NamesAre(id: u64)
    ensures FileName(id, Data) == Ascii("0x") + PrintPadded(id, 16, 4) + Ascii(".data")
    ensures FileName(id, Idx) == Ascii("0x") + PrintPadded(id, 16, 4) + Ascii(".idx")
    ensures FileName(id, Meta) == Ascii("0x") + PrintPadded(id, 16, 4) + Ascii(".meta")
  {
    hide PrintPadded;
    assert Ascii("0x") == [48, 120];
  }

  lemma NameExample()
    ensures FileName(31, Data) == Ascii("0x001f.data")
    ensures FileName(0x12345, Idx) == Ascii("0x12345.idx")
  {
    assert Print(31, 16) == [49, 102];
    assert Print(0x12345, 16) == Ascii("12345");
    assert ZeroDigits(2) == [48, 48];
    assert Ascii(".data") == [46, 100, 97, 116, 97];
    assert Ascii(".idx") == [46, 105, 100, 120];
  }

  /** The id of the source's own test: stack 100, offset 2004, cookie 12345. */
  lemma IdExample()
    ensures IndexId.PrintId(IndexId.IndexID(100, 2004, 12345)) == Ascii("100,7d400003039")
  {
    assert Print(100, 10) == Ascii("100");
    assert Print(2004, 16) == Ascii("7d4");
    assert Print(12345, 16) == Ascii("3039");
    assert ZeroDigits(4) == [48, 48, 48, 48];
  }

  // ---- the meta file ----

  /** The escapes of the writers: the short ones, then two lower-case digits, and no others. */
  lemma EscapesAre(b: byte)
    ensures b == 34 ==> Escape(b) == Ascii("\\\"")
    ensures b == 92 ==> Escape(b) == Ascii("\\\\")
    ensures b == 8 ==> Escape(b) == Ascii("\\b")
    ensures b == 9 ==> Escape(b) == Ascii("\\t")
    ensures b == 10 ==> Escape(b) == Ascii("\\n")
    ensures b == 12 ==> Escape(b) == Ascii("\\f")
    ensures b == 13 ==> Escape(b) == Ascii("\\r")
    ensures b < 32 && b !in {8, 9, 10, 12, 13} ==> Escape(b) == Ascii("\\u00") + PrintPadded(b as nat, 16, 2)
    ensures b >= 32 && b != 34 && b != 92 ==> Escape(b) == [b]
  {
    if b < 32 {
      TwoDigits(b as nat);
    }
  }

  lemma TwoDigits(n: nat)
    requires n < 256
    ensures PrintPadded(n, 16, 2) == [Digit(n / 16), Digit(n % 16)]
  {
    assert ZeroDigits(1) == [48];
    if n >= 16 {
      assert Print(n / 16, 16) == [Digit(n / 16)];
    }
  }

  lemma {:induction false} PlainUnescaped(s: Text)
    requires forall i :: 0 <= i < |s| ==> s[i] >= 32 && s[i] != QUOTE && s[i] != BACKSLASH
    ensures EscapeAll(s) == s
  {
    if s != [] {
      PlainUnescaped(s[1..]);
      assert s == [s[0]] + s[1..];
    }
  }

  lemma PrintedBytes()
    ensures Print(0, 10) == [48] && Print(10, 10) == [49, 48] && Print(255, 10) == [50, 53, 53]
  {
    assert Print(25, 10) == [50, 53];
  }

  lemma ArraysAre()
    ensures PrintArray([]) == Ascii("[]")
    ensures PrintArray([0, 10, 255]) == Ascii("[0,10,255]")
  {
    PrintedBytes();
    hide Print;
    assert PrintElements([255]) == [50, 53, 53];
    assert PrintElements([10, 255]) == [49, 48, 44, 50, 53, 53];
    assert [0 as byte, 10, 255][1..] == [10, 255] && [10 as byte, 255][1..] == [255];
  }

  predicate PlainKey(key: Text) {
    forall i :: 0 <= i < |key| ==> key[i] >= 32 && key[i] != QUOTE && key[i] != BACKSLASH
  }

  /** One member, as the format string of its field. */
  lemma MemberIs(before: byte, key: Text, v: Value, after: Text, front: Text)
    requires PlainKey(key) && front == [before, 34] + key + [34, 58]
    ensures [before] + PrintMember(Member(key, v), after) == front + (PrintValue(v) + after)
  {
    hide EscapeAll, PrintValue;
    PlainUnescaped(key);
    var rest := PrintValue(v) + after;
    assert [before] + PrintMember(Member(key, v), after) == [before] + ([34] + (key + [34]) + ([58] + rest));
  }

  lemma LastIs(before: byte, m: Member, front: Text)
    requires PlainKey(m.key) && front == [before, 34] + m.key + [34, 58]
    ensures [before] + (PrintMembers([m]) + [NEWLINE]) == front + (PrintValue(m.value) + [RBRACE, NEWLINE])
  {
    hide PrintMember, PrintValue;
    MembersThen([m], [NEWLINE]);
    assert [RBRACE] + [NEWLINE] == [RBRACE, NEWLINE];
    MemberIs(before, m.key, m.value, [RBRACE, NEWLINE], front);
  }

  lemma NextIs(before: byte, m: Member, ms: seq<Member>, front: Text)
    requires ms != [] && PlainKey(m.key) && front == [before, 34] + m.key + [34, 58]
    ensures
      [before] + (PrintMembers([m] + ms) + [NEWLINE]) ==
      front + (PrintValue(m.value) + ([COMMA] + (PrintMembers(ms) + [NEWLINE])))
  {
    hide PrintMember, PrintMembers, PrintValue;
    MembersThen([m] + ms, [NEWLINE]);
    assert ([m] + ms)[1..] == ms;
    MemberIs(before, m.key, m.value, [COMMA] + (PrintMembers(ms) + [NEWLINE]), front);
  }

  lemma FrontIs(before: char, key: string, front: string)
    requires before < 128 as char && front == [before, '\"'] + key + "\":"
    requires forall i :: 0 <= i < |key| ==> key[i] == '_' || 'a' <= key[i] <= 'z'
    ensures PlainKey(Ascii(key)) && Ascii(front) == [before as int as byte, 34] + Ascii(key) + [34, 58]
  {
  }

  lemma HeaderFronts()
    ensures PlainKey(Ascii("meta_magic_number")) && PlainKey(Ascii("stack_id"))
    ensures Ascii("{\"meta_magic_number\":") == [LBRACE, 34] + Ascii("meta_magic_number") + [34, 58]
    ensures Ascii(",\"stack_id\":") == [COMMA, 34] + Ascii("stack_id") + [34, 58]
  {
    hide Ascii, PlainKey;
    FrontIs('{', "meta_magic_number", "{\"meta_magic_number\":");
    FrontIs(',', "stack_id", ",\"stack_id\":");
  }

  lemma MagicIs()
    ensures Print(META_MAGIC, 10) == Ascii("1314920")
  {
    assert Print(13149, 10) == Ascii("13149") by { assert Print(131, 10) == Ascii("131"); }
    assert Print(1314920, 10) == Print(131492, 10) + [48] && Print(131492, 10) == Print(13149, 10) + [50];
  }

  lemma ObjectEnds()
    ensures Ascii("}\n") == [RBRACE, NEWLINE]
  {
  }

  /** The header line, in full. */
  lemma HeaderLineIs(id: u64)
    ensures
      HeaderLine(id) ==
      Ascii("{\"meta_magic_number\":") + (Ascii("1314920") + (Ascii(",\"stack_id\":") + (Print(id, 10) + Ascii("}\n"))))
  {
    hide Ascii, PrintMembers, Print;
    HeaderFronts();
    MagicIs();
    ObjectEnds();
    var ms := HeaderMembers(id);
    assert ms == [ms[0]] + [ms[1]];
    NextIs(LBRACE, ms[0], [ms[1]], Ascii("{\"meta_magic_number\":"));
    LastIs(COMMA, ms[1], Ascii(",\"stack_id\":"));
    Assoc([LBRACE], PrintMembers(ms), [NEWLINE]);
  }

  lemma RecordFronts()
    ensures PlainKey(Ascii("create_time")) && PlainKey(Ascii("offset_data")) && PlainKey(Ascii("size_data"))
    ensures PlainKey(Ascii("cookie")) && PlainKey(Ascii("filename")) && PlainKey(Ascii("extra"))
    ensures Ascii("{\"create_time\":") == [LBRACE, 34] + Ascii("create_time") + [34, 58]
    ensures Ascii(",\"offset_data\":") == [COMMA, 34] + Ascii("offset_data") + [34, 58]
    ensures Ascii(",\"size_data\":") == [COMMA, 34] + Ascii("size_data") + [34, 58]
    ensures Ascii(",\"cookie\":") == [COMMA, 34] + Ascii("cookie") + [34, 58]
    ensures Ascii(",\"filename\":") == [COMMA, 34] + Ascii("filename") + [34, 58]
    ensures Ascii(",\"extra\":") == [COMMA, 34] + Ascii("extra") + [34, 58]
  {
    hide Ascii, PlainKey;
    FrontIs('{', "create_time", "{\"create_time\":");
    FrontIs(',', "offset_data", ",\"offset_data\":");
    FrontIs(',', "size_data", ",\"size_data\":");
    FrontIs(',', "cookie", ",\"cookie\":");
    FrontIs(',', "filename", ",\"filename\":");
    FrontIs(',', "extra", ",\"extra\":");
  }

  /** The line of a record, in full: the fields in the order they are declared, and no white space. */
  lemma RecordLineIs(m: MetaRecord)
    ensures
      RecordLine(m) ==
      Ascii("{\"create_time\":") + (Print(m.createTime, 10) + (Ascii(",\"offset_data\":") + (Print(m.offsetData, 10) + (
      Ascii(",\"size_data\":") + (Print(m.sizeData, 10) + (Ascii(",\"cookie\":") + (Print(m.cookie, 10) + (
      Ascii(",\"filename\":") + (PrintString(m.filename) + (Ascii(",\"extra\":") + (PrintArray(m.extra) +
      Ascii("}\n"))))))))))))
  {
    hide Ascii, PrintMembers, PrintString, PrintArray, Print;
    RecordFronts();
    ObjectEnds();
    var ms := Members(m);
    assert ms == [ms[0]] + ([ms[1]] + ([ms[2]] + ([ms[3]] + ([ms[4]] + [ms[5]]))));
    NextIs(LBRACE, ms[0], [ms[1]] + ([ms[2]] + ([ms[3]] + ([ms[4]] + [ms[5]]))), Ascii("{\"create_time\":"));
    NextIs(COMMA, ms[1], [ms[2]] + ([ms[3]] + ([ms[4]] + [ms[5]])), Ascii(",\"offset_data\":"));
    NextIs(COMMA, ms[2], [ms[3]] + ([ms[4]] + [ms[5]]), Ascii(",\"size_data\":"));
    NextIs(COMMA, ms[3], [ms[4]] + [ms[5]], Ascii(",\"cookie\":"));
    NextIs(COMMA, ms[4], [ms[5]], Ascii(",\"filename\":"));
    LastIs(COMMA, ms[5], Ascii(",\"extra\":"));
    Assoc([LBRACE], PrintMembers(ms), [NEWLINE]);
  }
}
