/** The public key of a record: `{stack_id},{offset:x}{cookie:08x}`. */
module IndexId {
  import opened Bytes
  import opened Digits

  const COMMA: byte := 44

  datatype IndexID = IndexID(stackId: u64, offsetData: u64, cookie: u32)

  /** parse_index_id returns None on a bad shape and panics on a bad number. */
  datatype Parsed = Id(id: IndexID) | NoId | Panicked

  /** IndexRecord::index_id. */
  function RecordId(offset: u64, cookie: u32): Text {
    Print(offset, 16) + PrintPadded(cookie, 16, 8)
  }

  /** What put returns. */
  function PrintId(id: IndexID): Text {
    Print(id.stackId, 10) + [COMMA] + RecordId(id.offsetData, id.cookie)
  }

  /** The position of the first c in s, or |s|. */
  function Find(s: Text, c: byte): (i: nat)
    ensures i <= |s|
    ensures c !in s[..i]
    ensures i < |s| ==> s[i] == c
  {
    if s == [] || s[0] == c then 0 else
      var i := Find(s[1..], c);
      assert s[..i + 1] == [s[0]] + s[1..][..i];
      i + 1
  }

  function ParseId(s: Text): Parsed {
    var comma := Find(s, COMMA);
    if comma == |s| then NoId else
      var stack := FromStrRadix(s[..comma], 10, U64);
      var rest := s[comma + 1..];
      if stack.None? then Panicked
      else if |rest| < 8 || |rest| > 24 then NoId
      else
        var cookie := FromStrRadix(rest[|rest| - 8..], 16, U32);
        var offset := FromStrRadix(rest[..|rest| - 8], 16, U64);
        if cookie.None? || offset.None? then Panicked
        else Id(IndexID(stack.value, offset.value, cookie.value))
  }

  lemma {:induction false} FindAfter(a: Text, c: byte, b: Text)
    requires c !in a
    ensures Find(a + [c] + b, c) == |a|
  {
    var s := a + [c] + b;
    if a != [] {
      assert s[1..] == a[1..] + [c] + b;
      assert a[0] in a;
      FindAfter(a[1..], c, b);
    }
  }

  lemma CookieWidth(cookie: u32)
    ensures |PrintPadded(cookie, 16, 8)| == 8
  {
    HexWidths();
    HexLength(cookie, 8);
  }

  /** The length window of the parser, 8 to 24, admits every printed id with room at the low end. */
  lemma RecordIdWidth(offset: u64, cookie: u32)
    ensures 9 <= |RecordId(offset, cookie)| <= 24
  {
    HexWidths();
    HexLength(offset, 16);
    CookieWidth(cookie);
  }

  lemma NoComma(n: nat)
    ensures COMMA !in Print(n, 10)
  {
    PrintDigits(n, 10);
    assert !IsDigit(COMMA, 10);
  }

  lemma PrintParse(id: IndexID)
    ensures ParseId(PrintId(id)) == Id(id)
  {
    var stack, rest := Print(id.stackId, 10), RecordId(id.offsetData, id.cookie);
    NoComma(id.stackId);
    FindAfter(stack, COMMA, rest);
    RecordIdWidth(id.offsetData, id.cookie);
    CookieWidth(id.cookie);
    PrintReads(id.stackId, 10, U64);
    PrintReads(id.offsetData, 16, U64);
    PaddedReads(id.cookie, 16, 8, U32);
    assert PrintId(id)[..|stack|] == stack && PrintId(id)[|stack| + 1..] == rest;
    assert rest[..|rest| - 8] == Print(id.offsetData, 16);
    assert rest[|rest| - 8..] == PrintPadded(id.cookie, 16, 8);
  }

  lemma PrintInjective(a: IndexID, b: IndexID)
    ensures PrintId(a) == PrintId(b) <==> a == b
  {
    PrintParse(a);
    PrintParse(b);
  }

  /** The shape of a printed id: plain digits around one comma, cookie padded, the rest not. */
  predicate CanonicalId(s: Text) {
    var comma := Find(s, COMMA);
    && comma < |s|
    && Canonical(s[..comma], 10)
    && var rest := s[comma + 1..];
       && |rest| >= 9
       && Canonical(rest[..|rest| - 8], 16)
       && AllPlain(rest[|rest| - 8..], 16)
  }

  lemma CanonicalReads(s: Text, b: Base, limit: nat)
    requires AllPlain(s, b) && FromStrRadix(s, b, limit).Some?
    ensures s != [] && FromStrRadix(s, b, limit) == Number(s, b)
  {
    assert s == [] || IsPlain(s[0], b);
  }

  lemma PartsReprint(stack: Text, offset: Text, cookie: Text, id: IndexID)
    requires Canonical(stack, 10) && FromStrRadix(stack, 10, U64) == Some(id.stackId)
    requires Canonical(offset, 16) && FromStrRadix(offset, 16, U64) == Some(id.offsetData)
    requires AllPlain(cookie, 16) && |cookie| == 8 && FromStrRadix(cookie, 16, U32) == Some(id.cookie)
    ensures PrintId(id) == stack + [COMMA] + (offset + cookie)
  {
    CanonicalReads(stack, 10, U64);
    PrintOfNumber(stack, 10);
    CanonicalReads(offset, 16, U64);
    PrintOfNumber(offset, 16);
    CanonicalReads(cookie, 16, U32);
    PaddedOfNumber(cookie, 16);
  }

  lemma Rejoined(s: Text, comma: nat)
    requires comma < |s| && s[comma] == COMMA && |s| - comma - 1 >= 8
    ensures var rest := s[comma + 1..];
      s[..comma] + [COMMA] + (rest[..|rest| - 8] + rest[|rest| - 8..]) == s
  {
  }

  lemma CanonicalReprints(s: Text)
    requires ParseId(s).Id? && CanonicalId(s)
    ensures PrintId(ParseId(s).id) == s
  {
    hide Find, FromStrRadix, Canonical, AllPlain, PrintId;
    var comma := Find(s, COMMA);
    var rest := s[comma + 1..];
    PartsReprint(s[..comma], rest[..|rest| - 8], rest[|rest| - 8..], ParseId(s).id);
    Rejoined(s, comma);
  }

  /**
   * The parser also reads signs, capitals and leading zeros, so printing what was parsed gives
   * the text back exactly when the text was canonical.
   */
  lemma ParsePrint(s: Text)
    requires ParseId(s).Id?
    ensures PrintId(ParseId(s).id) == s <==> CanonicalId(s)
  {
    if CanonicalId(s) {
      CanonicalReprints(s);
    }
    PrintedIsCanonical(ParseId(s).id);
  }

  lemma CookiePlain(cookie: u32)
    ensures AllPlain(PrintPadded(cookie, 16, 8), 16)
  {
    hide Print;
    PrintCanonical(cookie, 16);
  }

  lemma PrintedIsCanonical(id: IndexID)
    ensures CanonicalId(PrintId(id))
  {
    hide Print, PrintPadded, Find, Canonical, AllPlain;
    var stack, rest := Print(id.stackId, 10), RecordId(id.offsetData, id.cookie);
    NoComma(id.stackId);
    FindAfter(stack, COMMA, rest);
    CookieWidth(id.cookie);
    PrintCanonical(id.stackId, 10);
    PrintCanonical(id.offsetData, 16);
    CookiePlain(id.cookie);
    assert PrintId(id)[..|stack|] == stack && PrintId(id)[|stack| + 1..] == rest;
    assert rest[..|rest| - 8] == Print(id.offsetData, 16);
    assert rest[|rest| - 8..] == PrintPadded(id.cookie, 16, 8);
  }

  predicate Reads(s: Text, b: Base, limit: nat) {
    FromStrRadix(s, b, limit).Some?
  }

  /** What becomes of any text, by its pieces: it is no id, or a number in it panics, or it reads. */
  lemma ParseTable(stack: Text, offset: Text, cookie: Text)
    requires COMMA !in stack && (|cookie| == 8 || (|cookie| < 8 && offset == []))
    ensures
      var s, width := stack + [COMMA] + (offset + cookie), |offset| + |cookie|;
      && (ParseId(s).NoId? <==> Reads(stack, 10, U64) && !(8 <= width <= 24))
      && (forall id ::
            ParseId(s) == Id(id) <==>
            8 <= width <= 24 && FromStrRadix(stack, 10, U64) == Some(id.stackId)
            && FromStrRadix(offset, 16, U64) == Some(id.offsetData) && FromStrRadix(cookie, 16, U32) == Some(id.cookie))
  {
    hide FromStrRadix, Find;
    var rest := offset + cookie;
    var s := stack + [COMMA] + rest;
    FindAfter(stack, COMMA, rest);
    assert s[..|stack|] == stack && s[|stack| + 1..] == rest;
    if |cookie| == 8 {
      assert rest[|rest| - 8..] == cookie && rest[..|rest| - 8] == offset;
    }
  }

  /** Every text without a comma is no id; every other text is of the form of ParseTable. */
  lemma ParsePieces(s: Text) returns (stack: Text, offset: Text, cookie: Text)
    ensures COMMA !in s ==> ParseId(s).NoId?
    ensures COMMA in s ==> COMMA !in stack && (|cookie| == 8 || (|cookie| < 8 && offset == []))
    ensures COMMA in s ==> s == stack + [COMMA] + (offset + cookie)
  {
    hide FromStrRadix;
    var comma := Find(s, COMMA);
    stack, offset, cookie := [], [], [];
    if comma < |s| {
      var rest := s[comma + 1..];
      var cut := if |rest| < 8 then 0 else |rest| - 8;
      stack, offset, cookie := s[..comma], rest[..cut], rest[cut..];
      assert offset + cookie == rest && s == stack + [COMMA] + rest;
    } else {
      assert s[..comma] == s;
    }
  }
}
