/**
 * The JSON lines of the meta file: what serde_json, encoding/json and json.dumps print for a
 * header or a record, and a reader of such objects that takes fields in any order.
 */
module MetaJson {
  import opened Bytes
  import opened Digits

  const META_MAGIC := 1314920
  const NEWLINE: byte := 10
  const QUOTE: byte := 34
  const COMMA: byte := 44
  const COLON: byte := 58
  const LBRACKET: byte := 91
  const BACKSLASH: byte := 92
  const RBRACKET: byte := 93
  const LBRACE: byte := 123
  const RBRACE: byte := 125

  datatype MetaRecord = MetaRecord(
    createTime: u64, offsetData: u64, sizeData: u32, cookie: u32, filename: Text, extra: seq<byte>)

  datatype Value = Num(n: nat) | Str(s: Text) | Arr(bs: seq<byte>)

  datatype Member = Member(key: Text, value: Value)

  // ---- printing ----

  /** One byte of a string: quote, backslash and control characters are escaped. */
  function Escape(b: byte): (t: Text)
    ensures t != []
  {
    if b == QUOTE || b == BACKSLASH then [BACKSLASH, b]
    else if b == 8 then [BACKSLASH, 98]
    else if b == 9 then [BACKSLASH, 116]
    else if b == 10 then [BACKSLASH, 110]
    else if b == 12 then [BACKSLASH, 102]
    else if b == 13 then [BACKSLASH, 114]
    else if b < 32 then [BACKSLASH, 117, 48, 48, Digit(b as nat / 16), Digit(b as nat % 16)]
    else [b]
  }

  function EscapeAll(s: Text): (t: Text)
  {
    if s == [] then [] else Escape(s[0]) + EscapeAll(s[1..])
  }

  function PrintString(s: Text): (t: Text)
    ensures t != [] && t[0] == QUOTE
  {
    [QUOTE] + (EscapeAll(s) + [QUOTE])
  }

  function PrintNumber(n: nat): (t: Text)
    ensures t != [] && IsDigit(t[0], 10)
  {
    PrintDigits(n, 10);
    Print(n, 10)
  }

  function PrintElements(ns: seq<byte>): (t: Text)
    requires ns != []
    ensures t != [] && IsDigit(t[0], 10)
  {
    if |ns| == 1 then PrintNumber(ns[0] as nat)
    else PrintNumber(ns[0] as nat) + ([COMMA] + PrintElements(ns[1..]))
  }

  function PrintArray(ns: seq<byte>): (t: Text)
    ensures t != [] && t[0] == LBRACKET
  {
    if ns == [] then [LBRACKET, RBRACKET] else [LBRACKET] + (PrintElements(ns) + [RBRACKET])
  }

  function PrintValue(v: Value): (t: Text)
    ensures t != [] && t[0] > 32
  {
    match v
    case Num(n) => PrintNumber(n)
    case Str(s) => PrintString(s)
    case Arr(ns) => PrintArray(ns)
  }

  /** One member with the text that follows it. */
  function PrintMember(m: Member, after: Text): (t: Text)
    ensures t != [] && t[0] == QUOTE
  {
    PrintString(m.key) + ([COLON] + (PrintValue(m.value) + after))
  }

  /** The members and the closing brace. */
  function PrintMembers(ms: seq<Member>): (t: Text)
    requires ms != []
    ensures t != [] && t[0] == QUOTE
  {
    PrintMember(ms[0], if |ms| == 1 then [RBRACE] else [COMMA] + PrintMembers(ms[1..]))
  }

  function PrintObject(ms: seq<Member>): (t: Text)
    ensures t != []
  {
    if ms == [] then [LBRACE, RBRACE] else [LBRACE] + PrintMembers(ms)
  }

  /** The fields of a record in the order all writers print them. */
  function Members(m: MetaRecord): seq<Member> {
    [ Member(Ascii("create_time"), Num(m.createTime)),
      Member(Ascii("offset_data"), Num(m.offsetData)),
      Member(Ascii("size_data"), Num(m.sizeData)),
      Member(Ascii("cookie"), Num(m.cookie)),
      Member(Ascii("filename"), Str(m.filename)),
      Member(Ascii("extra"), Arr(m.extra)) ]
  }

  /** A record as written: one object and a newline. */
  function RecordLine(m: MetaRecord): (t: Text)
    ensures t != [] && t[|t| - 1] == NEWLINE
  {
    PrintObject(Members(m)) + [NEWLINE]
  }

  function HeaderMembers(stackId: u64): seq<Member> {
    [ Member(Ascii("meta_magic_number"), Num(META_MAGIC)), Member(Ascii("stack_id"), Num(stackId)) ]
  }

  function HeaderLine(stackId: u64): (t: Text)
    ensures t != [] && t[|t| - 1] == NEWLINE
  {
    PrintObject(HeaderMembers(stackId)) + [NEWLINE]
  }

  // ---- reading ----

  datatype Parse<+T> = Fail | Done(value: T, rest: Text)

  predicate IsSpace(b: byte) {
    b == 32 || b == 9 || b == 10 || b == 13
  }

  function SkipSpace(s: Text): (r: Text)
    ensures |r| <= |s|
  {
    if s != [] && IsSpace(s[0]) then SkipSpace(s[1..]) else s
  }

  function DigitRun(s: Text): (k: nat)
    ensures k <= |s| && AllDigits(s[..k], 10)
    ensures s != [] && IsDigit(s[0], 10) ==> k > 0
  {
    if s == [] || !IsDigit(s[0], 10) then 0 else
      var k := DigitRun(s[1..]);
      assert s[..k + 1] == [s[0]] + s[1..][..k];
      k + 1
  }

  /** An unsigned integer: no leading zero, no fraction, no exponent. */
  function ParseNumber(s: Text): (p: Parse<nat>)
    ensures p.Done? ==> |p.rest| < |s|
  {
    var k := DigitRun(s);
    var n := Number(s[..k], 10);
    if k == 0 || n.None? || (k > 1 && s[0] == 48) then Fail
    else if k < |s| && s[k] in [46, 69, 101] then Fail
    else Done(n.value, s[k..])
  }

  function Hex4(s: Text): Option<nat>
    requires |s| == 4
  {
    Number(s, 16)
  }

  /** UTF-8 of a code point of the basic plane that is no surrogate. */
  function Utf8(code: nat): Option<Text> {
    if code < 0x80 then Some([code as byte])
    else if code < 0x800 then Some([(192 + code / 64) as byte, (128 + code % 64) as byte])
    else if code >= 0x10000 || 0xD800 <= code < 0xE000 then None
    else Some([(224 + code / 4096) as byte, (128 + code / 64 % 64) as byte, (128 + code % 64) as byte])
  }

  function Unescape(c: byte): Option<byte> {
    if c == QUOTE || c == BACKSLASH || c == 47 then Some(c)
    else if c == 98 then Some(8)
    else if c == 116 then Some(9)
    else if c == 110 then Some(10)
    else if c == 102 then Some(12)
    else if c == 114 then Some(13)
    else None
  }

  function Prepend(t: Text, p: Parse<Text>): (q: Parse<Text>)
    ensures q.Done? <==> p.Done?
    ensures q.Done? ==> q.rest == p.rest && q.value == t + p.value
  {
    if p.Fail? then Fail else Done(t + p.value, p.rest)
  }

  /** A string after its opening quote. */
  function ParseBody(s: Text): (p: Parse<Text>)
    ensures p.Done? ==> |p.rest| < |s|
  {
    if s == [] || s[0] < 32 then Fail
    else if s[0] == QUOTE then Done([], s[1..])
    else if s[0] != BACKSLASH then Prepend([s[0]], ParseBody(s[1..]))
    else if |s| >= 6 && s[1] == 117 then
      var code := Hex4(s[2..6]);
      if code.None? || Utf8(code.value).None? then Fail
      else Prepend(Utf8(code.value).value, ParseBody(s[6..]))
    else if |s| >= 2 && Unescape(s[1]).Some? then
      Prepend([Unescape(s[1]).value], ParseBody(s[2..]))
    else Fail
  }

  function ParseString(s: Text): (p: Parse<Text>)
    ensures p.Done? ==> |p.rest| < |s|
  {
    if s == [] || s[0] != QUOTE then Fail else ParseBody(s[1..])
  }

  function ParseElements(s: Text): (p: Parse<seq<byte>>)
    ensures p.Done? ==> |p.rest| < |s|
    decreases |s|
  {
    var n := ParseNumber(SkipSpace(s));
    if n.Fail? || n.value >= 256 then Fail else
      var t := SkipSpace(n.rest);
      if t == [] then Fail
      else if t[0] == RBRACKET then Done([n.value as byte], t[1..])
      else if t[0] != COMMA then Fail
      else
        var more := ParseElements(t[1..]);
        if more.Fail? then Fail else Done([n.value as byte] + more.value, more.rest)
  }

  function ParseArray(s: Text): (p: Parse<seq<byte>>)
    ensures p.Done? ==> |p.rest| < |s|
  {
    if s == [] || s[0] != LBRACKET then Fail else
      var t := SkipSpace(s[1..]);
      if t != [] && t[0] == RBRACKET then Done([], t[1..]) else ParseElements(t)
  }

  function ParseValue(s: Text): (p: Parse<Value>)
    ensures p.Done? ==> |p.rest| < |s|
  {
    if s == [] then Fail
    else if s[0] == QUOTE then
      var p := ParseString(s);
      if p.Fail? then Fail else Done(Str(p.value), p.rest)
    else if s[0] == LBRACKET then
      var p := ParseArray(s);
      if p.Fail? then Fail else Done(Arr(p.value), p.rest)
    else
      var p := ParseNumber(s);
      if p.Fail? then Fail else Done(Num(p.value), p.rest)
  }

  /** One member and what follows it. */
  function ParseMember(s: Text): (p: Parse<Member>)
    ensures p.Done? ==> |p.rest| < |s|
  {
    var key := ParseString(SkipSpace(s));
    if key.Fail? then Fail else
      var t := SkipSpace(key.rest);
      if t == [] || t[0] != COLON then Fail else
        var v := ParseValue(SkipSpace(t[1..]));
        if v.Fail? then Fail else Done(Member(key.value, v.value), v.rest)
  }

  function ParseMembers(s: Text): (p: Parse<seq<Member>>)
    ensures p.Done? ==> |p.rest| < |s|
    decreases |s|
  {
    var m := ParseMember(s);
    if m.Fail? then Fail else
      var t := SkipSpace(m.rest);
      if t == [] then Fail
      else if t[0] == RBRACE then Done([m.value], t[1..])
      else if t[0] != COMMA then Fail
      else
        var more := ParseMembers(t[1..]);
        if more.Fail? then Fail else Done([m.value] + more.value, more.rest)
  }

  /** A whole text holding one object and nothing else but space. */
  function ParseObject(s: Text): Option<seq<Member>> {
    var t := SkipSpace(s);
    if t == [] || t[0] != LBRACE then None else
      var u := SkipSpace(t[1..]);
      var p := if u != [] && u[0] == RBRACE then Done([], u[1..]) else ParseMembers(u);
      if p.Fail? || SkipSpace(p.rest) != [] then None else Some(p.value)
  }

  /** The value of a field that occurs exactly once. */
  function Field(ms: seq<Member>, key: Text): Option<Value> {
    if ms == [] then None
    else if ms[0].key != key then Field(ms[1..], key)
    else if exists i :: 0 < i < |ms| && ms[i].key == key then None
    else Some(ms[0].value)
  }

  function NumField(ms: seq<Member>, key: Text, limit: nat): Option<nat> {
    match Field(ms, key)
    case Some(Num(n)) => if n < limit then Some(n) else None
    case _ => None
  }

  /** Every field present once, in range and of the right type; others are ignored. */
  function FromMembers(ms: seq<Member>): Option<MetaRecord> {
    var time, offset := NumField(ms, Ascii("create_time"), U64), NumField(ms, Ascii("offset_data"), U64);
    var size, cookie := NumField(ms, Ascii("size_data"), U32), NumField(ms, Ascii("cookie"), U32);
    var name, extra := Field(ms, Ascii("filename")), Field(ms, Ascii("extra"));
    if time.None? || offset.None? || size.None? || cookie.None? || name.None? || extra.None? then None
    else if !name.value.Str? || !extra.value.Arr? then None
    else Some(MetaRecord(time.value, offset.value, size.value, cookie.value, name.value.s, extra.value.bs))
  }

  /** serde_json::from_slice::<MetaRecord>. */
  function ParseRecord(s: Text): Option<MetaRecord> {
    match ParseObject(s)
    case Some(ms) => FromMembers(ms)
    case None => None
  }
}
