/**
 * The texts the reader takes for a meta record, exactly: a grammar of JSON objects after RFC 8259,
 * with white space wherever that allows it, and what each text means.
 */
module MetaGrammar {
  import opened Bytes
  import opened Digits
  import opened MetaJson
  import opened MetaRoundTrip

  // ---- white space ----

  /** Section 2 of RFC 8259: tab, line feed, carriage return, space. */
  const SPACES: set<byte> := {9, 10, 13, 32}

  predicate Gap(g: Text) {
    forall i :: 0 <= i < |g| ==> g[i] in SPACES
  }

  predicate Solid(t: Text) {
    t == [] || t[0] !in SPACES
  }

  lemma {:induction false} GapSkipped(g: Text, t: Text)
    requires Gap(g) && Solid(t)
    ensures SkipSpace(g + t) == t
  {
    if g == [] {
      assert g + t == t;
    } else {
      assert (g + t)[1..] == g[1..] + t;
      GapSkipped(g[1..], t);
    }
  }

  lemma {:induction false} GapIn(s: Text) returns (g: Text)
    ensures Gap(g) && s == g + SkipSpace(s) && Solid(SkipSpace(s))
  {
    if s != [] && IsSpace(s[0]) {
      var more := GapIn(s[1..]);
      g := [s[0]] + more;
      Assoc([s[0]], more, SkipSpace(s[1..]));
      assert s == [s[0]] + s[1..];
    } else {
      g := [];
      assert s == [] + s;
    }
  }

  lemma SkipTwice(s: Text)
    ensures SkipSpace(SkipSpace(s)) == SkipSpace(s)
  {
    var g := GapIn(s);
    GapSkipped([], SkipSpace(s));
    assert [] + SkipSpace(s) == SkipSpace(s);
  }

  // ---- numbers ----

  lemma NumberWritten(s: Text)
    requires ParseNumber(s).Done?
    ensures s == PrintNumber(ParseNumber(s).value) + ParseNumber(s).rest
  {
    var d := s[..DigitRun(s)];
    assert Canonical(d, 10) by {
      forall i | 0 <= i < |d|
        ensures IsPlain(d[i], 10)
      {
        assert IsDigit(d[i], 10);
      }
    }
    PrintOfNumber(d, 10);
  }

  // ---- strings ----

  /** One character of a string: itself, a short escape, or four hexadecimal digits. */
  datatype Piece = Plain(b: byte) | Short(c: byte, b: byte) | Hex(digits: Text, bytes: Text)

  /** Section 7 of RFC 8259: quote, backslash, slash, b, f, n, r, t. */
  const SHORT: set<(byte, byte)> :=
    {(34, 34), (92, 92), (47, 47), (98, 8), (102, 12), (110, 10), (114, 13), (116, 9)}

  /** The code point of one character up to U+FFFF, after section 3 of RFC 3629. */
  function CodePoint(t: Text): Option<nat> {
    if |t| == 1 && t[0] < 0x80 then Some(t[0] as nat)
    else if |t| == 2 && 0xC2 <= t[0] < 0xE0 && IsTail(t[1]) then
      Some(64 * (t[0] as nat - 0xC0) + (t[1] as nat - 0x80))
    else if |t| == 3 && 0xE0 <= t[0] < 0xF0 && IsTail(t[1]) && IsTail(t[2]) then
      var code := 4096 * (t[0] as nat - 0xE0) + 64 * (t[1] as nat - 0x80) + (t[2] as nat - 0x80);
      if code < 0x800 || 0xD800 <= code < 0xE000 then None else Some(code)
    else None
  }

  predicate IsTail(b: byte) {
    0x80 <= b < 0xC0
  }

  lemma SixBits(a: nat, b: nat, c: nat)
    requires b < 64 && c < 64
    ensures
      var code := 4096 * a + 64 * b + c;
      code / 4096 == a && code / 64 == 64 * a + b && (64 * a + b) % 64 == b && code % 64 == c
  {
  }

  lemma CodePointEncodes(t: Text)
    requires CodePoint(t).Some?
    ensures Utf8(CodePoint(t).value).Some? && Utf8(CodePoint(t).value).value == t
  {
    var u := Utf8(CodePoint(t).value);
    if |t| == 2 {
      SixBits(0, t[0] as nat - 0xC0, t[1] as nat - 0x80);
    } else if |t| == 3 {
      SixBits(t[0] as nat - 0xE0, t[1] as nat - 0x80, t[2] as nat - 0x80);
      assert |u.value| == 3 && u.value[0] == t[0] && u.value[1] == t[1] && u.value[2] == t[2];
    }
  }

  lemma Utf8Decodes(code: nat)
    ensures Utf8(code) == None <==> 0xD800 <= code < 0xE000 || code > 0xFFFF
    ensures Utf8(code).Some? ==> CodePoint(Utf8(code).value) == Some(code)
  {
  }

  /** Utf8 writes the one text of a code point; surrogates and what is beyond U+FFFF have none. */
  lemma Utf8Exact(code: nat, t: Text)
    ensures Utf8(code) == Some(t) <==> CodePoint(t) == Some(code)
    ensures Utf8(code) == None <==> 0xD800 <= code < 0xE000 || code > 0xFFFF
  {
    hide Utf8, CodePoint;
    Utf8Decodes(code);
    if CodePoint(t) == Some(code) {
      CodePointEncodes(t);
    }
  }

  predicate RightPiece(p: Piece) {
    match p
    case Plain(b) => b >= 32 && b != QUOTE && b != BACKSLASH
    case Short(c, b) => (c, b) in SHORT
    case Hex(h, t) => |h| == 4 && AllDigits(h, 16) && CodePoint(t).Some? && Number(h, 16) == CodePoint(t)
  }

  function PieceText(p: Piece): Text {
    match p
    case Plain(b) => [b]
    case Short(c, _) => [BACKSLASH, c]
    case Hex(h, _) => [BACKSLASH, 117] + h
  }

  function PieceValue(p: Piece): Text {
    match p
    case Plain(b) => [b]
    case Short(_, b) => [b]
    case Hex(_, t) => t
  }

  predicate RightPieces(ps: seq<Piece>) {
    forall i :: 0 <= i < |ps| ==> RightPiece(ps[i])
  }

  /** The pieces and the closing quote. */
  function PiecesText(ps: seq<Piece>): Text {
    if ps == [] then [QUOTE] else PieceText(ps[0]) + PiecesText(ps[1..])
  }

  function PiecesValue(ps: seq<Piece>): Text {
    if ps == [] then [] else PieceValue(ps[0]) + PiecesValue(ps[1..])
  }

  lemma ShortReads(c: byte, b: byte)
    ensures Unescape(c) == Some(b) <==> (c, b) in SHORT
    ensures Unescape(117) == None
  {
  }

  lemma PieceReads(p: Piece, rest: Text)
    requires RightPiece(p)
    ensures ParseBody(PieceText(p) + rest) == Prepend(PieceValue(p), ParseBody(rest))
  {
    hide Number, CodePoint, Utf8, Unescape;
    var s := PieceText(p) + rest;
    assert s[|PieceText(p)|..] == rest;
    match p
    case Plain(b) =>
    case Short(c, b) => ShortReads(c, b);
    case Hex(h, t) =>
      assert s[2..6] == h;
      Utf8Exact(CodePoint(t).value, t);
  }

  lemma {:induction false} BodyReads(ps: seq<Piece>, rest: Text)
    requires RightPieces(ps)
    ensures ParseBody(PiecesText(ps) + rest) == Done(PiecesValue(ps), rest)
  {
    hide RightPiece, PieceText, PieceValue;
    if ps == [] {
      First(QUOTE, rest);
    } else {
      hide ParseBody;
      BodyReads(ps[1..], rest);
      Assoc(PieceText(ps[0]), PiecesText(ps[1..]), rest);
      PieceReads(ps[0], PiecesText(ps[1..]) + rest);
    }
  }

  /** The first piece of a string that reads. */
  lemma PieceIn(s: Text) returns (p: Piece)
    requires ParseBody(s).Done? && s[0] != QUOTE
    ensures RightPiece(p) && |PieceText(p)| <= |s| && s == PieceText(p) + s[|PieceText(p)|..]
    ensures |PieceText(p)| > 0
    ensures ParseBody(s) == Prepend(PieceValue(p), ParseBody(s[|PieceText(p)|..]))
  {
    hide Utf8, Unescape, CodePoint;
    if s[0] != BACKSLASH {
      p := Plain(s[0]);
    } else if |s| >= 6 && s[1] == 117 {
      var code := Hex4(s[2..6]).value;
      Utf8Exact(code, Utf8(code).value);
      NumberDigits(s[2..6], 16);
      p := Hex(s[2..6], Utf8(code).value);
      assert PieceText(p) == s[..6];
    } else {
      p := Short(s[1], Unescape(s[1]).value);
      ShortReads(s[1], p.b);
      ShortReads(117, 117);
      assert PieceText(p) == s[..2];
    }
  }

  lemma {:induction false} BodyIn(s: Text) returns (ps: seq<Piece>)
    requires ParseBody(s).Done?
    ensures RightPieces(ps) && s == PiecesText(ps) + ParseBody(s).rest
    ensures PiecesValue(ps) == ParseBody(s).value
  {
    hide RightPiece, PieceText, PieceValue;
    assert s != [];
    if s[0] == QUOTE {
      ps := [];
    } else {
      hide ParseBody;
      var p := PieceIn(s);
      var rest := s[|PieceText(p)|..];
      var more := BodyIn(rest);
      ps := [p] + more;
      assert ps[1..] == more;
      Assoc(PieceText(p), PiecesText(more), ParseBody(rest).rest);
    }
  }

  function QuotedText(ps: seq<Piece>): Text {
    [QUOTE] + PiecesText(ps)
  }

  lemma StringReads(ps: seq<Piece>, rest: Text)
    requires RightPieces(ps)
    ensures ParseString(QuotedText(ps) + rest) == Done(PiecesValue(ps), rest)
  {
    hide ParseBody, PiecesText, PiecesValue, RightPieces;
    BodyReads(ps, rest);
    Assoc([QUOTE], PiecesText(ps), rest);
    First(QUOTE, PiecesText(ps) + rest);
  }

  lemma StringIn(s: Text) returns (ps: seq<Piece>)
    requires ParseString(s).Done?
    ensures RightPieces(ps) && s == QuotedText(ps) + ParseString(s).rest
    ensures PiecesValue(ps) == ParseString(s).value
  {
    hide ParseBody, PiecesText, PiecesValue, RightPieces;
    ps := BodyIn(s[1..]);
    assert s == [QUOTE] + s[1..];
    Assoc([QUOTE], PiecesText(ps), ParseString(s).rest);
  }

  // ---- arrays and values ----

  datatype Element = Element(before: Text, n: byte, after: Text)

  datatype Written = NumText(n: nat) | StrText(ps: seq<Piece>) | ArrText(gap: Text, es: seq<Element>)

  predicate RightElement(e: Element) {
    Gap(e.before) && Gap(e.after)
  }

  predicate RightElements(es: seq<Element>) {
    forall i :: 0 <= i < |es| ==> RightElement(es[i])
  }

  function ElementText(e: Element): Text {
    e.before + (PrintNumber(e.n as nat) + e.after)
  }

  /** The elements, with commas between them, and the closing bracket. */
  function ElementsText(es: seq<Element>): Text
    requires es != []
  {
    ElementText(es[0]) + if |es| == 1 then [RBRACKET] else [COMMA] + ElementsText(es[1..])
  }

  function Numbers(es: seq<Element>): seq<byte> {
    if es == [] then [] else [es[0].n] + Numbers(es[1..])
  }

  lemma Stopping(g: Text, t: Text)
    requires Gap(g) && t != [] && t[0] in [COMMA, RBRACKET, RBRACE]
    ensures Stops(g + t) && Solid(t)
  {
    if g != [] {
      assert g[0] in SPACES;
    }
  }

  lemma NumberSolid(n: nat, rest: Text)
    ensures Solid(PrintNumber(n) + rest)
  {
    assert IsDigit(PrintNumber(n)[0], 10);
  }

  lemma ElementReads(e: Element, t: Text)
    requires RightElement(e) && t != [] && t[0] in [COMMA, RBRACKET]
    ensures ParseNumber(SkipSpace(ElementText(e) + t)) == Done(e.n as nat, e.after + t)
    ensures SkipSpace(e.after + t) == t
  {
    hide SkipSpace, ParseNumber, PrintNumber, Gap;
    var n := PrintNumber(e.n as nat);
    assert ElementText(e) + t == e.before + (n + (e.after + t));
    NumberSolid(e.n as nat, e.after + t);
    GapSkipped(e.before, n + (e.after + t));
    Stopping(e.after, t);
    NumberRoundTrip(e.n as nat, e.after + t);
    GapSkipped(e.after, t);
  }

  lemma {:induction false} ElementsRead(es: seq<Element>, rest: Text)
    requires es != [] && RightElements(es)
    ensures ParseElements(ElementsText(es) + rest) == Done(Numbers(es), rest)
  {
    hide SkipSpace, ParseNumber, ElementText, RightElement;
    var e := es[0];
    var t := (if |es| == 1 then [RBRACKET] else [COMMA] + ElementsText(es[1..])) + rest;
    Assoc(ElementText(e), if |es| == 1 then [RBRACKET] else [COMMA] + ElementsText(es[1..]), rest);
    assert t[0] in [COMMA, RBRACKET];
    ElementReads(e, t);
    if |es| == 1 {
      assert t[1..] == rest && Numbers(es) == [e.n];
    } else {
      ElementsRead(es[1..], rest);
      assert t[1..] == ElementsText(es[1..]) + rest;
    }
  }

  lemma ElementIn(s: Text) returns (e: Element)
    requires ParseNumber(SkipSpace(s)).Done? && ParseNumber(SkipSpace(s)).value < 256
    ensures
      var n := ParseNumber(SkipSpace(s));
      RightElement(e) && e.n as nat == n.value && s == ElementText(e) + SkipSpace(n.rest)
  {
    hide SkipSpace, ParseNumber, PrintNumber, Gap;
    var n := ParseNumber(SkipSpace(s));
    var before := GapIn(s);
    var after := GapIn(n.rest);
    NumberWritten(SkipSpace(s));
    e := Element(before, n.value as byte, after);
    var p, t := PrintNumber(n.value), SkipSpace(n.rest);
    assert before + (p + (after + t)) == (before + (p + after)) + t;
  }

  lemma {:induction false} ElementsIn(s: Text) returns (es: seq<Element>)
    requires ParseElements(s).Done?
    ensures es != [] && RightElements(es) && s == ElementsText(es) + ParseElements(s).rest
    ensures Numbers(es) == ParseElements(s).value
    decreases |s|
  {
    hide SkipSpace, ParseNumber, ElementText, RightElement;
    var n := ParseNumber(SkipSpace(s));
    var t := SkipSpace(n.rest);
    var e := ElementIn(s);
    if t[0] == RBRACKET {
      es := [e];
      assert t == [RBRACKET] + t[1..];
      Assoc(ElementText(e), [RBRACKET], t[1..]);
      assert Numbers(es) == [e.n];
    } else {
      var more := ElementsIn(t[1..]);
      es := [e] + more;
      assert es[1..] == more;
      var rest := ParseElements(s).rest;
      assert t == [COMMA] + t[1..];
      Assoc([COMMA], ElementsText(more), rest);
      Assoc(ElementText(e), [COMMA] + ElementsText(more), rest);
    }
  }

  function WrittenText(v: Written): Text {
    match v
    case NumText(n) => PrintNumber(n)
    case StrText(ps) => QuotedText(ps)
    case ArrText(gap, es) => [LBRACKET] + if es == [] then gap + [RBRACKET] else ElementsText(es)
  }

  function Meant(v: Written): Value {
    match v
    case NumText(n) => Num(n)
    case StrText(ps) => Str(PiecesValue(ps))
    case ArrText(_, es) => Arr(Numbers(es))
  }

  predicate RightValue(v: Written) {
    match v
    case NumText(_) => true
    case StrText(ps) => RightPieces(ps)
    case ArrText(gap, es) => RightElements(es) && Gap(gap)
  }

  lemma ArrayReads(gap: Text, es: seq<Element>, rest: Text)
    requires RightElements(es) && Gap(gap)
    ensures ParseArray(WrittenText(ArrText(gap, es)) + rest) == Done(Numbers(es), rest)
  {
    hide SkipSpace, ParseElements, ElementsText, RightElements, Gap, Numbers;
    var inside := if es == [] then gap + [RBRACKET] else ElementsText(es);
    Assoc([LBRACKET], inside, rest);
    First(LBRACKET, inside + rest);
    if es == [] {
      Assoc(gap, [RBRACKET], rest);
      First(RBRACKET, rest);
      GapSkipped(gap, [RBRACKET] + rest);
      NoNumbers();
    } else {
      ElementsRead(es, rest);
      ElementsSkipped(inside + rest);
    }
  }

  lemma NoNumbers()
    ensures Numbers([]) == []
  {
  }

  /** Space in front of an element is skipped as part of it. */
  lemma ElementsSkipped(s: Text)
    requires ParseElements(s).Done?
    ensures SkipSpace(s) != [] && SkipSpace(s)[0] != RBRACKET
    ensures ParseElements(SkipSpace(s)) == ParseElements(s)
  {
    hide SkipSpace;
    SkipTwice(s);
  }

  lemma ArrayIn(s: Text) returns (gap: Text, es: seq<Element>)
    requires ParseArray(s).Done?
    ensures RightElements(es) && Gap(gap) && s == WrittenText(ArrText(gap, es)) + ParseArray(s).rest
    ensures Numbers(es) == ParseArray(s).value
  {
    hide SkipSpace, ParseElements, ElementsText, Gap, RightElement;
    var t := SkipSpace(s[1..]);
    var rest := ParseArray(s).rest;
    gap := GapIn(s[1..]);
    assert s == [LBRACKET] + s[1..];
    if t != [] && t[0] == RBRACKET {
      es := [];
      assert t == [RBRACKET] + rest;
      assert [LBRACKET] + (gap + ([RBRACKET] + rest)) == ([LBRACKET] + (gap + [RBRACKET])) + rest;
    } else {
      ElementsUnskipped(s[1..]);
      es := ElementsIn(s[1..]);
      Assoc([LBRACKET], ElementsText(es), rest);
    }
  }

  lemma ElementsUnskipped(s: Text)
    ensures ParseElements(SkipSpace(s)) == ParseElements(s)
  {
    hide SkipSpace;
    SkipTwice(s);
  }

  lemma ValueReads(v: Written, rest: Text)
    requires RightValue(v) && Stops(rest)
    ensures ParseValue(WrittenText(v) + rest) == Done(Meant(v), rest) && Solid(WrittenText(v) + rest)
  {
    hide ParseNumber, ParseString, ParseArray, PrintNumber, PiecesText, PiecesValue, ElementsText, Numbers, RightPieces;
    hide RightElements, Gap, Stops;
    match v
    case NumText(n) =>
      NumberRoundTrip(n, rest);
      NumberStarts(n, rest);
    case StrText(ps) =>
      StringReads(ps, rest);
    case ArrText(gap, es) =>
      ArrayReads(gap, es, rest);
  }

  lemma NumberStarts(n: nat, rest: Text)
    ensures var s := PrintNumber(n) + rest; s != [] && s[0] !in [QUOTE, LBRACKET] && Solid(s)
  {
    assert IsDigit(PrintNumber(n)[0], 10);
  }

  lemma ValueIn(s: Text) returns (v: Written)
    requires ParseValue(s).Done?
    ensures RightValue(v) && s == WrittenText(v) + ParseValue(s).rest && Meant(v) == ParseValue(s).value
  {
    hide ParseNumber, ParseString, ParseArray, PrintNumber, PiecesText, PiecesValue, ElementsText, Numbers, RightPieces;
    hide RightElements, Gap;
    if s[0] == QUOTE {
      var ps := StringIn(s);
      v := StrText(ps);
    } else if s[0] == LBRACKET {
      var gap, es := ArrayIn(s);
      v := ArrText(gap, es);
    } else {
      NumberWritten(s);
      v := NumText(ParseNumber(s).value);
    }
  }

  // ---- members and objects ----

  datatype WrittenMember =
    WrittenMember(before: Text, key: seq<Piece>, left: Text, right: Text, value: Written, after: Text)

  datatype WrittenObject = WrittenObject(before: Text, gap: Text, members: seq<WrittenMember>, after: Text)

  predicate RightMember(m: WrittenMember) {
    Gap(m.before) && RightPieces(m.key) && Gap(m.left) && Gap(m.right) && RightValue(m.value) && Gap(m.after)
  }

  predicate RightMembers(ms: seq<WrittenMember>) {
    forall i :: 0 <= i < |ms| ==> RightMember(ms[i])
  }

  function MemberText(m: WrittenMember): Text {
    m.before + (QuotedText(m.key) + (m.left + ([COLON] + (m.right + (WrittenText(m.value) + m.after)))))
  }

  function MemberMeant(m: WrittenMember): Member {
    Member(PiecesValue(m.key), Meant(m.value))
  }

  /** The members, with commas between them, and the closing brace. */
  function MembersText(ms: seq<WrittenMember>): Text
    requires ms != []
  {
    MemberText(ms[0]) + if |ms| == 1 then [RBRACE] else [COMMA] + MembersText(ms[1..])
  }

  function MembersMeant(ms: seq<WrittenMember>): seq<Member> {
    if ms == [] then [] else [MemberMeant(ms[0])] + MembersMeant(ms[1..])
  }

  lemma Regroup(a: Text, b: Text, c: Text, d: Text, e: Text, f: Text, g: Text, t: Text)
    ensures (a + (b + (c + (d + (e + (f + g)))))) + t == a + (b + (c + (d + (e + (f + (g + t))))))
  {
  }

  lemma MemberReads(m: WrittenMember, t: Text)
    requires RightMember(m) && t != [] && t[0] in [COMMA, RBRACE]
    ensures ParseMember(MemberText(m) + t) == Done(MemberMeant(m), m.after + t)
    ensures SkipSpace(m.after + t) == t
  {
    hide SkipSpace, ParseString, ParseValue, WrittenText, Meant, PiecesText, PiecesValue, RightPieces, RightValue, Gap;
    hide Stops;
    var value := WrittenText(m.value) + (m.after + t);
    var right := m.right + value;
    var left := m.left + ([COLON] + right);
    Regroup(m.before, QuotedText(m.key), m.left, [COLON], m.right, WrittenText(m.value), m.after, t);
    assert MemberText(m) + t == m.before + (QuotedText(m.key) + left);
    Stopping(m.after, t);
    GapSkipped(m.after, t);
    ValueReads(m.value, m.after + t);
    GapSkipped(m.right, value);
    First(COLON, right);
    GapSkipped(m.left, [COLON] + right);
    StringReads(m.key, left);
    GapSkipped(m.before, QuotedText(m.key) + left);
  }

  lemma {:induction false} MembersRead(ms: seq<WrittenMember>, rest: Text)
    requires ms != [] && RightMembers(ms)
    ensures ParseMembers(MembersText(ms) + rest) == Done(MembersMeant(ms), rest)
  {
    hide SkipSpace, ParseMember, MemberText, RightMember, MemberMeant;
    var m := ms[0];
    var t := (if |ms| == 1 then [RBRACE] else [COMMA] + MembersText(ms[1..])) + rest;
    Assoc(MemberText(m), if |ms| == 1 then [RBRACE] else [COMMA] + MembersText(ms[1..]), rest);
    assert t[0] in [COMMA, RBRACE];
    MemberReads(m, t);
    if |ms| == 1 {
      assert t[1..] == rest && MembersMeant(ms) == [MemberMeant(m)];
    } else {
      MembersRead(ms[1..], rest);
      assert t[1..] == MembersText(ms[1..]) + rest;
    }
  }

  lemma MemberIn(s: Text) returns (m: WrittenMember)
    requires ParseMember(s).Done?
    ensures RightMember(m) && MemberMeant(m) == ParseMember(s).value
    ensures s == MemberText(m) + SkipSpace(ParseMember(s).rest)
  {
    hide SkipSpace, ParseString, ParseValue, WrittenText, Meant, PiecesText, PiecesValue, RightPieces, RightValue, Gap;
    var key := ParseString(SkipSpace(s));
    var t := SkipSpace(key.rest);
    var v := ParseValue(SkipSpace(t[1..]));
    var before := GapIn(s);
    var ps := StringIn(SkipSpace(s));
    var left := GapIn(key.rest);
    var right := GapIn(t[1..]);
    var value := ValueIn(SkipSpace(t[1..]));
    var after := GapIn(v.rest);
    assert t == [COLON] + t[1..];
    m := WrittenMember(before, ps, left, right, value, after);
    Regroup(before, QuotedText(ps), left, [COLON], right, WrittenText(value), after, SkipSpace(v.rest));
  }

  lemma {:induction false} MembersIn(s: Text) returns (ms: seq<WrittenMember>)
    requires ParseMembers(s).Done?
    ensures ms != [] && RightMembers(ms) && s == MembersText(ms) + ParseMembers(s).rest
    ensures MembersMeant(ms) == ParseMembers(s).value
    decreases |s|
  {
    hide SkipSpace, ParseMember, MemberText, RightMember, MemberMeant;
    var t := SkipSpace(ParseMember(s).rest);
    var m := MemberIn(s);
    if t[0] == RBRACE {
      ms := [m];
      assert t == [RBRACE] + t[1..];
      Assoc(MemberText(m), [RBRACE], t[1..]);
      assert MembersMeant(ms) == [MemberMeant(m)];
    } else {
      var more := MembersIn(t[1..]);
      ms := [m] + more;
      assert ms[1..] == more;
      var rest := ParseMembers(s).rest;
      assert t == [COMMA] + t[1..];
      Assoc([COMMA], MembersText(more), rest);
      Assoc(MemberText(m), [COMMA] + MembersText(more), rest);
    }
  }

  predicate RightObject(o: WrittenObject) {
    Gap(o.before) && Gap(o.gap) && RightMembers(o.members) && Gap(o.after)
  }

  function InsideText(o: WrittenObject): Text {
    if o.members == [] then o.gap + [RBRACE] else MembersText(o.members)
  }

  function ObjectText(o: WrittenObject): Text {
    o.before + ([LBRACE] + (InsideText(o) + o.after))
  }

  lemma GapOnly(g: Text)
    requires Gap(g)
    ensures SkipSpace(g) == []
  {
    GapSkipped(g, []);
    assert g + [] == g;
  }

  lemma MembersSkipped(s: Text)
    ensures ParseMembers(SkipSpace(s)) == ParseMembers(s)
    ensures ParseMembers(s).Done? ==> SkipSpace(s) != [] && SkipSpace(s)[0] != RBRACE
  {
    hide SkipSpace, ParseValue;
    SkipTwice(s);
  }

  lemma ObjectReads(o: WrittenObject)
    requires RightObject(o)
    ensures ParseObject(ObjectText(o)) == Some(MembersMeant(o.members))
  {
    hide SkipSpace, ParseMembers, MembersText, RightMembers, Gap, MembersMeant;
    var inside := InsideText(o) + o.after;
    First(LBRACE, inside);
    GapSkipped(o.before, [LBRACE] + inside);
    GapOnly(o.after);
    if o.members == [] {
      assert inside == o.gap + ([RBRACE] + o.after);
      First(RBRACE, o.after);
      GapSkipped(o.gap, [RBRACE] + o.after);
      NothingMeant();
    } else {
      MembersRead(o.members, o.after);
      MembersSkipped(inside);
    }
  }

  lemma NothingMeant()
    ensures MembersMeant([]) == []
  {
  }

  lemma GapAll(s: Text)
    requires SkipSpace(s) == []
    ensures Gap(s)
  {
    var g := GapIn(s);
    assert s == g;
  }

  lemma ObjectIn(s: Text) returns (o: WrittenObject)
    requires ParseObject(s).Some?
    ensures RightObject(o) && s == ObjectText(o) && MembersMeant(o.members) == ParseObject(s).value
  {
    hide SkipSpace, ParseMembers, MembersText, Gap, MembersMeant, RightMember;
    var t := SkipSpace(s);
    var before := GapIn(s);
    var gap := GapIn(t[1..]);
    var u := SkipSpace(t[1..]);
    assert t == [LBRACE] + t[1..];
    if u != [] && u[0] == RBRACE {
      GapAll(u[1..]);
      NothingMeant();
      o := WrittenObject(before, gap, [], u[1..]);
      assert u == [RBRACE] + u[1..];
      Assoc(gap, [RBRACE], u[1..]);
    } else {
      MembersSkipped(t[1..]);
      var rest := ParseMembers(u).rest;
      GapAll(rest);
      var ms := MembersIn(t[1..]);
      o := WrittenObject(before, gap, ms, rest);
    }
  }

  /** s is a text of an object with these members, in this order. */
  ghost predicate IsObject(s: Text, ms: seq<Member>) {
    exists o :: RightObject(o) && ObjectText(o) == s && MembersMeant(o.members) == ms
  }

  /** The parser accepts exactly the texts of the grammar, and reads from each what it means. */
  lemma ObjectExact(s: Text, ms: seq<Member>)
    ensures ParseObject(s) == Some(ms) <==> IsObject(s, ms)
  {
    hide ParseObject, RightObject, ObjectText, MembersMeant;
    if ParseObject(s) == Some(ms) {
      var o := ObjectIn(s);
      assert IsObject(s, ms);
    }
    forall o | RightObject(o) && ObjectText(o) == s && MembersMeant(o.members) == ms
      ensures ParseObject(s) == Some(ms)
    {
      ObjectReads(o);
    }
  }

  // ---- records ----

  /** The one member with this key, and it has this value. */
  ghost predicate Once(ms: seq<Member>, key: Text, v: Value) {
    exists i :: 0 <= i < |ms| && ms[i] == Member(key, v) && forall j :: 0 <= j < |ms| && j != i ==> ms[j].key != key
  }

  lemma {:induction false} FieldExact(ms: seq<Member>, key: Text, v: Value)
    ensures Field(ms, key) == Some(v) <==> Once(ms, key, v)
  {
    if ms != [] {
      var t := ms[1..];
      FieldExact(t, key, v);
      if ms[0].key != key {
        if Once(t, key, v) {
          var i :| 0 <= i < |t| && t[i] == Member(key, v) && forall j :: 0 <= j < |t| && j != i ==> t[j].key != key;
          assert ms[i + 1] == t[i];
          assert forall j :: 0 < j < |ms| ==> ms[j] == t[j - 1];
        }
        if Once(ms, key, v) {
          var i :| 0 <= i < |ms| && ms[i] == Member(key, v) && forall j :: 0 <= j < |ms| && j != i ==> ms[j].key != key;
          assert t[i - 1] == ms[i];
          assert forall j :: 0 <= j < |t| ==> t[j] == ms[j + 1];
        }
      } else if Field(ms, key) == Some(v) {
        assert ms[0] == Member(key, v);
      }
    }
  }

  /** Each of the six fields is there once, with the value it has in m; other members play no part. */
  ghost predicate HasFields(ms: seq<Member>, m: MetaRecord) {
    && Once(ms, Ascii("create_time"), Num(m.createTime)) && Once(ms, Ascii("offset_data"), Num(m.offsetData))
    && Once(ms, Ascii("size_data"), Num(m.sizeData)) && Once(ms, Ascii("cookie"), Num(m.cookie))
    && Once(ms, Ascii("filename"), Str(m.filename)) && Once(ms, Ascii("extra"), Arr(m.extra))
  }

  lemma FieldsExact(ms: seq<Member>, m: MetaRecord)
    ensures FromMembers(ms) == Some(m) <==> HasFields(ms, m)
  {
    hide Ascii, Field, Once;
    FieldExact(ms, Ascii("create_time"), Num(m.createTime));
    FieldExact(ms, Ascii("offset_data"), Num(m.offsetData));
    FieldExact(ms, Ascii("size_data"), Num(m.sizeData));
    FieldExact(ms, Ascii("cookie"), Num(m.cookie));
    FieldExact(ms, Ascii("filename"), Str(m.filename));
    FieldExact(ms, Ascii("extra"), Arr(m.extra));
  }

  /** A text parses to a record exactly if it is an object that has the record's six fields. */
  lemma RecordExact(s: Text, m: MetaRecord)
    ensures ParseRecord(s) == Some(m) <==> exists ms :: IsObject(s, ms) && HasFields(ms, m)
  {
    hide ParseObject, FromMembers, IsObject, HasFields;
    if ParseRecord(s) == Some(m) {
      var ms := ParseObject(s).value;
      ObjectExact(s, ms);
      FieldsExact(ms, m);
    }
    forall ms | IsObject(s, ms) && HasFields(ms, m)
      ensures ParseRecord(s) == Some(m)
    {
      ObjectExact(s, ms);
      FieldsExact(ms, m);
    }
  }
}
