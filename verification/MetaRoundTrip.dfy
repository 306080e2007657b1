/** What is printed into the meta file is read back, field by field and line by line. */
module MetaRoundTrip {
  import opened Bytes
  import opened Digits
  import opened MetaJson

  lemma HexEscape(b: byte)
    requires b < 32
    ensures Hex4([48, 48, Digit(b as nat / 16), Digit(b as nat % 16)]) == Some(b as nat)
  {
    var s: Text := [48, 48, Digit(b as nat / 16), Digit(b as nat % 16)];
    assert s[..3] == [48, 48, Digit(b as nat / 16)] && s[..3][..2] == [48, 48] && s[..3][..2][..1] == [48];
    assert Number([48], 16) == Some(0) by { assert [48 as byte][..0] == []; }
    assert Number(s[..3][..2], 16) == Some(0);
    assert Number(s[..3], 16) == Some(b as nat / 16);
  }

  lemma Assoc(a: Text, b: Text, c: Text)
    ensures (a + b) + c == a + (b + c)
  {
  }

  lemma EscapeStep(b: byte, t: Text)
    ensures ParseBody(Escape(b) + t) == Prepend([b], ParseBody(t))
  {
    var s := Escape(b) + t;
    assert s[|Escape(b)|..] == t;
    if |Escape(b)| == 6 {
      HexEscape(b);
      assert s[0] == BACKSLASH && s[1] == 117;
      assert s[2..6] == [48, 48, Digit(b as nat / 16), Digit(b as nat % 16)];
      assert Utf8(b as nat) == Some([b]);
    }
  }

  lemma {:induction false} BodyRoundTrip(s: Text, rest: Text)
    ensures ParseBody(EscapeAll(s) + ([QUOTE] + rest)) == Done(s, rest)
  {
    if s == [] {
      assert EscapeAll(s) + ([QUOTE] + rest) == [QUOTE] + rest;
    } else {
      var more := EscapeAll(s[1..]) + ([QUOTE] + rest);
      BodyRoundTrip(s[1..], rest);
      Assoc(Escape(s[0]), EscapeAll(s[1..]), [QUOTE] + rest);
      EscapeStep(s[0], more);
      assert s == [s[0]] + s[1..];
    }
  }

  lemma StringRoundTrip(s: Text, rest: Text)
    ensures ParseString(PrintString(s) + rest) == Done(s, rest)
  {
    var body := EscapeAll(s) + ([QUOTE] + rest);
    BodyRoundTrip(s, rest);
    Wrap([QUOTE], EscapeAll(s), [QUOTE], rest);
    First(QUOTE, body);
  }

  lemma First(c: byte, t: Text)
    ensures ([c] + t)[0] == c && ([c] + t)[1..] == t && [c] + t != []
  {
  }

  lemma Wrap(a: Text, b: Text, c: Text, d: Text)
    ensures (a + (b + c)) + d == a + (b + (c + d))
  {
  }

  /** What may follow a number: nothing that would continue it. */
  predicate Stops(rest: Text) {
    rest == [] || (!IsDigit(rest[0], 10) && rest[0] !in [46, 69, 101])
  }

  lemma {:induction false} DigitRunStops(d: Text, rest: Text)
    requires AllDigits(d, 10) && Stops(rest)
    ensures DigitRun(d + rest) == |d|
  {
    if d == [] {
      assert d + rest == rest;
    } else {
      assert (d + rest)[1..] == d[1..] + rest;
      DigitRunStops(d[1..], rest);
    }
  }

  lemma NumberRoundTrip(n: nat, rest: Text)
    requires Stops(rest)
    ensures ParseNumber(PrintNumber(n) + rest) == Done(n, rest)
  {
    var d := Print(n, 10);
    PrintDigits(n, 10);
    DigitRunStops(d, rest);
    NumberOfPrint(n, 10);
    PrintCanonical(n, 10);
    assert (d + rest)[..|d|] == d && (d + rest)[|d|..] == rest;
  }

  lemma LastElement(s: Text, n: byte, more: Text)
    requires ParseNumber(SkipSpace(s)) == Done(n as nat, [RBRACKET] + more)
    ensures ParseElements(s) == Done([n], more)
  {
    First(RBRACKET, more);
  }

  lemma NextElement(s: Text, n: byte, more: Text)
    requires ParseNumber(SkipSpace(s)) == Done(n as nat, [COMMA] + more) && ParseElements(more).Done?
    ensures ParseElements(s) == Done([n] + ParseElements(more).value, ParseElements(more).rest)
  {
    First(COMMA, more);
  }

  lemma ElementsThen(ns: seq<byte>, end: Text)
    requires |ns| > 1
    ensures PrintElements(ns) + end == PrintNumber(ns[0] as nat) + ([COMMA] + (PrintElements(ns[1..]) + end))
  {
    Wrap(PrintNumber(ns[0] as nat), [COMMA], PrintElements(ns[1..]), end);
  }

  lemma NoSpaceBefore(t: Text, rest: Text)
    requires t != [] && !IsSpace(t[0])
    ensures SkipSpace(t + rest) == t + rest
  {
  }

  lemma {:induction false} ElementsRoundTrip(ns: seq<byte>, rest: Text)
    requires ns != []
    ensures ParseElements(PrintElements(ns) + ([RBRACKET] + rest)) == Done(ns, rest)
  {
    hide ParseNumber;
    var end := [RBRACKET] + rest;
    var s := PrintElements(ns) + end;
    NoSpaceBefore(PrintElements(ns), end);
    if |ns| == 1 {
      NumberRoundTrip(ns[0] as nat, end);
      LastElement(s, ns[0], rest);
      assert ns == [ns[0]];
    } else {
      var more := PrintElements(ns[1..]) + end;
      ElementsRoundTrip(ns[1..], rest);
      ElementsThen(ns, end);
      NumberRoundTrip(ns[0] as nat, [COMMA] + more);
      NextElement(s, ns[0], more);
      assert ns == [ns[0]] + ns[1..];
    }
  }

  lemma ArrayRoundTrip(ns: seq<byte>, rest: Text)
    ensures ParseArray(PrintArray(ns) + rest) == Done(ns, rest)
  {
    First(RBRACKET, rest);
    First(LBRACKET, [RBRACKET] + rest);
    if ns == [] {
      assert PrintArray(ns) + rest == [LBRACKET] + ([RBRACKET] + rest);
    } else {
      var body := PrintElements(ns) + ([RBRACKET] + rest);
      ElementsRoundTrip(ns, rest);
      Wrap([LBRACKET], PrintElements(ns), [RBRACKET], rest);
      First(LBRACKET, body);
      assert body[0] == PrintElements(ns)[0];
    }
  }

  lemma ValueRoundTrip(v: Value, rest: Text)
    requires Stops(rest)
    ensures ParseValue(PrintValue(v) + rest) == Done(v, rest)
  {
    match v
    case Num(n) => NumberRoundTrip(n, rest);
    case Str(s) => StringRoundTrip(s, rest);
    case Arr(ns) => ArrayRoundTrip(ns, rest);
  }

  lemma MemberRoundTrip(m: Member, rest: Text)
    requires Stops(rest)
    ensures ParseMember(PrintMember(m, rest)) == Done(m, rest)
  {
    hide PrintString, PrintValue, ParseString, ParseValue;
    var tail := PrintValue(m.value) + rest;
    StringRoundTrip(m.key, [COLON] + tail);
    First(COLON, tail);
    ValueRoundTrip(m.value, rest);
    assert tail[0] == PrintValue(m.value)[0];
    assert PrintMember(m, rest) == PrintString(m.key) + ([COLON] + tail);
  }

  lemma LastMember(s: Text, m: Member, more: Text)
    requires ParseMember(s) == Done(m, [RBRACE] + more)
    ensures ParseMembers(s) == Done([m], more)
  {
    First(RBRACE, more);
  }

  lemma NextMember(s: Text, m: Member, more: Text)
    requires ParseMember(s) == Done(m, [COMMA] + more) && ParseMembers(more).Done?
    ensures ParseMembers(s) == Done([m] + ParseMembers(more).value, ParseMembers(more).rest)
  {
    First(COMMA, more);
  }

  lemma MemberThen(m: Member, a: Text, b: Text)
    ensures PrintMember(m, a) + b == PrintMember(m, a + b)
  {
    var key, value := PrintString(m.key), PrintValue(m.value);
    Wrap(key, [COLON], value + a, b);
    Assoc(value, a, b);
  }

  lemma MembersThen(ms: seq<Member>, rest: Text)
    requires ms != []
    ensures PrintMembers(ms) + rest ==
      PrintMember(ms[0], if |ms| == 1 then [RBRACE] + rest else [COMMA] + (PrintMembers(ms[1..]) + rest))
  {
    if |ms| == 1 {
      MemberThen(ms[0], [RBRACE], rest);
    } else {
      MemberThen(ms[0], [COMMA] + PrintMembers(ms[1..]), rest);
      Assoc([COMMA], PrintMembers(ms[1..]), rest);
    }
  }

  lemma {:induction false} MembersRoundTrip(ms: seq<Member>, rest: Text)
    requires ms != []
    ensures ParseMembers(PrintMembers(ms) + rest) == Done(ms, rest)
  {
    hide PrintMembers, PrintMember, ParseMembers, ParseMember;
    var s := PrintMembers(ms) + rest;
    MembersThen(ms, rest);
    if |ms| == 1 {
      MemberRoundTrip(ms[0], [RBRACE] + rest);
      LastMember(s, ms[0], rest);
      assert ms == [ms[0]];
    } else {
      var more := PrintMembers(ms[1..]) + rest;
      MembersRoundTrip(ms[1..], rest);
      MemberRoundTrip(ms[0], [COMMA] + more);
      NextMember(s, ms[0], more);
      assert ms == [ms[0]] + ms[1..];
    }
  }

  lemma ObjectRoundTrip(ms: seq<Member>)
    requires ms != []
    ensures ParseObject(PrintObject(ms) + [NEWLINE]) == Some(ms)
  {
    hide PrintMembers, ParseMembers, SkipSpace;
    var body := PrintMembers(ms) + [NEWLINE];
    Assoc([LBRACE], PrintMembers(ms), [NEWLINE]);
    First(LBRACE, body);
    NoSpaceBefore([LBRACE], body);
    NoSpaceBefore(PrintMembers(ms), [NEWLINE]);
    MembersRoundTrip(ms, [NEWLINE]);
    NewlineSkipped();
  }

  lemma NewlineSkipped()
    ensures SkipSpace([NEWLINE]) == []
  {
  }

  lemma FieldAt(ms: seq<Member>, i: nat)
    requires i < |ms|
    requires forall j, k :: 0 <= j < k < |ms| ==> ms[j].key != ms[k].key
    ensures Field(ms, ms[i].key) == Some(ms[i].value)
  {
    if i > 0 {
      FieldAt(ms[1..], i - 1);
    }
  }

  lemma KeysDiffer(m: MetaRecord)
    ensures forall j, k :: 0 <= j < k < |Members(m)| ==> Members(m)[j].key != Members(m)[k].key
  {
    var ms := Members(m);
    assert Ascii("create_time")[0] != Ascii("offset_data")[0];
    assert forall j, k :: 0 <= j < k < |ms| ==> ms[j].key != ms[k].key;
  }

  lemma FieldsRoundTrip(m: MetaRecord)
    ensures FromMembers(Members(m)) == Some(m)
  {
    hide Ascii, Field;
    var ms := Members(m);
    KeysDiffer(m);
    FieldAt(ms, 0);
    FieldAt(ms, 1);
    FieldAt(ms, 2);
    FieldAt(ms, 3);
    FieldAt(ms, 4);
    FieldAt(ms, 5);
  }

  /** A written line parses to the record with all six fields, whatever the name and extra bytes. */
  lemma RecordRoundTrip(m: MetaRecord)
    ensures ParseRecord(RecordLine(m)) == Some(m)
  {
    ObjectRoundTrip(Members(m));
    FieldsRoundTrip(m);
  }

  // ---- lines ----

  /** Put a byte in front of the first line. */
  function Grow(c: byte, ls: seq<Text>): seq<Text> {
    if ls == [] then [[c]] else [[c] + ls[0]] + ls[1..]
  }

  /** The pieces between newlines; a last piece without one is kept. */
  function SplitLines(s: Text): seq<Text> {
    if s == [] then []
    else if s[0] == NEWLINE then [[]] + SplitLines(s[1..])
    else Grow(s[0], SplitLines(s[1..]))
  }

  lemma {:induction false} SplitOne(t: Text)
    requires NEWLINE !in t
    ensures SplitLines(t + [NEWLINE]) == [t]
  {
    var s := t + [NEWLINE];
    if t == [] {
      assert s[1..] == [];
    } else {
      assert s[0] == t[0] && s[1..] == t[1..] + [NEWLINE];
      assert t[0] in t;
      SplitOne(t[1..]);
      assert t == [t[0]] + t[1..];
    }
  }

  lemma GrowConcat(c: byte, ls: seq<Text>, ms: seq<Text>)
    requires ls != []
    ensures Grow(c, ls + ms) == Grow(c, ls) + ms
  {
    assert (ls + ms)[1..] == ls[1..] + ms;
  }

  /** Splitting is cut cleanly after a newline. */
  lemma {:induction false} SplitConcat(a: Text, b: Text)
    requires a == [] || a[|a| - 1] == NEWLINE
    ensures SplitLines(a + b) == SplitLines(a) + SplitLines(b)
    ensures a != [] ==> SplitLines(a) != []
  {
    if a == [] {
      assert a + b == b;
    } else {
      var t := a[1..];
      assert (a + b)[0] == a[0] && (a + b)[1..] == t + b;
      SplitConcat(t, b);
      if a[0] == NEWLINE {
        assert [[]] + (SplitLines(t) + SplitLines(b)) == ([[]] + SplitLines(t)) + SplitLines(b);
      } else {
        GrowConcat(a[0], SplitLines(t), SplitLines(b));
      }
    }
  }

  /** No control character, so in particular no newline. */
  predicate Printable(s: Text) {
    forall i :: 0 <= i < |s| ==> s[i] >= 32
  }

  lemma {:induction false} StringPrintable(s: Text)
    ensures Printable(EscapeAll(s))
  {
    if s != [] {
      StringPrintable(s[1..]);
      assert Printable(Escape(s[0]));
    }
  }

  lemma NumberPrintable(n: nat)
    ensures Printable(PrintNumber(n))
  {
    PrintDigits(n, 10);
    var t := Print(n, 10);
    forall i | 0 <= i < |t|
      ensures t[i] >= 32
    {
      assert IsDigit(t[i], 10);
    }
  }

  lemma {:induction false} ElementsPrintable(ns: seq<byte>)
    requires ns != []
    ensures Printable(PrintElements(ns))
  {
    NumberPrintable(ns[0] as nat);
    if |ns| > 1 {
      ElementsPrintable(ns[1..]);
    }
  }

  lemma ValuePrintable(v: Value)
    ensures Printable(PrintValue(v))
  {
    match v
    case Num(n) => NumberPrintable(n);
    case Str(s) => StringPrintable(s);
    case Arr(ns) =>
      if ns != [] {
        ElementsPrintable(ns);
      }
  }

  lemma MemberPrintable(m: Member, after: Text)
    requires Printable(after)
    ensures Printable(PrintMember(m, after))
  {
    StringPrintable(m.key);
    ValuePrintable(m.value);
    var tail := PrintValue(m.value) + after;
    assert Printable(tail) && Printable([COLON] + tail) && Printable(PrintString(m.key));
  }

  lemma {:induction false} MembersPrintable(ms: seq<Member>)
    requires ms != []
    ensures Printable(PrintMembers(ms))
  {
    if |ms| == 1 {
      MemberPrintable(ms[0], [RBRACE]);
    } else {
      MembersPrintable(ms[1..]);
      MemberPrintable(ms[0], [COMMA] + PrintMembers(ms[1..]));
    }
  }

  /** One object is one line. */
  lemma ObjectIsLine(ms: seq<Member>)
    requires ms != []
    ensures SplitLines(PrintObject(ms) + [NEWLINE]) == [PrintObject(ms)]
  {
    MembersPrintable(ms);
    assert Printable(PrintObject(ms));
    SplitOne(PrintObject(ms));
  }

  // ---- the Go writer's array printer ----

  /** The array's text from element i on, with the separator before it. */
  function Tail(e: seq<byte>, i: nat): Text
    requires i <= |e|
  {
    if i == |e| then [RBRACKET]
    else (if i > 0 then [COMMA] else []) + (PrintElements(e[i..]) + [RBRACKET])
  }

  lemma TailStep(e: seq<byte>, i: nat)
    requires i < |e|
    ensures Tail(e, i) == (if i > 0 then [COMMA] else []) + (PrintNumber(e[i] as nat) + Tail(e, i + 1))
  {
    assert e[i..][1..] == e[i + 1..];
    if i + 1 < |e| {
      Wrap(PrintNumber(e[i] as nat), [COMMA], PrintElements(e[i + 1..]), [RBRACKET]);
    } else {
      assert PrintElements(e[i..]) == PrintNumber(e[i] as nat);
    }
  }

  /** extraBytes.MarshalJSON builds the array byte by byte. */
  method MarshalExtra(e: seq<byte>) returns (buf: Text)
    ensures buf == PrintArray(e)
  {
    if |e| == 0 {
      return [LBRACKET, RBRACKET];
    }
    buf := [LBRACKET];
    assert e[0..] == e;
    assert buf + Tail(e, 0) == PrintArray(e);
    for i := 0 to |e|
      invariant buf + Tail(e, i) == PrintArray(e)
    {
      TailStep(e, i);
      Reassociate(buf, if i > 0 then [COMMA] else [], PrintNumber(e[i] as nat), Tail(e, i + 1));
      if i > 0 {
        buf := buf + [COMMA];
      }
      buf := buf + PrintNumber(e[i] as nat);
    }
    buf := buf + [RBRACKET];
  }

  lemma Reassociate(a: Text, b: Text, c: Text, d: Text)
    ensures a + (b + (c + d)) == ((a + b) + c) + d
    ensures a + [] == a
  {
  }
}
