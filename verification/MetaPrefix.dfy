/** A meta line that was cut short is never taken for a record. */
module MetaPrefix {
  import opened Bytes
  import opened Digits
  import opened MetaJson
  import opened MetaRoundTrip

  lemma SpaceMore(s: Text, more: Text)
    requires SkipSpace(s) != []
    ensures SkipSpace(s + more) == SkipSpace(s) + more
  {
    if IsSpace(s[0]) {
      SpaceMore(s[1..], more);
      assert (s + more)[1..] == s[1..] + more;
    }
  }

  lemma DigitsMore(s: Text, more: Text)
    requires DigitRun(s) < |s|
    ensures DigitRun(s + more) == DigitRun(s)
  {
    if IsDigit(s[0], 10) {
      DigitsMore(s[1..], more);
      assert (s + more)[1..] == s[1..] + more;
    }
  }

  /** What follows a parse plays no part in it, as long as a number is followed by something. */
  lemma NumberMore(s: Text, more: Text)
    requires ParseNumber(s).Done? && ParseNumber(s).rest != []
    ensures ParseNumber(s + more) == Done(ParseNumber(s).value, ParseNumber(s).rest + more)
  {
    var k := DigitRun(s);
    DigitsMore(s, more);
    assert (s + more)[..k] == s[..k] && (s + more)[k..] == s[k..] + more;
  }

  /** How many bytes of a string body stand for its first character, if it does not end here. */
  function StepOf(s: Text): (k: nat)
    requires s != [] && s[0] != QUOTE
    ensures k > 0
  {
    if s[0] != BACKSLASH then 1 else if |s| >= 6 && s[1] == 117 then 6 else 2
  }

  /** A character of its own reads the same whatever comes behind it. */
  lemma PlainStep(s: Text)
    requires s != [] && s[0] != QUOTE && s[0] != BACKSLASH
    ensures ParseBody(s) == if s[0] < 32 then Fail else Prepend([s[0]], ParseBody(s[1..]))
  {
    hide Hex4, Utf8, Unescape;
  }

  lemma UnicodeStep(s: Text)
    requires |s| >= 6 && s[0] == BACKSLASH && s[1] == 117
    ensures
      var code := Hex4(s[2..6]);
      ParseBody(s) == if code.None? || Utf8(code.value).None? then Fail
                      else Prepend(Utf8(code.value).value, ParseBody(s[6..]))
  {
    hide Hex4, Utf8, Unescape;
  }

  lemma EscapedStep(s: Text)
    requires s != [] && s[0] == BACKSLASH && !(|s| >= 6 && s[1] == 117)
    ensures ParseBody(s) == if |s| < 2 || Unescape(s[1]).None? then Fail
                            else Prepend([Unescape(s[1]).value], ParseBody(s[2..]))
  {
    hide Hex4, Utf8;
    NoUnicode();
  }

  lemma {:induction false} BodyMore(s: Text, more: Text)
    requires ParseBody(s).Done?
    ensures ParseBody(s + more) == Done(ParseBody(s).value, ParseBody(s).rest + more)
  {
    EndsHere(s, more);
    hide ParseBody, Hex4, Utf8, Unescape;
    if s[0] != QUOTE {
      var k := StepOf(s);
      StepMore(s, more);
      if s[0] != BACKSLASH {
        PlainStep(s);
        PlainStep(s + more);
      } else if k == 6 {
        UnicodeStep(s);
        UnicodeStep(s + more);
      } else {
        NoUnicode();
        EscapedStep(s);
        EscapedStep(s + more);
      }
      BodyMore(s[k..], more);
    }
  }

  lemma EndsHere(s: Text, more: Text)
    requires ParseBody(s).Done?
    ensures s != [] && (s[0] != QUOTE ==> StepOf(s) <= |s|)
    ensures s[0] == QUOTE ==> ParseBody(s + more) == Done(ParseBody(s).value, ParseBody(s).rest + more)
  {
    hide Hex4, Utf8, Unescape;
    if s != [] {
      assert (s + more)[1..] == s[1..] + more;
    }
  }

  lemma StepMore(s: Text, more: Text)
    requires s != [] && s[0] != QUOTE && StepOf(s) <= |s|
    ensures (s + more)[StepOf(s)..] == s[StepOf(s)..] + more && (s + more)[0] == s[0]
    ensures |s| >= 2 ==> (s + more)[1] == s[1]
    ensures |s| >= 6 ==> (s + more)[2..6] == s[2..6]
  {
  }

  lemma NoUnicode()
    ensures Unescape(117) == None
  {
  }

  lemma StringMore(s: Text, more: Text)
    requires ParseString(s).Done?
    ensures ParseString(s + more) == Done(ParseString(s).value, ParseString(s).rest + more)
  {
    hide ParseBody;
    BodyMore(s[1..], more);
    assert (s + more)[1..] == s[1..] + more;
  }

  lemma {:induction false} ElementsMore(s: Text, more: Text)
    requires ParseElements(s).Done?
    ensures ParseElements(s + more) == Done(ParseElements(s).value, ParseElements(s).rest + more)
    decreases |s|
  {
    hide ParseNumber, SkipSpace;
    var n := ParseNumber(SkipSpace(s));
    var t := SkipSpace(n.rest);
    Blank();
    SpaceMore(s, more);
    NumberMore(SkipSpace(s), more);
    SpaceMore(n.rest, more);
    assert (t + more)[1..] == t[1..] + more;
    if t[0] == COMMA {
      ElementsMore(t[1..], more);
    }
  }

  /** Nothing is left of nothing, and no number in it. */
  lemma Blank()
    ensures SkipSpace([]) == [] && ParseNumber([]).Fail?
  {
  }

  lemma ArrayMore(s: Text, more: Text)
    requires ParseArray(s).Done?
    ensures ParseArray(s + more) == Done(ParseArray(s).value, ParseArray(s).rest + more)
  {
    hide ParseNumber, SkipSpace, ParseElements;
    var t := SkipSpace(s[1..]);
    NoElements();
    SpaceMore(s[1..], more);
    assert (s + more)[1..] == s[1..] + more;
    assert (t + more)[1..] == t[1..] + more;
    if t[0] != RBRACKET {
      ElementsMore(t, more);
    }
  }

  lemma NoElements()
    ensures ParseElements([]).Fail?
  {
  }

  lemma ValueMore(s: Text, more: Text)
    requires ParseValue(s).Done? && ParseValue(s).rest != []
    ensures ParseValue(s + more) == Done(ParseValue(s).value, ParseValue(s).rest + more)
  {
    hide ParseNumber, ParseString, ParseArray;
    if s[0] == QUOTE {
      StringMore(s, more);
    } else if s[0] == LBRACKET {
      ArrayMore(s, more);
    } else {
      NumberMore(s, more);
    }
  }

  lemma MemberMore(s: Text, more: Text)
    requires ParseMember(s).Done? && ParseMember(s).rest != []
    ensures ParseMember(s + more) == Done(ParseMember(s).value, ParseMember(s).rest + more)
  {
    hide SkipSpace, ParseString, ParseValue;
    var key := ParseString(SkipSpace(s));
    var t := SkipSpace(key.rest);
    NoString();
    SpaceMore(s, more);
    StringMore(SkipSpace(s), more);
    Blank();
    SpaceMore(key.rest, more);
    assert (t + more)[1..] == t[1..] + more;
    SpaceMore(t[1..], more);
    ValueMore(SkipSpace(t[1..]), more);
  }

  lemma NoString()
    ensures ParseString([]).Fail? && ParseValue([]).Fail?
  {
  }

  lemma {:induction false} MembersMore(s: Text, more: Text)
    requires ParseMembers(s).Done?
    ensures ParseMembers(s + more) == Done(ParseMembers(s).value, ParseMembers(s).rest + more)
    decreases |s|
  {
    hide SkipSpace, ParseMember;
    var m := ParseMember(s);
    var t := SkipSpace(m.rest);
    Blank();
    MemberMore(s, more);
    SpaceMore(m.rest, more);
    assert (t + more)[1..] == t[1..] + more;
    if t[0] == COMMA {
      MembersMore(t[1..], more);
    }
  }

  /** No beginning of printed members is whole. */
  lemma MembersCut(ms: seq<Member>, n: nat)
    requires ms != [] && n < |PrintMembers(ms)|
    ensures ParseMembers(PrintMembers(ms)[..n]).Fail?
  {
    hide PrintMembers, ParseMembers;
    var (t, rest) := (PrintMembers(ms), PrintMembers(ms)[n..]);
    assert t[..n] + rest == t && t + [] == t;
    MembersRoundTrip(ms, []);
    if ParseMembers(t[..n]).Done? {
      MembersMore(t[..n], rest);
      assert false;
    }
  }

  /** A printed object that lost its end does not parse. */
  lemma ObjectCut(ms: seq<Member>, n: nat)
    requires ms != [] && n < |PrintObject(ms)|
    ensures ParseObject(PrintObject(ms)[..n]) == None
  {
    hide PrintMembers, ParseMembers;
    if n > 0 {
      var (s, t) := (PrintObject(ms)[..n], PrintMembers(ms));
      assert s[0] == LBRACE && s[1..] == t[..n - 1];
      MembersCut(ms, n - 1);
      assert n > 1 ==> t[..n - 1][0] == QUOTE;
    }
  }

  /** A line without its newline is whole; anything less of it is no record. */
  lemma RecordCut(m: MetaRecord, n: nat)
    requires n + 1 < |RecordLine(m)|
    ensures ParseRecord(RecordLine(m)[..n]) == None
  {
    hide PrintObject, ParseObject;
    assert RecordLine(m)[..n] == PrintObject(Members(m))[..n];
    ObjectCut(Members(m), n);
  }
}
