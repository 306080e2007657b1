/** File names of a stack: `{prefix}0x{stack_id:04x}.{suffix}`. */
module Paths {
  import opened Bytes
  import opened Digits

  datatype Suffix = Data | Idx | Meta

  function SuffixText(k: Suffix): Text {
    match k
    case Data => Ascii(".data")
    case Idx => Ascii(".idx")
    case Meta => Ascii(".meta")
  }

  function FileName(stackId: nat, k: Suffix): Text {
    [48, 120] + PrintPadded(stackId, 16, 4) + SuffixText(k)
  }

  function Path(prefix: Text, stackId: nat, k: Suffix): Text {
    prefix + FileName(stackId, k)
  }

  /** A file of one of these stacks. */
  ghost predicate OfStacks(prefix: Text, ids: iset<u64>, path: Text) {
    exists id: u64, k: Suffix :: id in ids && path == Path(prefix, id, k)
  }

  datatype ParsedName = StackOf(stackId: u64) | OtherFile | Panicked

  predicate StartsWith(s: Text, p: Text) {
    |p| <= |s| && s[..|p|] == p
  }

  predicate EndsWith(s: Text, p: Text) {
    |p| <= |s| && s[|s| - |p|..] == p
  }

  function ParsedOf(digits: Text): ParsedName {
    match FromStrRadix(digits, 16, U64)
    case Some(n) => StackOf(n)
    case None => Panicked
  }

  /** parse_file_stack_id; every unwrap of the source is a panic here. */
  function ParseName(name: Text, k: Suffix): ParsedName {
    var typ := SuffixText(k);
    if StartsWith(name, [48, 120]) && EndsWith(name, typ) then
      var rest := name[2..];
      if !EndsWith(rest, typ) then Panicked
      else ParsedOf(rest[..|rest| - |typ|])
    else OtherFile
  }

  /** The third character from the end tells the suffixes apart. */
  lemma SuffixesDiffer(k: Suffix, l: Suffix)
    requires k != l
    ensures SuffixText(k)[|SuffixText(k)| - 3] != SuffixText(l)[|SuffixText(l)| - 3]
  {
  }

  lemma TailAt(s: Text, tail: Text)
    requires EndsWith(s, tail) && |tail| >= 3
    ensures s[|s| - 3] == tail[|tail| - 3]
  {
    assert s[|s| - |tail|..][|tail| - 3] == tail[|tail| - 3];
  }

  lemma Assembled(digits: Text, typ: Text)
    ensures
      var name := [48, 120] + digits + typ;
      && StartsWith(name, [48, 120]) && EndsWith(name, typ)
      && name[2..] == digits + typ && EndsWith(digits + typ, typ)
      && (digits + typ)[..|digits|] == digits
  {
    assert ([48, 120] + digits + typ)[2..] == digits + typ;
  }

  lemma NameReads(stackId: u64, k: Suffix)
    ensures ParseName(FileName(stackId, k), k) == StackOf(stackId)
  {
    Assembled(PrintPadded(stackId, 16, 4), SuffixText(k));
    PaddedReads(stackId, 16, 4, U64);
  }

  lemma NameEndsOtherwise(stackId: nat, k: Suffix, l: Suffix)
    requires k != l
    ensures !EndsWith(FileName(stackId, k), SuffixText(l))
  {
    if EndsWith(FileName(stackId, k), SuffixText(l)) {
      Assembled(PrintPadded(stackId, 16, 4), SuffixText(k));
      TailAt(FileName(stackId, k), SuffixText(k));
      TailAt(FileName(stackId, k), SuffixText(l));
      SuffixesDiffer(k, l);
      assert false;
    }
  }

  /** A name gives back its stack under its own suffix, and is no stack under another. */
  lemma NameRoundTrip(stackId: u64, k: Suffix, l: Suffix)
    ensures ParseName(FileName(stackId, k), l) == if k == l then StackOf(stackId) else OtherFile
  {
    if k == l {
      NameReads(stackId, k);
    } else {
      NameEndsOtherwise(stackId, k, l);
    }
  }

  /** Every other name is no file of a stack, or the digits in it panic. */
  lemma NameExact(name: Text, k: Suffix)
    ensures ParseName(name, k) == OtherFile <==> !(exists d :: name == [48, 120] + d + SuffixText(k))
    ensures forall n: u64 ::
      ParseName(name, k) == StackOf(n) <==>
      exists d :: name == [48, 120] + d + SuffixText(k) && FromStrRadix(d, 16, U64) == Some(n)
  {
    hide FromStrRadix, SuffixText, StartsWith, EndsWith;
    var typ := SuffixText(k);
    forall d | name == [48, 120] + d + typ
      ensures StartsWith(name, [48, 120]) && EndsWith(name, typ) && ParseName(name, k) == ParsedOf(d)
    {
      Assembled(d, typ);
    }
    if StartsWith(name, [48, 120]) && EndsWith(name, typ) {
      SuffixStarts(k);
      Apart(name, typ);
    }
  }

  lemma Apart(name: Text, typ: Text)
    requires StartsWith(name, [48, 120]) && EndsWith(name, typ) && |typ| >= 3 && typ[0] != 48 && typ[0] != 120
    ensures |name| >= 2 + |typ| && name == [48, 120] + name[2..|name| - |typ|] + typ
  {
    var at := |name| - |typ|;
    assert name[at] == typ[0] && name[0] == 48 && name[1] == 120;
    assert name == name[..2] + name[2..at] + name[at..];
  }

  lemma SuffixStarts(k: Suffix)
    ensures |SuffixText(k)| >= 3 && SuffixText(k)[0] == 46
  {
  }

  lemma PathTail(prefix: Text, stackId: nat, k: Suffix)
    ensures
      var path, typ := Path(prefix, stackId, k), SuffixText(k);
      && |path| >= |prefix| + 2 + |typ| >= 3
      && path[|path| - 3] == typ[|typ| - 3]
  {
  }

  lemma PathDigits(prefix: Text, stackId: nat, k: Suffix)
    ensures
      var path := Path(prefix, stackId, k);
      && |path| >= |prefix| + 2 + |SuffixText(k)|
      && path[|prefix| + 2..|path| - |SuffixText(k)|] == PrintPadded(stackId, 16, 4)
  {
  }

  /** Under one prefix no two files of any two stacks share a path. */
  lemma PathInjective(prefix: Text, a: nat, k: Suffix, b: nat, l: Suffix)
    ensures Path(prefix, a, k) == Path(prefix, b, l) <==> a == b && k == l
  {
    if Path(prefix, a, k) == Path(prefix, b, l) {
      assert k == l by {
        PathTail(prefix, a, k);
        PathTail(prefix, b, l);
        if k != l {
          SuffixesDiffer(k, l);
          assert false;
        }
      }
      assert PrintPadded(a, 16, 4) == PrintPadded(b, 16, 4) by {
        PathDigits(prefix, a, k);
        PathDigits(prefix, b, l);
      }
      NumberOfPadded(a, 16, 4);
      NumberOfPadded(b, 16, 4);
    }
  }
}
