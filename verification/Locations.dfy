/**
 * Locations, `s3://bucket/prefix`, as S3Writer::open and the reader's parse_s3_url take them apart,
 * and where a reader finds what an S3 writer published.
 */
module Locations {
  import opened Bytes
  import opened Crash
  import opened Fleet
  import opened IndexId
  import opened LocalRun
  import opened MetaJson
  import opened Paths
  import opened Reader
  import opened S3Published
  import opened S3Writer
  import opened StackLog

  const SLASH: byte := 47

  datatype Place = Place(bucket: Text, prefix: Text)

  /** S3Writer::open: the bucket is what stands before the first slash, if there is one. */
  function WriterPlace(location: Text): Option<Place> {
    if !StartsWith(location, Ascii("s3://")) then None else
      var rest := location[5..];
      var i := Find(rest, SLASH);
      Some(if i == |rest| then Place(rest, []) else Place(rest[..i], rest[i + 1..]))
  }

  /** The text up to a newline. */
  function FirstLine(s: Text): Text {
    s[..Find(s, NEWLINE)]
  }

  /** The first match of `s3://([^/]+)/(.*)` anywhere in the text. */
  function ReaderPlace(location: Text): Option<Place> {
    if StartsWith(location, Ascii("s3://")) && 0 < Find(location[5..], SLASH) < |location| - 5 then
      var rest := location[5..];
      var i := Find(rest, SLASH);
      Some(Place(rest[..i], FirstLine(rest[i + 1..])))
    else if location == [] then None
    else ReaderPlace(location[1..])
  }

  function Location(bucket: Text, prefix: Text): Text {
    Ascii("s3://") + (bucket + [SLASH] + prefix)
  }

  predicate IsBucket(bucket: Text) {
    bucket != [] && SLASH !in bucket
  }

  lemma {:induction false} NoneFound(s: Text, c: byte)
    requires c !in s
    ensures Find(s, c) == |s|
  {
    if s != [] {
      assert s[0] in s;
      NoneFound(s[1..], c);
    }
  }

  lemma {:induction false} FoundOnce(s: Text, c: byte, b: Text, rest: Text)
    requires c !in b
    ensures s == b + [c] + rest <==> Find(s, c) == |b| && |b| < |s| && s[..|b|] == b && s[|b| + 1..] == rest
  {
    if s == b + [c] + rest {
      FindAfter(b, c, rest);
    }
  }

  /** The writer takes any location that starts right, with or without a slash behind the bucket. */
  lemma WriterExact(location: Text, bucket: Text, prefix: Text)
    ensures
      WriterPlace(location) == Some(Place(bucket, prefix)) <==>
      && SLASH !in bucket
      && (location == Location(bucket, prefix) || (location == Ascii("s3://") + bucket && prefix == []))
  {
    hide Ascii, Find;
    var head := Ascii("s3://");
    if StartsWith(location, head) {
      var rest := location[5..];
      assert location == head + rest;
      if SLASH !in bucket {
        FoundOnce(rest, SLASH, bucket, prefix);
        NoneFound(bucket, SLASH);
      }
      if Find(rest, SLASH) == |rest| {
        assert rest[..|rest|] == rest;
      }
    }
    assert (head + (bucket + [SLASH] + prefix))[5..] == bucket + [SLASH] + prefix && (head + bucket)[5..] == bucket;
  }

  /** The pattern matches at position i, with this bucket and this text behind the slash. */
  predicate Matches(location: Text, i: nat, bucket: Text, rest: Text) {
    i <= |location| && location[i..] == Location(bucket, rest) && IsBucket(bucket)
  }

  /** The characters up to a newline or the end. */
  predicate IsFirstLine(line: Text, s: Text) {
    NEWLINE !in line && (s == line || line + [NEWLINE] <= s)
  }

  lemma FirstLineIs(line: Text, s: Text)
    ensures FirstLine(s) == line <==> IsFirstLine(line, s)
  {
    if IsFirstLine(line, s) {
      if s == line {
        NoneFound(s, NEWLINE);
      } else {
        FoundOnce(s, NEWLINE, line, s[|line| + 1..]);
        assert s == line + [NEWLINE] + s[|line| + 1..];
      }
    }
  }

  /** The pattern matches at the front in one way at most. */
  lemma MatchHere(location: Text, bucket: Text, rest: Text)
    ensures
      Matches(location, 0, bucket, rest) <==>
      && StartsWith(location, Ascii("s3://")) && 0 < Find(location[5..], SLASH) < |location| - 5
      && var i := Find(location[5..], SLASH); location[5..][..i] == bucket && location[5..][i + 1..] == rest
  {
    hide Ascii, Find;
    var head := Ascii("s3://");
    assert location[0..] == location;
    assert Location(bucket, rest)[5..] == bucket + [SLASH] + rest && Location(bucket, rest)[..5] == head;
    if StartsWith(location, head) {
      assert location == head + location[5..];
      if IsBucket(bucket) {
        FoundOnce(location[5..], SLASH, bucket, rest);
      }
    }
  }

  ghost predicate FirstMatch(location: Text, i: nat, bucket: Text, rest: Text) {
    Matches(location, i, bucket, rest) && forall j: nat, b, r :: j < i ==> !Matches(location, j, b, r)
  }

  lemma MatchLater(location: Text, i: nat, bucket: Text, rest: Text)
    requires location != [] && forall b, r :: !Matches(location, 0, b, r)
    ensures FirstMatch(location, i + 1, bucket, rest) <==> FirstMatch(location[1..], i, bucket, rest)
  {
    hide Location, IsBucket;
    var tail := location[1..];
    forall j: nat, b, r
      ensures Matches(location, j + 1, b, r) <==> Matches(tail, j, b, r)
    {
      if j + 1 <= |location| {
        assert location[j + 1..] == tail[j..];
      }
    }
    if FirstMatch(tail, i, bucket, rest) {
      forall j: nat, b, r | j < i + 1
        ensures !Matches(location, j, b, r)
      {
        if j > 0 {
          assert !Matches(tail, j - 1, b, r);
        }
      }
    }
  }

  /** The pattern matches at the front. */
  lemma ReaderHere(location: Text, bucket: Text, prefix: Text)
    requires StartsWith(location, Ascii("s3://")) && 0 < Find(location[5..], SLASH) < |location| - 5
    ensures
      ReaderPlace(location) == Some(Place(bucket, prefix)) <==>
      exists i: nat, rest :: FirstMatch(location, i, bucket, rest) && IsFirstLine(prefix, rest)
  {
    hide Ascii, Find, Matches, FirstLine, IsFirstLine;
    var k := Find(location[5..], SLASH);
    var b, r := location[5..][..k], location[5..][k + 1..];
    MatchHere(location, b, r);
    FirstLineIs(prefix, r);
    if ReaderPlace(location) == Some(Place(bucket, prefix)) {
      assert FirstMatch(location, 0, bucket, r);
    }
    forall i: nat, rest | FirstMatch(location, i, bucket, rest) && IsFirstLine(prefix, rest)
      ensures ReaderPlace(location) == Some(Place(bucket, prefix))
    {
      assert i == 0;
      MatchHere(location, bucket, rest);
    }
  }

  /** The reader takes the first match anywhere in the location, and of the text behind it the first line. */
  lemma {:induction false} ReaderExact(location: Text, bucket: Text, prefix: Text)
    ensures
      ReaderPlace(location) == Some(Place(bucket, prefix)) <==>
      exists i: nat, rest :: FirstMatch(location, i, bucket, rest) && IsFirstLine(prefix, rest)
  {
    hide Ascii, Find, Location, FirstLine, IsFirstLine, FirstMatch;
    if StartsWith(location, Ascii("s3://")) && 0 < Find(location[5..], SLASH) < |location| - 5 {
      ReaderHere(location, bucket, prefix);
    } else {
      forall b, r
        ensures !Matches(location, 0, b, r)
      {
        MatchHere(location, b, r);
      }
      NotAtFront(location, bucket);
      if location != [] {
        ReaderExact(location[1..], bucket, prefix);
        forall i: nat, rest
          ensures FirstMatch(location, i + 1, bucket, rest) <==> FirstMatch(location[1..], i, bucket, rest)
        {
          MatchLater(location, i, bucket, rest);
        }
        forall i: nat, rest | FirstMatch(location, i, bucket, rest)
          ensures FirstMatch(location[1..], i - 1, bucket, rest)
        {
          MatchLater(location, i - 1, bucket, rest);
        }
      }
    }
  }

  lemma NotAtFront(location: Text, bucket: Text)
    requires forall b, r :: !Matches(location, 0, b, r)
    ensures forall i: nat, rest :: FirstMatch(location, i, bucket, rest) ==> i > 0 && location != []
  {
    hide Location, IsBucket;
  }

  /** Writer and reader take bucket and prefix from one location alike. */
  lemma SamePlace(bucket: Text, prefix: Text)
    requires IsBucket(bucket) && NEWLINE !in prefix
    ensures WriterPlace(Location(bucket, prefix)) == Some(Place(bucket, prefix))
    ensures ReaderPlace(Location(bucket, prefix)) == Some(Place(bucket, prefix))
  {
    var rest := bucket + [SLASH] + prefix;
    FindAfter(bucket, SLASH, prefix);
    NoneFound(prefix, NEWLINE);
    assert Location(bucket, prefix)[5..] == rest && Location(bucket, prefix)[..5] == Ascii("s3://");
    assert rest[..|bucket|] == bucket && rest[|bucket| + 1..] == prefix && FirstLine(prefix) == prefix;
  }

  /** Where the objects lie: the writer puts a slash between a prefix and the file name. */
  lemma KeyIs(w: Writer, k: Suffix)
    ensures w.prefix == [] ==> Key(w, k) == FileName(w.fileStackId, k)
    ensures w.prefix != [] ==> Key(w, k) == w.prefix + Ascii("/") + FileName(w.fileStackId, k)
  {
    assert Ascii("/") == [SLASH];
    assert [] + FileName(w.fileStackId, k) == FileName(w.fileStackId, k);
  }

  /** The reader puts nothing there, so its location ends in a slash unless the prefix is empty. */
  function ReadLocation(bucket: Text, prefix: Text): Text {
    if prefix == [] then Location(bucket, []) else Location(bucket, prefix + [SLASH])
  }

  lemma ReaderFinds(bucket: Text, w: Writer, k: Suffix)
    requires IsBucket(bucket) && NEWLINE !in w.prefix
    ensures
      var place := ReaderPlace(ReadLocation(bucket, w.prefix));
      place.Some? && place.value.bucket == bucket && Path(place.value.prefix, w.fileStackId, k) == Key(w, k)
  {
    SamePlace(bucket, []);
    SamePlace(bucket, w.prefix + [SLASH]);
  }

  /** No file name under the bare prefix is one under the prefix and a slash. */
  lemma SlashBetween(prefix: Text, a: nat, k: Suffix, b: nat, l: Suffix)
    requires prefix != []
    ensures Path(prefix, a, k) != Path(KeyPrefix(prefix), b, l)
  {
    assert Path(prefix, a, k)[|prefix|] == 48;
    assert Path(KeyPrefix(prefix), b, l)[|prefix|] == SLASH;
  }

  /** So with one and the same location the reader looks where the writer wrote only without a prefix. */
  lemma SameLocation(w: Writer, k: Suffix)
    ensures Path(w.prefix, w.fileStackId, k) == Key(w, k) <==> w.prefix == []
  {
    hide FileName;
    if w.prefix != [] {
      SlashBetween(w.prefix, w.fileStackId, k, w.fileStackId, k);
    }
  }

  /** An id returned in a run is fetched by a reader at that location once the client has been given up. */
  lemma ReturnedAtLocation(run: Run, op: Op, ops: seq<Op>, bucket: Text, checkCrc: bool)
    requires IsBucket(bucket) && NEWLINE !in run.w.prefix
    requires Inv(run) && Clean(run, op) && run.logs != [] && AfterOp(run, op).1.Some?
    requires AllClean(AfterOp(run, op).0, ops)
    requires var last := AfterAll(AfterOp(run, op).0, ops);
      !last.w.client && forall s :: s in last.logs ==> |s.Data()| <= U64
    ensures
      var (last, place) := (AfterAll(AfterOp(run, op).0, ops), ReaderPlace(ReadLocation(bucket, run.w.prefix)));
      && place.Some? && place.value.bucket == bucket
      && (Fetched(last.objects, place.value.prefix, AfterOp(run, op).1.value, checkCrc) == Ok(op.r.payload)
          <==> |op.r.payload| < U32)
  {
    hide Inv, Clean, AllClean, AfterOp, AfterAll, Fetched, Stack.Data;
    SamePlace(bucket, []);
    SamePlace(bucket, run.w.prefix + [SLASH]);
    assert Ascii("/") == [SLASH];
    ReturnedIsPublished(run, op, ops, checkCrc);
  }

  // ---- one location for both ----

  /** No store holds a file under the bare prefix. */
  ghost predicate NothingBare(store: Store, prefix: Text) {
    forall id: u64 :: Path(prefix, id, Data) !in store
  }

  lemma SendingElsewhere(w: Writer, objects: Store, o: Uploads, path: Text)
    requires path !in objects && forall k: Suffix :: path != Key(w, k)
    ensures path !in LastOf(Sending(w, objects, o).0, objects)
  {
    hide Key;
  }

  lemma OpBare(run: Run, op: Op)
    requires run.logs != [] && run.w.prefix != [] && NothingBare(run.objects, run.w.prefix)
    ensures NothingBare(AfterOp(run, op).0.objects, run.w.prefix)
  {
    hide AfterOp, Visited, Sending, Path;
    OpVisits(run, op);
    forall id: u64
      ensures Path(run.w.prefix, id, Data) !in AfterOp(run, op).0.objects
    {
      if Visited(run, op) != [] {
        forall k: Suffix
          ensures Path(run.w.prefix, id, Data) != Key(run.w, k)
        {
          SlashBetween(run.w.prefix, id, Data, run.w.fileStackId, k);
        }
        SendingElsewhere(run.w, run.objects, op.o, Path(run.w.prefix, id, Data));
      }
    }
  }

  lemma {:induction false} RunBare(run: Run, ops: seq<Op>)
    requires Inv(run) && AllClean(run, ops) && run.w.prefix != [] && NothingBare(run.objects, run.w.prefix)
    ensures NothingBare(AfterAll(run, ops).objects, run.w.prefix)
    decreases |ops|
  {
    hide Inv, Clean, AfterOp, NothingBare;
    OpenThere(run);
    if ops != [] {
      OpKeeps(run, ops[0]);
      OpBare(run, ops[0]);
      RunBare(AfterOp(run, ops[0]).0, ops[1..]);
    }
  }

  lemma LocatedNowhere(store: Store, prefix: Text, logs: seq<Stack>, id: Text, payload: seq<byte>, checkCrc: bool)
    requires Located(logs, id, payload) && NothingBare(store, prefix)
    ensures Fetched(store, prefix, id, checkCrc) == Err(IOError)
  {
    hide FetchAt, PrintId, ParseId, Path, DataOff;
    var j, k :| 0 <= j < |logs| && 0 <= k < |logs[j].recs| && IsIdOf(logs[j], k, id, payload);
    var s := logs[j];
    PrintParse(IndexID(s.fileId, AsU64(DataOff(s.headerId, s.recs, k)), s.recs[k].cookie));
  }

  /**
   * A reader given the writer's own location finds no returned id in a bucket that held nothing
   * there, exactly if the location has a prefix.
   */
  lemma OneLocation(run: Run, op: Op, ops: seq<Op>, bucket: Text, checkCrc: bool)
    requires IsBucket(bucket) && NEWLINE !in run.w.prefix && NothingBare(run.objects, run.w.prefix)
    requires Inv(run) && Clean(run, op) && run.logs != [] && AfterOp(run, op).1.Some?
    requires AllClean(AfterOp(run, op).0, ops) && |op.r.payload| < U32
    requires var last := AfterAll(AfterOp(run, op).0, ops);
      !last.w.client && forall s :: s in last.logs ==> |s.Data()| <= U64
    ensures
      var (last, place) := (AfterAll(AfterOp(run, op).0, ops), ReaderPlace(Location(bucket, run.w.prefix)));
      && place == Some(Place(bucket, run.w.prefix))
      && Fetched(last.objects, run.w.prefix, AfterOp(run, op).1.value, checkCrc) ==
           if run.w.prefix == [] then Ok(op.r.payload) else Err(IOError)
  {
    hide Inv, Clean, AllClean, AfterOp, AfterAll, Fetched, Stack.Data, Extended, Located, NothingBare, Path;
    SamePlace(bucket, run.w.prefix);
    OpKeeps(run, op);
    var (next, id) := AfterOp(run, op);
    RunKeeps(next, ops);
    if run.w.prefix == [] {
      ReturnedIsPublished(run, op, ops, checkCrc);
    } else {
      OpBare(run, op);
      RunBare(next, ops);
      var last := AfterAll(next, ops);
      LocatedStays(next.logs, last.logs, id.value, op.r.payload);
      LocatedNowhere(last.objects, run.w.prefix, last.logs, id.value, op.r.payload, checkCrc);
    }
  }
}
