/** Whole runs of the local writer: what puts, rotations and the final close leave to be read. */
module LocalRun {
  import opened Bytes
  import opened Crash
  import opened IndexId
  import opened LocalWriter
  import opened Paths
  import opened ReadBack
  import opened Reader
  import opened Records
  import opened StackLog

  // ---- ids keep their meaning ----

  lemma AcceptedExtends(logs: seq<Stack>, r: Rec, limit: nat, fileId: u64, headerId: u64)
    requires logs != []
    ensures Extended(logs, Accepted(logs, r, limit, fileId, headerId))
  {
    hide RawTotal;
  }

  lemma LastAccepted(logs: seq<Stack>, r: Rec, limit: nat, fileId: u64, headerId: u64)
    requires logs != []
    ensures
      var later := Accepted(logs, r, limit, fileId, headerId);
      later != [] && Last(later).recs != [] && Last(Last(later).recs) == r
  {
    hide RawTotal;
  }

  /** An id names this payload in one of the stacks. */
  ghost predicate Located(logs: seq<Stack>, id: Text, payload: seq<byte>) {
    exists j, k :: 0 <= j < |logs| && 0 <= k < |logs[j].recs| && IsIdOf(logs[j], k, id, payload)
  }

  ghost predicate IsIdOf(s: Stack, k: nat, id: Text, payload: seq<byte>)
    requires k < |s.recs|
  {
    id == IdAt(s, k) && payload == s.recs[k].payload
  }

  lemma IdStays(s: Stack, t: Stack, k: nat)
    requires Extends(s, t) && k < |s.recs|
    ensures IdAt(t, k) == IdAt(s, k) && t.recs[k] == s.recs[k]
  {
    hide PrintId;
    assert t.recs[..k] == s.recs[..k];
  }

  /** Later puts and rotations never disturb an id. */
  lemma LocatedStays(logs: seq<Stack>, later: seq<Stack>, id: Text, payload: seq<byte>)
    requires Located(logs, id, payload) && Extended(logs, later)
    ensures Located(later, id, payload)
  {
    hide IdAt;
    var j, k :| 0 <= j < |logs| && 0 <= k < |logs[j].recs| && IsIdOf(logs[j], k, id, payload);
    IdStays(logs[j], later[j], k);
    assert IsIdOf(later[j], k, id, payload);
  }

  /** Within one directory no two records share an id. */
  lemma IdsDiffer(logs: seq<Stack>, i: nat, k: nat, j: nat, l: nat)
    requires Distinct(logs) && i < |logs| && j < |logs| && k < |logs[i].recs| && l < |logs[j].recs|
    requires |logs[i].Data()| <= U64 && |logs[j].Data()| <= U64
    ensures IdAt(logs[i], k) == IdAt(logs[j], l) <==> i == j && k == l
  {
    hide PrintId, DataOff;
    var s, t := logs[i], logs[j];
    OffsetFits(s, k);
    OffsetFits(t, l);
    PrintInjective(
      IndexID(s.fileId, AsU64(DataOff(s.headerId, s.recs, k)), s.recs[k].cookie),
      IndexID(t.fileId, AsU64(DataOff(t.headerId, t.recs, l)), t.recs[l].cookie));
    if i == j {
      OffsetsRise(s, k, l);
    }
  }

  lemma OffsetFits(s: Stack, k: nat)
    requires k < |s.recs| && |s.Data()| <= U64
    ensures AsU64(DataOff(s.headerId, s.recs, k)) == DataOff(s.headerId, s.recs, k)
  {
    hide SlotOf, DataBytes;
    SlotAt(s.headerId, s.recs, k);
  }

  lemma {:induction false} OffsetsRise(s: Stack, k: nat, l: nat)
    requires k < |s.recs| && l < |s.recs|
    ensures k < l ==> DataOff(s.headerId, s.recs, k) < DataOff(s.headerId, s.recs, l)
    ensures l < k ==> DataOff(s.headerId, s.recs, l) < DataOff(s.headerId, s.recs, k)
    decreases k + l
  {
    hide DataBytes, SlotOf;
    if k < l {
      SlotAt(s.headerId, s.recs, l - 1);
      OffsetsRise(s, k, l - 1);
    } else if l < k {
      SlotAt(s.headerId, s.recs, k - 1);
      OffsetsRise(s, k - 1, l);
    }
  }

  // ---- reading the directory ----

  lemma StoredInFull(dir: Dir, j: nat)
    requires dir.Settled() && j < |dir.logs|
    ensures Stored(Contents(dir.files), dir.prefix, dir.logs[j])
  {
    hide Path, Safe, DataBytes, MetaBytes, IdxBytes;
    var s := dir.logs[j];
    assert FileOf(dir.files, dir.prefix, s, Data).bytes == Full(s, Data);
    assert FileOf(dir.files, dir.prefix, s, Meta).bytes == Full(s, Meta);
    assert FileOf(dir.files, dir.prefix, s, Idx).bytes == Full(s, Idx);
  }

  /** Every record of a settled directory is fetched by its id exactly if it is under 2^32 bytes. */
  lemma EveryIdFetches(dir: Dir, j: nat, k: nat, checkCrc: bool)
    requires dir.Settled() && j < |dir.logs| && k < |dir.logs[j].recs| && |dir.logs[j].Data()| <= U64
    ensures Fetched(Contents(dir.files), dir.prefix, IdAt(dir.logs[j], k), checkCrc) == Ok(dir.logs[j].recs[k].payload)
            <==> |dir.logs[j].recs[k].payload| < U32
  {
    hide Path, SlotOf, Fetched, DataBytes, MetaBytes, IdxBytes, Dir.Settled, IdAt;
    StoredInFull(dir, j);
    SlotAt(dir.logs[j].headerId, dir.logs[j].recs, k);
    FetchBack(Contents(dir.files), dir.prefix, dir.logs[j], k, checkCrc);
  }

  lemma LocatedFetches(dir: Dir, id: Text, payload: seq<byte>, checkCrc: bool)
    requires dir.Settled() && Located(dir.logs, id, payload)
    requires forall j :: 0 <= j < |dir.logs| ==> |dir.logs[j].Data()| <= U64
    ensures Fetched(Contents(dir.files), dir.prefix, id, checkCrc) == Ok(payload) <==> |payload| < U32
  {
    hide Fetched, DataBytes, MetaBytes, IdxBytes, Dir.Settled, IdAt;
    var j, k :| 0 <= j < |dir.logs| && 0 <= k < |dir.logs[j].recs| && IsIdOf(dir.logs[j], k, id, payload);
    EveryIdFetches(dir, j, k, checkCrc);
  }

  /** In every reachable state each stack's raw bytes are within the limit, and its data file not far above them. */
  lemma StackBounds(w: LocalWriter, j: nat)
    requires w.Valid() && w.base <= j < |w.dir.logs|
    ensures
      var s := w.dir.logs[j];
      && RawTotal(s.recs) <= w.maxDataBytes
      && 4096 + RawTotal(s.recs) <= |s.Data()| <= 4096 + w.maxDataBytes + 4115 * |s.recs|
      && |s.Data()| % 4096 == 0
  {
    hide Dir.Settled, DataBytes, Gather;
    var s := w.dir.logs[j];
    DataSize(s.headerId, s.recs);
    DataAligned(s.headerId, s.recs);
  }

  // ---- losing power ----

  /**
   * Power may fail at any instant of a run, keeping of each file any prefix between what was
   * synced and what was written: every complete index record that survives names a slot and a
   * line that survive whole, and every line that survives, if only in part, has its slot.
   */
  lemma CrashAnyInstant(dir: Dir, i: nat, image: Store, j: nat, k: nat)
    requires dir.Valid() && i < |dir.history| && CrashImage(dir.history[i].files, image) && j < |dir.logs|
    ensures
      var (s, p) := (dir.logs[j], Path(dir.prefix, dir.logs[j].fileId, Idx));
      p in image && 16 + 28 * (k + 1) <= |image[p]| ==> k < |s.recs| && Satisfied(image, dir.prefix, s, k)
    ensures
      var (s, p) := (dir.logs[j], Path(dir.prefix, dir.logs[j].fileId, Meta));
      p in image && k < |s.recs| && MetaOff(s.headerId, s.recs, k) < |image[p]| ==>
        Holds(image, Path(dir.prefix, s.fileId, Data), DataOff(s.headerId, s.recs, k),
              DataOff(s.headerId, s.recs, k + 1), SlotOf(s.recs[k]))
  {
    hide Chain, Path, DataBytes, MetaBytes, Satisfied, Ordered, Acked, SlotOf, Holds, CrashImage;
    var s := dir.logs[j];
    assert Safe(dir.history[i], dir.prefix, dir.logs);
    CrashSafe(dir.history[i], dir.prefix, dir.logs, image, j, k, true);
    var p := Path(dir.prefix, s.fileId, Meta);
    if p in image && k < |s.recs| && MetaOff(s.headerId, s.recs, k) < |image[p]| {
      CrashKeepsLines(dir.history[i].files, dir.prefix, s, image, k);
    }
  }

  /**
   * If the surviving index of a controller-mode stack ends cleanly behind record n, the scan
   * delivers exactly the first n records and then nothing, if the sizes of all of them fit; behind
   * the bare header that takes the headers of meta and data, without which the scan does not open.
   */
  lemma CrashScan(dir: Dir, i: nat, image: Store, j: nat, n: nat)
    requires dir.Valid() && i < |dir.history| && CrashImage(dir.history[i].files, image)
    requires j < |dir.logs| && dir.logs[j].headerId == dir.logs[j].fileId
    requires Path(dir.prefix, dir.logs[j].fileId, Idx) in image
    requires |image[Path(dir.prefix, dir.logs[j].fileId, Idx)]| == 16 + INDEX_SIZE * n
    ensures
      var (s, scan) := (dir.logs[j], Opened(image, dir.prefix, dir.logs[j].fileId));
      && n <= |s.recs|
      && if n > 0 || HeadersThere(image, dir.prefix, s)
         then scan.Ok? && (Drain(scan.value, n + 1) == ItemsFrom(s, 0, n) + [Nothing] <==>
                           forall l :: 0 <= l < n ==> Sized(s, l))
         else scan == Err(IOError)
  {
    hide Chain, Path, DataBytes, MetaBytes, IdxBytes, Opened, Drain, ItemsFrom, Sized, Reaches, Acked, CrashImage,
      Ordered, HeadersThere;
    var s := dir.logs[j];
    assert Safe(dir.history[i], dir.prefix, dir.logs);
    CutByCrash(dir.history[i].files, dir.prefix, s, image, n);
    if n > 0 || HeadersThere(image, dir.prefix, s) {
      ScanTorn(image, dir.prefix, s, n);
    } else {
      ScanOpens(image, dir.prefix, s, n);
    }
  }

  /** What a crash leaves of one file, where it begins like another. */
  lemma FileByCrash(files: Files, image: Store, path: Text, full: seq<byte>)
    requires CrashImage(files, image) && At(files, path).bytes <= full
    ensures path in image <==> path in files
    ensures path in image ==> At(files, path).synced <= |image[path]| <= |At(files, path).bytes| && image[path] <= full
  {
    if path in image {
      assert image[path] <= files[path].bytes;
      PrefixThrough(image[path], files[path].bytes, full);
    }
  }

  lemma PrefixThrough(a: seq<byte>, b: seq<byte>, c: seq<byte>)
    requires a <= b <= c
    ensures a <= c
  {
  }

  lemma OffsetsPositive(s: Stack, n: nat)
    requires 0 < n <= |s.recs|
    ensures DataOff(s.headerId, s.recs, n) > 0 && MetaOff(s.headerId, s.recs, n) > 0
  {
    hide DataOff, MetaOff;
    PositiveOffsets(s.headerId, s.recs, n - 1);
  }

  lemma OrderedParts(files: Files, prefix: Text, s: Stack)
    requires Ordered(files, prefix, s)
    ensures At(files, Path(prefix, s.fileId, Data)).bytes <= s.Data()
    ensures At(files, Path(prefix, s.fileId, Meta)).bytes <= s.Meta()
    ensures At(files, Path(prefix, s.fileId, Idx)).bytes <= s.Index()
  {
    hide Path, DataBytes, MetaBytes, IdxBytes, DataOff, MetaOff;
  }

  lemma OrderedUpTo(files: Files, prefix: Text, s: Stack, n: nat)
    requires Ordered(files, prefix, s) && 0 < n <= |s.recs|
    requires 16 + INDEX_SIZE * n <= |At(files, Path(prefix, s.fileId, Idx)).bytes|
    ensures DataOff(s.headerId, s.recs, n) <= At(files, Path(prefix, s.fileId, Data)).synced
    ensures MetaOff(s.headerId, s.recs, n) <= At(files, Path(prefix, s.fileId, Meta)).synced
  {
    hide Path, DataBytes, MetaBytes, IdxBytes, DataOff, MetaOff;
  }

  /** What a crash leaves of the three files of a stack. */
  lemma CutByCrash(files: Files, prefix: Text, s: Stack, image: Store, n: nat)
    requires Ordered(files, prefix, s) && CrashImage(files, image)
    requires Path(prefix, s.fileId, Idx) in image
    requires |image[Path(prefix, s.fileId, Idx)]| == 16 + INDEX_SIZE * n
    ensures n <= |s.recs| && image[Path(prefix, s.fileId, Idx)] <= s.Index()
    ensures n > 0 || (HeadersThere(image, prefix, s) && s.headerId == s.fileId) ==>
      && Path(prefix, s.fileId, Meta) in image && Path(prefix, s.fileId, Data) in image
      && Reaches(s, n, image[Path(prefix, s.fileId, Meta)], image[Path(prefix, s.fileId, Data)])
  {
    hide Path, DataBytes, MetaBytes, IdxBytes, CrashImage, DataOff, MetaOff, Ordered, HeadersThere, Reaches, At,
      Stack.Data, Stack.Meta, Stack.Index;
    var (m, d, i) := (Path(prefix, s.fileId, Meta), Path(prefix, s.fileId, Data), Path(prefix, s.fileId, Idx));
    OrderedParts(files, prefix, s);
    FileByCrash(files, image, m, s.Meta());
    FileByCrash(files, image, d, s.Data());
    FileByCrash(files, image, i, s.Index());
    assert image[i] <= s.Index() && |image[i]| <= |s.Index()|;
    EntriesWithin(s, n, |image[i]|);
    if n > 0 {
      OrderedUpTo(files, prefix, s, n);
      OffsetsPositive(s, n);
      assert At(files, d) != EMPTY && At(files, m) != EMPTY;
      StillThere(files, d);
      StillThere(files, m);
      ReachesAt(s, n, image[m], image[d]);
    } else if HeadersThere(image, prefix, s) && s.headerId == s.fileId {
      HeadersIn(prefix, s, image);
      HeadersReach(prefix, s, image);
    }
  }

  lemma HeadersIn(prefix: Text, s: Stack, image: Store)
    requires HeadersThere(image, prefix, s)
    ensures Path(prefix, s.fileId, Meta) in image && Path(prefix, s.fileId, Data) in image
  {
    hide Path;
  }

  lemma EntriesWithin(s: Stack, n: nat, length: nat)
    requires length == 16 + INDEX_SIZE * n && length <= |s.Index()|
    ensures n <= |s.recs|
  {
    hide IdxBytes;
  }

  lemma StillThere(files: Files, path: Text)
    ensures At(files, path) != EMPTY ==> path in files
  {
  }

  lemma ReachesAt(s: Stack, n: nat, meta: seq<byte>, data: seq<byte>)
    requires n <= |s.recs| && meta <= s.Meta() && data <= s.Data()
    requires MetaOff(s.headerId, s.recs, n) <= |meta| && DataOff(s.headerId, s.recs, n) <= |data|
    ensures Reaches(s, n, meta, data)
  {
  }

  lemma HeadersReach(prefix: Text, s: Stack, image: Store)
    requires HeadersThere(image, prefix, s) && s.headerId == s.fileId
    requires image[Path(prefix, s.fileId, Meta)] <= s.Meta() && image[Path(prefix, s.fileId, Data)] <= s.Data()
    ensures Path(prefix, s.fileId, Meta) in image && Path(prefix, s.fileId, Data) in image
    ensures Reaches(s, 0, image[Path(prefix, s.fileId, Meta)], image[Path(prefix, s.fileId, Data)])
  {
    hide Path, DataBytes, MetaBytes, DataOff, MetaOff;
    StartOfFiles(s);
  }

  /** Once put has returned an id, no crash at any later instant loses its payload. */
  lemma ReturnedSurvives(dir: Dir, i: nat, l: nat, image: Store, id: Text, payload: seq<byte>, checkCrc: bool)
    requires dir.Valid() && i <= l < |dir.history| && CrashImage(dir.history[l].files, image)
    requires Located(dir.history[i].acked, id, payload)
    requires forall j :: 0 <= j < |dir.logs| ==> |dir.logs[j].Data()| <= U64
    ensures Fetched(image, dir.prefix, id, checkCrc) == Ok(payload) <==> |payload| < U32
  {
    hide Path, SlotOf, DataBytes, Satisfied, Ordered, Fetched, Extended, Located, CrashImage, IdAt, Durable, Distinct;
    var h := dir.history[l];
    assert Safe(h, dir.prefix, dir.logs);
    LocatedStays(dir.history[i].acked, h.acked, id, payload);
    LocatedSurvives(dir.prefix, dir.logs, h, image, id, payload, checkCrc);
  }

  lemma LocatedSurvives(prefix: Text, logs: seq<Stack>, h: Snapshot, image: Store, id: Text, payload: seq<byte>,
                        checkCrc: bool)
    requires Safe(h, prefix, logs) && CrashImage(h.files, image) && Located(h.acked, id, payload)
    requires forall j :: 0 <= j < |logs| ==> |logs[j].Data()| <= U64
    ensures Fetched(image, prefix, id, checkCrc) == Ok(payload) <==> |payload| < U32
  {
    hide Path, SlotOf, DataBytes, Satisfied, Ordered, Fetched, CrashImage, IdAt, Durable;
    var j, k :| 0 <= j < |h.acked| && 0 <= k < |h.acked[j].recs| && IsIdOf(h.acked[j], k, id, payload);
    assert Extends(h.acked[j], logs[j]);
    SlotAt(logs[j].headerId, logs[j].recs, k);
    assert h.acked[j].recs[..k] == logs[j].recs[..k];
    CrashSafe(h, prefix, logs, image, j, k, checkCrc);
  }

  // ---- a run ----

  /** One call of put: its arguments, and what the random source, the clock and the controller give it. */
  datatype Request = Request(data: seq<byte>, filename: Text, extra: Option<seq<byte>>, cookie: u32, now: u64,
                             reply: Option<u64>, clock: u64, disk: Disk)

  ghost predicate Answered(logs: seq<Stack>, q: Request, r: PutResult) {
    r.PutOk? ==> Located(logs, r.id, q.data)
  }

  lemma PutLocates(logs: seq<Stack>, q: Request, r: PutResult)
    requires r.PutOk? && logs != [] && Last(logs).recs != [] && Last(Last(logs).recs).payload == q.data
    requires r.id == IdAt(Last(logs), |Last(logs).recs| - 1)
    ensures Answered(logs, q, r)
  {
    hide IdAt;
    assert IsIdOf(logs[|logs| - 1], |Last(logs).recs| - 1, r.id, q.data);
  }

  lemma AnswersStay(logs: seq<Stack>, later: seq<Stack>, qs: seq<Request>, rs: seq<PutResult>)
    requires Extended(logs, later) && |qs| == |rs|
    requires forall i :: 0 <= i < |rs| ==> Answered(logs, qs[i], rs[i])
    ensures forall i :: 0 <= i < |rs| ==> Answered(later, qs[i], rs[i])
  {
    hide Extended, Located;
    forall i | 0 <= i < |rs|
      ensures Answered(later, qs[i], rs[i])
    {
      assert Answered(logs, qs[i], rs[i]);
      if rs[i].PutOk? {
        LocatedStays(logs, later, rs[i].id, qs[i].data);
      }
    }
  }

  lemma AnswersFetch(dir: Dir, qs: seq<Request>, rs: seq<PutResult>, checkCrc: bool)
    requires dir.Settled() && |qs| == |rs|
    requires forall i :: 0 <= i < |rs| ==> Answered(dir.logs, qs[i], rs[i])
    requires forall j :: 0 <= j < |dir.logs| ==> |dir.logs[j].Data()| <= U64
    ensures forall i :: 0 <= i < |rs| && rs[i].PutOk? ==>
      (Fetched(Contents(dir.files), dir.prefix, rs[i].id, checkCrc) == Ok(qs[i].data) <==> |qs[i].data| < U32)
  {
    hide Fetched, Located, Dir.Settled, DataBytes;
    forall i | 0 <= i < |rs| && rs[i].PutOk?
      ensures Fetched(Contents(dir.files), dir.prefix, rs[i].id, checkCrc) == Ok(qs[i].data) <==> |qs[i].data| < U32
    {
      assert Answered(dir.logs, qs[i], rs[i]);
      LocatedFetches(dir, rs[i].id, qs[i].data, checkCrc);
    }
  }

  lemma ValidSettled(w: LocalWriter)
    requires w.Valid()
    ensures w.dir.Settled() && Last(w.dir.history).acked == w.dir.logs
  {
  }

  method PutOne(w: LocalWriter, q: Request) returns (r: PutResult)
    requires w.Valid() && q.clock + |w.dir.files| < U64
    modifies w, w.dir
    ensures w.Valid() && old(w.dir.history) <= w.dir.history && |w.dir.files| <= |old(w.dir.files)| + 3
    ensures Extended(old(w.dir.logs), w.dir.logs) && Answered(w.dir.logs, q, r)
    ensures r.PutOk? <==> old(w.Puts(|q.data|, q.reply, q.clock, q.disk))
    ensures r == StackFull <==> old(w.Writable()) && |q.data| > w.maxDataBytes
    ensures r == StackFull ==> unchanged(w) && unchanged(w.dir)
    ensures r.PutOk? ==> w.Writable()
    ensures Spares(old(w.dir.files), w.dir.files, w.dir.prefix,
                   old(w.Newest()) + NewStacks(old(w.dir.files), w.dir.prefix, w.controller, q.reply, q.clock))
  {
    hide Located, Extended, Dir.Settled, IdAt, DataBytes, Greedy, Gather, Accepted, LocalWriter.Shows, Spares;
    ghost var logs := w.dir.logs;
    r := w.Put(q.data, q.filename, q.extra, q.cookie, q.now, q.reply, q.clock, q.disk);
    if r.PutOk? {
      ghost var rec := Rec(q.cookie, q.data, q.now, q.filename, if q.extra.Some? then q.extra.value else []);
      AcceptedExtends(logs, rec, w.maxDataBytes, w.fileStackId, w.headerStackId);
      w.OpenWrites();
      LastAccepted(logs, rec, w.maxDataBytes, w.fileStackId, w.headerStackId);
      PutLocates(w.dir.logs, q, r);
    } else {
      SameExtends(logs);
    }
  }

  /** The controller answers each request with an id of its own that names no file, and the disk works. */
  ghost predicate Provided(files: Files, prefix: Text, qs: seq<Request>) {
    && (forall i :: 0 <= i < |qs| ==>
          qs[i].disk == GOOD_DISK && qs[i].reply.Some? && AllFree(files, prefix, qs[i].reply.value))
    && forall i, j :: 0 <= i < j < |qs| ==> qs[i].reply != qs[j].reply
  }

  lemma ProvidedPuts(w: LocalWriter, qs: seq<Request>)
    requires w.Writable() && w.controller && qs != [] && Provided(w.dir.files, w.dir.prefix, qs)
    ensures w.Puts(|qs[0].data|, qs[0].reply, qs[0].clock, qs[0].disk) <==> |qs[0].data| <= w.maxDataBytes
  {
    hide AllFree, Path;
  }

  lemma NewestThere(w: LocalWriter)
    requires w.Valid()
    ensures There(w.dir.files, w.dir.prefix, w.Newest())
  {
    hide Path, Chain, Safe, AllWritten, Greedy, Gather, LocalWriter.Shows;
  }

  ghost predicate There(files: Files, prefix: Text, ids: iset<u64>) {
    forall id, k: Suffix :: id in ids ==> Path(prefix, id, k) in files
  }

  /** A put touches no file of a stack still to be opened. */
  lemma StaysProvided(w: LocalWriter, files: Files, newest: iset<u64>, qs: seq<Request>)
    requires w.controller && qs != [] && Provided(files, w.dir.prefix, qs)
    requires Spares(files, w.dir.files, w.dir.prefix,
                    newest + NewStacks(files, w.dir.prefix, w.controller, qs[0].reply, qs[0].clock))
    requires There(files, w.dir.prefix, newest)
    ensures Provided(w.dir.files, w.dir.prefix, qs[1..])
  {
    hide Path;
    var prefix := w.dir.prefix;
    var ids := newest + NewStacks(files, prefix, w.controller, qs[0].reply, qs[0].clock);
    forall i, k: Suffix | 1 <= i < |qs|
      ensures Path(prefix, qs[i].reply.value, k) !in w.dir.files
    {
      var id := qs[i].reply.value;
      if OfStacks(prefix, ids, Path(prefix, id, k)) {
        var j, l: Suffix :| j in ids && Path(prefix, id, k) == Path(prefix, j, l);
        PathInjective(prefix, id, k, j, l);
      }
    }
  }

  /**
   * Any sequence of puts, with whatever rotations and failures of them they meet, and then close:
   * every id returned is fetched from the directory as exactly its payload, if under 2^32 bytes.
   * With a working disk, and a controller whose ids name no file yet, an open writer answers every
   * payload within the limit.
   */
  method PutAllAndClose(w: LocalWriter, qs: seq<Request>, disk: Disk) returns (rs: seq<PutResult>, closed: bool)
    requires w.Valid()
    requires forall q :: q in qs ==> q.clock + |w.dir.files| + 3 * |qs| < U64
    modifies w, w.dir
    ensures w.Valid() && (closed <==> w.Closed()) && |rs| == |qs|
    ensures old(w.Writable() && w.controller && Provided(w.dir.files, w.dir.prefix, qs)) ==>
      && (forall i :: 0 <= i < |rs| ==> (rs[i].PutOk? <==> |qs[i].data| <= w.maxDataBytes))
      && (closed <==> disk.data && disk.meta && disk.index)
    ensures Extended(old(w.dir.logs), w.dir.logs) && old(w.dir.history) <= w.dir.history
    ensures (forall j :: 0 <= j < |w.dir.logs| ==> |w.dir.logs[j].Data()| <= U64) ==>
      forall i, checkCrc :: 0 <= i < |rs| && rs[i].PutOk? ==>
        (Fetched(Contents(w.dir.files), w.dir.prefix, rs[i].id, checkCrc) == Ok(qs[i].data) <==> |qs[i].data| < U32)
  {
    hide Fetched, Located, Extended, LocalWriter.Valid, LocalWriter.Puts, Dir.Settled, DataBytes, Answered, Provided,
      Spares, NewStacks, There, LocalWriter.Newest;
    rs := [];
    ghost var provided := w.Writable() && w.controller && Provided(w.dir.files, w.dir.prefix, qs);
    assert qs[0..] == qs;
    SameExtends(w.dir.logs);
    while |rs| < |qs|
      invariant |rs| <= |qs| && w.Valid()
      invariant |w.dir.files| <= |old(w.dir.files)| + 3 * |rs|
      invariant Extended(old(w.dir.logs), w.dir.logs) && old(w.dir.history) <= w.dir.history
      invariant forall i :: 0 <= i < |rs| ==> Answered(w.dir.logs, qs[i], rs[i])
      invariant provided ==> w.controller && w.Writable() && Provided(w.dir.files, w.dir.prefix, qs[|rs|..])
      invariant provided ==> forall i :: 0 <= i < |rs| ==> (rs[i].PutOk? <==> |qs[i].data| <= w.maxDataBytes)
    {
      var q := qs[|rs|];
      ghost var logs, files, newest, rest := w.dir.logs, w.dir.files, w.Newest(), qs[|rs|..];
      NewestThere(w);
      if provided {
        ProvidedPuts(w, rest);
      }
      var r := PutOne(w, q);
      if provided {
        StaysProvided(w, files, newest, rest);
        assert rest[1..] == qs[|rs| + 1..];
      }
      AnswersStay(logs, w.dir.logs, qs[..|rs|], rs);
      ExtendedThrough(old(w.dir.logs), logs, w.dir.logs);
      rs := rs + [r];
    }
    closed := w.Close(disk);
    if forall j :: 0 <= j < |w.dir.logs| ==> |w.dir.logs[j].Data()| <= U64 {
      ValidSettled(w);
      AnswersFetch(w.dir, qs, rs, true);
      AnswersFetch(w.dir, qs, rs, false);
    }
  }
}
