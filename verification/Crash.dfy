/**
 * Files on a disk that can lose power. Each file has a synced length; a crash keeps any prefix
 * between it and what was written, independently per file.
 */
module Crash {
  import opened Bytes
  import opened MetaJson
  import opened MetaRoundTrip
  import opened Paths
  import opened ReadBack
  import opened Reader
  import opened Records
  import opened StackLog

  datatype DiskFile = DiskFile(bytes: seq<byte>, synced: nat)

  type Files = map<Text, DiskFile>

  const EMPTY := DiskFile([], 0)

  function At(files: Files, path: Text): DiskFile {
    if path in files then files[path] else EMPTY
  }

  function FileOf(files: Files, prefix: Text, s: Stack, k: Suffix): DiskFile {
    At(files, Path(prefix, s.fileId, k))
  }

  /** What a running system would read: everything written. */
  function Contents(files: Files): Store {
    map p | p in files :: files[p].bytes
  }

  /** What may be found after a crash. */
  ghost predicate CrashImage(files: Files, image: Store) {
    && image.Keys == files.Keys
    && forall p :: p in files ==>
         files[p].synced <= |image[p]| && image[p] <= files[p].bytes
  }

  /** How much of each file may be kept: all that was synced, and no more than was written. */
  ghost predicate MayKeep(files: Files, kept: map<Text, nat>) {
    kept.Keys == files.Keys && forall p :: p in files ==> files[p].synced <= kept[p] <= |files[p].bytes|
  }

  function Beginnings(files: Files, kept: map<Text, nat>): Store {
    map p | p in files && p in kept && kept[p] <= |files[p].bytes| :: files[p].bytes[..kept[p]]
  }

  /** Each file keeps any beginning of it that holds what was synced, whatever the others keep. */
  lemma CrashImages(files: Files, image: Store)
    ensures CrashImage(files, image) <==> exists kept :: MayKeep(files, kept) && image == Beginnings(files, kept)
  {
    if CrashImage(files, image) {
      var kept: map<Text, nat> := map p | p in image :: |image[p]|;
      assert MayKeep(files, kept);
      forall p | p in files
        ensures p in Beginnings(files, kept) && Beginnings(files, kept)[p] == image[p]
      {
        Beginning(image[p], files[p].bytes);
      }
      assert image.Keys == Beginnings(files, kept).Keys;
    }
  }

  lemma Beginning(a: seq<byte>, b: seq<byte>)
    requires a <= b
    ensures b[..|a|] == a
  {
  }

  /**
   * The three files are beginnings of a stack's files. Whenever the meta file reaches into line k,
   * slot k is already durable, and whenever the index file reaches past record k, both are.
   */
  ghost predicate OrderedFiles(d: DiskFile, m: DiskFile, i: DiskFile, s: Stack) {
    && d.bytes <= s.Data() && m.bytes <= s.Meta() && i.bytes <= s.Index()
    && d.synced <= |d.bytes| && m.synced <= |m.bytes| && i.synced <= |i.bytes|
    && (forall k :: 0 <= k < |s.recs| && MetaOff(s.headerId, s.recs, k) < |m.bytes| ==>
          DataOff(s.headerId, s.recs, k + 1) <= d.synced)
    && forall k :: 0 < k <= |s.recs| && 16 + INDEX_SIZE * k <= |i.bytes| ==>
         DataOff(s.headerId, s.recs, k) <= d.synced && MetaOff(s.headerId, s.recs, k) <= m.synced
  }

  ghost predicate Ordered(files: Files, prefix: Text, s: Stack) {
    OrderedFiles(FileOf(files, prefix, s, Data), FileOf(files, prefix, s, Meta), FileOf(files, prefix, s, Idx), s)
  }

  /** The index entries of all of the stack's records are durable. */
  ghost predicate Durable(files: Files, prefix: Text, s: Stack) {
    s.recs != [] ==> |s.Index()| <= FileOf(files, prefix, s, Idx).synced
  }

  // ---- what an ordered disk promises ----

  /** The bytes of one object from l up to h are exactly these. */
  predicate Holds(store: Store, path: Text, l: nat, h: nat, bytes: seq<byte>) {
    path in store && l <= h <= |store[path]| && store[path][l..h] == bytes
  }

  /** Record k of s is whole in the store: its index entry, its slot and its line, where they belong. */
  ghost predicate Satisfied(store: Store, prefix: Text, s: Stack, k: nat)
    requires k < |s.recs|
  {
    var id, rs, d := s.headerId, s.recs, DataOff(s.headerId, s.recs, k);
    && Holds(store, Path(prefix, s.fileId, Idx), 16 + 28 * k, 16 + 28 * (k + 1), EncodeIndex(EntryAt(id, rs, k)))
    && Holds(store, Path(prefix, s.fileId, Data), d, DataOff(id, rs, k + 1), SlotOf(rs[k]))
    && Holds(store, Path(prefix, s.fileId, Meta), MetaOff(id, rs, k), MetaOff(id, rs, k + 1), Line(rs[k], d))
  }

  /** A satisfied record reads back: its entry decodes, its line parses, its id fetches. */
  lemma SatisfiedReads(store: Store, prefix: Text, s: Stack, k: nat, checkCrc: bool)
    requires k < |s.recs| && Satisfied(store, prefix, s, k)
    requires DataOff(s.headerId, s.recs, k) < U64
    ensures
      var i, m, d := Path(prefix, s.fileId, Idx), Path(prefix, s.fileId, Meta), DataOff(s.headerId, s.recs, k);
      && DecodeIndex(store[i][16 + 28 * k..16 + 28 * (k + 1)]) == EntryOf(s.recs[k], d, MetaOff(s.headerId, s.recs, k))
      && ParseRecord(store[m][MetaOff(s.headerId, s.recs, k)..MetaOff(s.headerId, s.recs, k + 1)]) ==
           Some(MetaOf(s.recs[k], d))
    ensures Fetched(store, prefix, IdAt(s, k), checkCrc) == Ok(s.recs[k].payload) <==> |s.recs[k].payload| < U32
  {
    hide Path, Fetched, EntryAt, SlotOf, DataBytes, MetaBytes, IdxBytes, EncodeIndex, DecodeIndex, ParseRecord,
      RecordLine;
    IndexRoundTrip(EntryAt(s.headerId, s.recs, k));
    EntryIs(s.headerId, s.recs, k);
    RecordRoundTrip(MetaOf(s.recs[k], DataOff(s.headerId, s.recs, k)));
    SlotAt(s.headerId, s.recs, k);
    FetchBack(store, prefix, s, k, checkCrc);
  }

  lemma SliceOfPrefix(a: seq<byte>, b: seq<byte>, l: nat, h: nat)
    requires a <= b && l <= h <= |a|
    ensures a[l..h] == b[l..h]
  {
  }

  /**
   * In every crash image of an ordered disk, every complete 28-byte record in the surviving index
   * names a slot and a line that survive whole.
   */
  lemma CrashKeepsOrder(files: Files, prefix: Text, s: Stack, image: Store, k: nat)
    requires Ordered(files, prefix, s) && CrashImage(files, image)
    requires Path(prefix, s.fileId, Idx) in image
    requires 16 + 28 * (k + 1) <= |image[Path(prefix, s.fileId, Idx)]|
    ensures k < |s.recs| && Satisfied(image, prefix, s, k)
  {
    hide Path, EntryAt, SlotOf, Line, DataBytes, MetaBytes, IdxBytes, EncodeIndex, DecodeIndex;
    var d, m, i := Path(prefix, s.fileId, Data), Path(prefix, s.fileId, Meta), Path(prefix, s.fileId, Idx);
    var id, rs := s.headerId, s.recs;
    assert DataOff(id, rs, k + 1) <= files[d].synced && MetaOff(id, rs, k + 1) <= files[m].synced by {
      PositiveOffsets(id, rs, k);
    }
    CodeAt(id, rs, k);
    SliceOfPrefix(image[i], s.Index(), 16 + 28 * k, 16 + 28 * (k + 1));
    SlotAt(id, rs, k);
    SliceOfPrefix(image[d], s.Data(), DataOff(id, rs, k), DataOff(id, rs, k + 1));
    LineAt(id, rs, k);
    SliceOfPrefix(image[m], s.Meta(), MetaOff(id, rs, k), MetaOff(id, rs, k + 1));
  }

  /** And every line that survives, whole or in part, has its slot. */
  lemma CrashKeepsLines(files: Files, prefix: Text, s: Stack, image: Store, k: nat)
    requires Ordered(files, prefix, s) && CrashImage(files, image) && k < |s.recs|
    requires Path(prefix, s.fileId, Meta) in image
    requires MetaOff(s.headerId, s.recs, k) < |image[Path(prefix, s.fileId, Meta)]|
    ensures Holds(image, Path(prefix, s.fileId, Data), DataOff(s.headerId, s.recs, k),
                  DataOff(s.headerId, s.recs, k + 1), SlotOf(s.recs[k]))
  {
    hide Path, SlotOf, DataBytes, MetaBytes, IdxBytes;
    var (d, id, rs) := (Path(prefix, s.fileId, Data), s.headerId, s.recs);
    assert DataOff(id, rs, k + 1) <= files[d].synced by {
      PositiveOffsets(id, rs, k);
    }
    SlotAt(id, rs, k);
    SliceOfPrefix(image[d], s.Data(), DataOff(id, rs, k), DataOff(id, rs, k + 1));
  }

  lemma PositiveOffsets(id: u64, rs: seq<Rec>, k: nat)
    requires k < |rs|
    ensures DataOff(id, rs, k + 1) > 0 && MetaOff(id, rs, k + 1) > 0
  {
    SlotAt(id, rs, k);
    LineAt(id, rs, k);
  }

  /** An id returned before the crash still fetches its payload afterwards. */
  lemma AckedSurvives(files: Files, prefix: Text, s: Stack, t: Stack, image: Store, k: nat, checkCrc: bool)
    requires Extends(s, t) && Ordered(files, prefix, t) && Durable(files, prefix, s)
    requires CrashImage(files, image) && k < |s.recs|
    requires DataOff(s.headerId, s.recs, k) < U64
    ensures Satisfied(image, prefix, t, k)
    ensures Fetched(image, prefix, IdAt(s, k), checkCrc) == Ok(s.recs[k].payload) <==> |s.recs[k].payload| < U32
  {
    hide Path, Fetched, Satisfied, DataBytes, MetaBytes, IdxBytes, DecodeIndex, ParseRecord;
    var i := Path(prefix, s.fileId, Idx);
    assert 16 + 28 * (k + 1) <= |s.Index()| <= files[i].synced <= |image[i]|;
    CrashKeepsOrder(files, prefix, t, image, k);
    assert s.recs[..k] == t.recs[..k];
    SatisfiedReads(image, prefix, t, k, checkCrc);
  }

  // ---- steps that keep a disk ordered ----

  lemma StillPrefix(s: Stack, r: Rec)
    ensures s.Data() <= s.With(r).Data() && s.Meta() <= s.With(r).Meta() && s.Index() <= s.With(r).Index()
    ensures forall k :: 0 <= k <= |s.recs| ==> s.With(r).recs[..k] == s.recs[..k]
  {
    hide DataBytes, MetaBytes, IdxBytes;
    assert s.With(r).recs[..|s.recs|] == s.recs;
    FilesGrow(s.headerId, s.With(r).recs, |s.recs|);
  }

  /** Planning one more record leaves the disk ordered: its index entry is not there yet. */
  lemma PlanRecord(d: DiskFile, m: DiskFile, i: DiskFile, s: Stack, r: Rec)
    requires OrderedFiles(d, m, i, s)
    ensures OrderedFiles(d, m, i, s.With(r))
  {
    hide DataBytes, MetaBytes, IdxBytes;
    StillPrefix(s, r);
    var t := s.With(r);
    forall k | 0 <= k < |t.recs| && MetaOff(t.headerId, t.recs, k) < |m.bytes|
      ensures DataOff(t.headerId, t.recs, k + 1) <= d.synced
    {
      assert |m.bytes| <= |s.Meta()|;
      assert t.recs[..|s.recs|] == s.recs;
      assert k < |s.recs|;
      assert t.recs[..k] == s.recs[..k];
      assert MetaOff(t.headerId, t.recs, k) == MetaOff(s.headerId, s.recs, k);
      assert t.recs[..k + 1] == s.recs[..k + 1];
      assert DataOff(t.headerId, t.recs, k + 1) == DataOff(s.headerId, s.recs, k + 1);
    }
    forall k | 0 < k <= |t.recs| && 16 + INDEX_SIZE * k <= |i.bytes|
      ensures DataOff(t.headerId, t.recs, k) <= d.synced && MetaOff(t.headerId, t.recs, k) <= m.synced
    {
      assert |i.bytes| <= |s.Index()|;
      assert k <= |s.recs|;
      assert t.recs[..k] == s.recs[..k];
      assert DataOff(t.headerId, t.recs, k) == DataOff(s.headerId, s.recs, k) <= d.synced;
      assert MetaOff(t.headerId, t.recs, k) == MetaOff(s.headerId, s.recs, k) <= m.synced;
    }
  }

  /** Every file of the first is in the second, with at least its bytes and at least as much synced. */
  ghost predicate Grown(files: Files, later: Files) {
    forall p :: p in files ==>
      p in later && files[p].bytes <= later[p].bytes && files[p].synced <= later[p].synced
  }

  /** The disk at one instant, and the stacks whose ids had been returned by then. */
  datatype Snapshot = Snapshot(files: Files, acked: seq<Stack>)

  ghost predicate Acked(h: Snapshot, prefix: Text, logs: seq<Stack>) {
    && |h.acked| <= |logs|
    && forall j :: 0 <= j < |h.acked| ==> Extends(h.acked[j], logs[j]) && Durable(h.files, prefix, h.acked[j])
  }

  /** A crash at this instant is harmless: every stack is ordered and everything returned is durable. */
  ghost predicate Safe(h: Snapshot, prefix: Text, logs: seq<Stack>) {
    && (forall j :: 0 <= j < |logs| ==> Ordered(h.files, prefix, logs[j]))
    && Acked(h, prefix, logs)
  }

  /** Every stack is still there, with at least its records. */
  ghost predicate Extended(logs: seq<Stack>, later: seq<Stack>) {
    |logs| <= |later| && forall j :: 0 <= j < |logs| ==> Extends(logs[j], later[j])
  }

  lemma SameExtends(logs: seq<Stack>)
    ensures Extended(logs, logs)
  {
  }

  lemma ExtendedThrough(a: seq<Stack>, b: seq<Stack>, c: seq<Stack>)
    requires Extended(a, b) && Extended(b, c)
    ensures Extended(a, c)
  {
    forall j | 0 <= j < |a|
      ensures Extends(a[j], c[j])
    {
      assert Extends(a[j], b[j]) && Extends(b[j], c[j]);
    }
  }

  /** What has been returned stays returned. */
  ghost predicate Chain(history: seq<Snapshot>) {
    forall i, j :: 0 <= i <= j < |history| ==> Extended(history[i].acked, history[j].acked)
  }

  lemma ChainGrows(history: seq<Snapshot>, h: Snapshot)
    requires Chain(history) && history != [] && Extended(Last(history).acked, h.acked)
    ensures Chain(history + [h])
  {
    hide Extended;
    forall i, j | 0 <= i <= j < |history + [h]|
      ensures Extended((history + [h])[i].acked, (history + [h])[j].acked)
    {
      if i == |history| {
        SameExtends(h.acked);
      } else if j == |history| {
        ExtendedThrough(history[i].acked, Last(history).acked, h.acked);
      }
    }
  }

  ghost predicate Distinct(logs: seq<Stack>) {
    forall i, j :: 0 <= i < j < |logs| ==> logs[i].fileId != logs[j].fileId
  }

  /**
   * What a crash at any instant of a run leaves: each returned id fetches its payload, and each
   * complete index record is satisfied.
   */
  lemma CrashSafe(h: Snapshot, prefix: Text, logs: seq<Stack>, image: Store, j: nat, k: nat, checkCrc: bool)
    requires Safe(h, prefix, logs) && CrashImage(h.files, image)
    requires j < |logs|
    ensures
      var i := Path(prefix, logs[j].fileId, Idx);
      i in image && 16 + 28 * (k + 1) <= |image[i]| ==> k < |logs[j].recs| && Satisfied(image, prefix, logs[j], k)
    ensures
      j < |h.acked| && k < |h.acked[j].recs| && DataOff(h.acked[j].headerId, h.acked[j].recs, k) < U64 ==>
      (Fetched(image, prefix, IdAt(h.acked[j], k), checkCrc) == Ok(h.acked[j].recs[k].payload) <==>
       |h.acked[j].recs[k].payload| < U32)
  {
    hide Ordered, Durable, Satisfied, Fetched, IdAt, DataOff;
    var i := Path(prefix, logs[j].fileId, Idx);
    if i in image && 16 + 28 * (k + 1) <= |image[i]| {
      CrashKeepsOrder(h.files, prefix, logs[j], image, k);
    }
    if j < |h.acked| && k < |h.acked[j].recs| && DataOff(h.acked[j].headerId, h.acked[j].recs, k) < U64 {
      AckedSurvives(h.files, prefix, h.acked[j], logs[j], image, k, checkCrc);
    }
  }

  /** Planning a record for stack j keeps every instant so far safe. */
  lemma PlanKeepsSafe(h: Snapshot, prefix: Text, logs: seq<Stack>, j: nat, r: Rec)
    requires Safe(h, prefix, logs) && j < |logs|
    ensures Safe(h, prefix, logs[j := logs[j].With(r)])
  {
    hide Durable, OrderedFiles;
    var s := logs[j];
    var (d, m) := (FileOf(h.files, prefix, s, Data), FileOf(h.files, prefix, s, Meta));
    PlanRecord(d, m, FileOf(h.files, prefix, s, Idx), s, r);
  }

  /** A file that holds a beginning of what it is to hold. */
  predicate Begun(file: DiskFile, full: seq<byte>) {
    file.bytes <= full && file.synced <= |file.bytes|
  }

  /** A new stack without records is ordered wherever its files are absent or begin its headers. */
  lemma NewStackKeepsSafe(h: Snapshot, prefix: Text, logs: seq<Stack>, s: Stack)
    requires Safe(h, prefix, logs) && s.recs == []
    requires forall k: Suffix :: Begun(FileOf(h.files, prefix, s, k), Full(s, k))
    ensures Safe(h, prefix, logs + [s])
  {
    hide Durable, DataBytes, MetaBytes, IdxBytes, Path;
    assert Begun(FileOf(h.files, prefix, s, Data), Full(s, Data));
    assert Begun(FileOf(h.files, prefix, s, Meta), Full(s, Meta));
    assert Begun(FileOf(h.files, prefix, s, Idx), Full(s, Idx));
    assert Ordered(h.files, prefix, s);
  }

  /** A step on the files of stack j alone that leaves it ordered keeps the disk safe. */
  lemma StepKeepsSafe(h: Snapshot, later: Files, prefix: Text, logs: seq<Stack>, j: nat)
    requires Safe(h, prefix, logs) && Distinct(logs) && j < |logs|
    requires Grown(h.files, later)
    requires forall i, k: Suffix :: 0 <= i < |logs| && i != j ==>
      FileOf(later, prefix, logs[i], k) == FileOf(h.files, prefix, logs[i], k)
    requires Ordered(later, prefix, logs[j])
    ensures Safe(Snapshot(later, h.acked), prefix, logs)
  {
    hide OrderedFiles;
    forall i | 0 <= i < |logs|
      ensures Ordered(later, prefix, logs[i])
    {
      if i != j {
        assert FileOf(later, prefix, logs[i], Data) == FileOf(h.files, prefix, logs[i], Data);
        assert FileOf(later, prefix, logs[i], Meta) == FileOf(h.files, prefix, logs[i], Meta);
        assert FileOf(later, prefix, logs[i], Idx) == FileOf(h.files, prefix, logs[i], Idx);
      }
    }
  }

  /** A step that touches no file of any of the stacks keeps the disk safe. */
  lemma ElsewhereKeepsSafe(h: Snapshot, later: Files, prefix: Text, logs: seq<Stack>)
    requires Safe(h, prefix, logs)
    requires forall i, k: Suffix :: 0 <= i < |logs| ==>
      FileOf(later, prefix, logs[i], k) == FileOf(h.files, prefix, logs[i], k)
    ensures Safe(Snapshot(later, h.acked), prefix, logs)
  {
    hide OrderedFiles, Path;
    forall i | 0 <= i < |logs|
      ensures Ordered(later, prefix, logs[i])
      ensures i < |h.acked| ==> Durable(later, prefix, h.acked[i])
    {
      assert FileOf(later, prefix, logs[i], Data) == FileOf(h.files, prefix, logs[i], Data);
      assert FileOf(later, prefix, logs[i], Meta) == FileOf(h.files, prefix, logs[i], Meta);
      assert FileOf(later, prefix, logs[i], Idx) == FileOf(h.files, prefix, logs[i], Idx);
    }
  }

  // ---- one write or sync ----

  /** None: the write succeeds. Some(n): it fails after n bytes, or after all if there are fewer. */
  type Fault = Option<nat>

  function Landed(bytes: seq<byte>, f: Fault): (landed: seq<byte>)
    ensures landed <= bytes
  {
    if f.Some? && f.value < |bytes| then bytes[..f.value] else bytes
  }

  /** Bytes due in step n, when the steps stop at stop: all of them, what got through, or nothing. */
  function WrittenBy(n: nat, stop: nat, bytes: seq<byte>, f: Fault): seq<byte> {
    if n < stop then bytes else if n == stop then Landed(bytes, f) else []
  }

  function Written(files: Files, path: Text, bytes: seq<byte>): Files {
    files[path := DiskFile(At(files, path).bytes + bytes, At(files, path).synced)]
  }

  function Synced(files: Files, path: Text): Files {
    files[path := DiskFile(At(files, path).bytes, |At(files, path).bytes|)]
  }

  /** The full contents of one of a stack's files. */
  function Full(s: Stack, k: Suffix): seq<byte> {
    match k
    case Data => s.Data()
    case Meta => s.Meta()
    case Idx => s.Index()
  }

  /**
   * A write may put the next bytes of the stack's file; a line only once the slot is synced, and
   * an index entry only once slot and line are.
   */
  ghost predicate MayWrite(files: Files, prefix: Text, s: Stack, k: Suffix, bytes: seq<byte>) {
    && FileOf(files, prefix, s, k).bytes + bytes <= Full(s, k)
    && (k != Data && s.recs != [] ==> |s.Data()| <= FileOf(files, prefix, s, Data).synced)
    && (k == Idx && s.recs != [] ==> |s.Meta()| <= FileOf(files, prefix, s, Meta).synced)
  }

  lemma OthersSame(files: Files, later: Files, prefix: Text, stackId: nat, k: Suffix)
    requires forall p :: p != Path(prefix, stackId, k) ==> At(later, p) == At(files, p)
    ensures forall s: Stack, l: Suffix :: s.fileId != stackId || l != k ==>
      FileOf(later, prefix, s, l) == FileOf(files, prefix, s, l)
  {
    forall s: Stack, l: Suffix | s.fileId != stackId || l != k
      ensures FileOf(later, prefix, s, l) == FileOf(files, prefix, s, l)
    {
      PathInjective(prefix, s.fileId, l, stackId, k);
    }
  }

  lemma OffsetsWithin(s: Stack)
    ensures forall k :: 0 <= k <= |s.recs| ==>
      DataOff(s.headerId, s.recs, k) <= |s.Data()| && MetaOff(s.headerId, s.recs, k) <= |s.Meta()|
  {
    hide DataBytes, MetaBytes, IdxBytes;
    forall k | 0 <= k <= |s.recs|
      ensures DataOff(s.headerId, s.recs, k) <= |s.Data()| && MetaOff(s.headerId, s.recs, k) <= |s.Meta()|
    {
      FilesGrow(s.headerId, s.recs, k);
    }
  }

  lemma WriteOrdered(files: Files, prefix: Text, s: Stack, k: Suffix, bytes: seq<byte>)
    requires Ordered(files, prefix, s) && MayWrite(files, prefix, s, k, bytes)
    ensures Ordered(Written(files, Path(prefix, s.fileId, k), bytes), prefix, s)
  {
    hide DataBytes, MetaBytes, IdxBytes, Path, DataOff, MetaOff;
    OthersSame(files, Written(files, Path(prefix, s.fileId, k), bytes), prefix, s.fileId, k);
    OffsetsWithin(s);
  }

  lemma SyncOrdered(files: Files, prefix: Text, s: Stack, k: Suffix)
    requires Ordered(files, prefix, s)
    ensures Ordered(Synced(files, Path(prefix, s.fileId, k)), prefix, s)
    ensures Grown(files, Synced(files, Path(prefix, s.fileId, k)))
  {
    hide DataBytes, MetaBytes, IdxBytes, Path, DataOff, MetaOff;
    OthersSame(files, Synced(files, Path(prefix, s.fileId, k)), prefix, s.fileId, k);
  }

  // ---- the other stacks ----

  /** No file of any of these stacks differs. */
  ghost predicate Kept(files: Files, later: Files, prefix: Text, logs: seq<Stack>) {
    forall j, k: Suffix :: 0 <= j < |logs| ==> FileOf(later, prefix, logs[j], k) == FileOf(files, prefix, logs[j], k)
  }

  /** Every file of these stacks is written in full. */
  ghost predicate AllWritten(files: Files, prefix: Text, logs: seq<Stack>) {
    forall j, k: Suffix :: 0 <= j < |logs| ==> FileOf(files, prefix, logs[j], k).bytes == Full(logs[j], k)
  }

  ghost predicate AllDurable(files: Files, prefix: Text, logs: seq<Stack>) {
    forall j :: 0 <= j < |logs| ==> Durable(files, prefix, logs[j])
  }

  lemma KeptWritten(files: Files, later: Files, prefix: Text, logs: seq<Stack>)
    requires Kept(files, later, prefix, logs) && AllWritten(files, prefix, logs) && AllDurable(files, prefix, logs)
    ensures AllWritten(later, prefix, logs) && AllDurable(later, prefix, logs)
  {
    hide FileOf, Full;
    forall j | 0 <= j < |logs|
      ensures Durable(later, prefix, logs[j])
    {
      assert FileOf(later, prefix, logs[j], Idx) == FileOf(files, prefix, logs[j], Idx);
      assert Durable(files, prefix, logs[j]);
    }
  }

  /** The last stack caught up with the others. */
  lemma LastWritten(files: Files, prefix: Text, logs: seq<Stack>)
    requires logs != [] && AllWritten(files, prefix, Init(logs)) && AllDurable(files, prefix, Init(logs))
    requires forall k: Suffix :: FileOf(files, prefix, Last(logs), k).bytes == Full(Last(logs), k)
    requires Durable(files, prefix, Last(logs))
    ensures AllWritten(files, prefix, logs) && AllDurable(files, prefix, logs)
  {
    hide FileOf, Full, Durable;
    forall j, k: Suffix | 0 <= j < |logs|
      ensures FileOf(files, prefix, logs[j], k).bytes == Full(logs[j], k) && Durable(files, prefix, logs[j])
    {
      if j < |logs| - 1 {
        assert logs[j] == Init(logs)[j];
      }
    }
  }

  lemma FirstWritten(files: Files, prefix: Text, logs: seq<Stack>)
    requires logs != [] && AllWritten(files, prefix, logs) && AllDurable(files, prefix, logs)
    ensures AllWritten(files, prefix, Init(logs)) && AllDurable(files, prefix, Init(logs))
  {
    hide FileOf, Full, Durable;
    forall j, k: Suffix | 0 <= j < |Init(logs)|
      ensures FileOf(files, prefix, Init(logs)[j], k).bytes == Full(Init(logs)[j], k)
      ensures Durable(files, prefix, Init(logs)[j])
    {
      assert Init(logs)[j] == logs[j];
    }
  }
}
