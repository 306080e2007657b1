/**
 * A stack as the list of its records, and the exact bytes of its three files as functions of
 * that list. Every writer appends to these; every reader is judged against them.
 */
module StackLog {
  import opened Bytes
  import opened Records
  import opened MetaJson

  const DATA_START := 4096

  datatype Rec = Rec(cookie: u32, payload: seq<byte>, time: u64, filename: Text, extra: seq<byte>)

  function DataHead(id: u64): (bs: seq<byte>)
    ensures |bs| == DATA_START
  {
    MagicHeader(DATA_MAGIC, id) + Zeros(4080)
  }

  function SlotOf(r: Rec): (bs: seq<byte>)
    ensures |bs| == SlotSize(|r.payload|)
  {
    Slot(r.cookie, r.payload)
  }

  /** The meta record of a payload stored at a data offset; the casts are the source's. */
  function MetaOf(r: Rec, dataOff: nat): MetaRecord {
    MetaRecord(r.time, AsU64(dataOff), AsU32(|r.payload|), r.cookie, r.filename, r.extra)
  }

  function Line(r: Rec, dataOff: nat): (t: Text)
    ensures t != []
  {
    RecordLine(MetaOf(r, dataOff))
  }

  function EntryOf(r: Rec, dataOff: nat, metaOff: nat): IndexRecord {
    IndexRecord(r.cookie, AsU64(dataOff), AsU32(|r.payload|), AsU64(metaOff), AsU32(|Line(r, dataOff)|))
  }

  function Init<T>(s: seq<T>): seq<T>
    requires s != []
  {
    s[..|s| - 1]
  }

  function Last<T>(s: seq<T>): T
    requires s != []
  {
    s[|s| - 1]
  }

  function DataBytes(id: u64, rs: seq<Rec>): seq<byte> {
    if rs == [] then DataHead(id) else DataBytes(id, Init(rs)) + SlotOf(Last(rs))
  }

  function MetaBytes(id: u64, rs: seq<Rec>): Text {
    if rs == [] then HeaderLine(id)
    else MetaBytes(id, Init(rs)) + Line(Last(rs), |DataBytes(id, Init(rs))|)
  }

  /** The index record of the newest of the records. */
  function LastEntry(id: u64, rs: seq<Rec>): IndexRecord
    requires rs != []
  {
    EntryOf(Last(rs), |DataBytes(id, Init(rs))|, |MetaBytes(id, Init(rs))|)
  }

  function IdxBytes(id: u64, rs: seq<Rec>): (bs: seq<byte>)
    ensures |bs| == 16 + INDEX_SIZE * |rs|
  {
    if rs == [] then MagicHeader(INDEX_MAGIC, id)
    else IdxBytes(id, Init(rs)) + EncodeIndex(LastEntry(id, rs))
  }

  function RawTotal(rs: seq<Rec>): nat {
    if rs == [] then 0 else RawTotal(Init(rs)) + |Last(rs).payload|
  }

  // ---- offsets and sizes of record k ----

  function DataOff(id: u64, rs: seq<Rec>, k: nat): nat
    requires k <= |rs|
  {
    |DataBytes(id, rs[..k])|
  }

  function MetaOff(id: u64, rs: seq<Rec>, k: nat): nat
    requires k <= |rs|
  {
    |MetaBytes(id, rs[..k])|
  }

  function EntryAt(id: u64, rs: seq<Rec>, k: nat): IndexRecord
    requires k < |rs|
  {
    LastEntry(id, rs[..k + 1])
  }

  /** One more record appends its slot, its line and its entry. */
  lemma Extend(id: u64, rs: seq<Rec>, r: Rec)
    ensures DataBytes(id, rs + [r]) == DataBytes(id, rs) + SlotOf(r)
    ensures MetaBytes(id, rs + [r]) == MetaBytes(id, rs) + Line(r, |DataBytes(id, rs)|)
    ensures LastEntry(id, rs + [r]) == EntryOf(r, |DataBytes(id, rs)|, |MetaBytes(id, rs)|)
    ensures IdxBytes(id, rs + [r]) == IdxBytes(id, rs) + EncodeIndex(LastEntry(id, rs + [r]))
    ensures RawTotal(rs + [r]) == RawTotal(rs) + |r.payload|
  {
    assert Init(rs + [r]) == rs;
  }

  /** The files of a prefix of the records are prefixes of the files. */
  lemma {:induction false} FilesGrow(id: u64, rs: seq<Rec>, k: nat)
    requires k <= |rs|
    ensures DataBytes(id, rs[..k]) <= DataBytes(id, rs)
    ensures MetaBytes(id, rs[..k]) <= MetaBytes(id, rs)
    ensures IdxBytes(id, rs[..k]) <= IdxBytes(id, rs)
    decreases |rs|
  {
    hide DataBytes, MetaBytes, IdxBytes;
    if k == |rs| {
      assert rs[..k] == rs;
    } else {
      assert Init(rs)[..k] == rs[..k];
      FilesGrow(id, Init(rs), k);
      FilesStep(id, rs);
    }
  }

  lemma FilesStep(id: u64, rs: seq<Rec>)
    requires rs != []
    ensures DataBytes(id, Init(rs)) <= DataBytes(id, rs)
    ensures MetaBytes(id, Init(rs)) <= MetaBytes(id, rs)
    ensures IdxBytes(id, Init(rs)) <= IdxBytes(id, rs)
  {
    hide DataBytes, MetaBytes, IdxBytes, SlotOf, Line, EncodeIndex, LastEntry;
    assert rs == Init(rs) + [Last(rs)];
    Extend(id, Init(rs), Last(rs));
  }

  /** Record k occupies exactly its slot, its line and its 28 bytes. */
  lemma SlotAt(id: u64, rs: seq<Rec>, k: nat)
    requires k < |rs|
    ensures
      var off, end := DataOff(id, rs, k), DataOff(id, rs, k + 1);
      && end == off + |SlotOf(rs[k])| && off < end <= |DataBytes(id, rs)|
      && DataBytes(id, rs)[off..end] == SlotOf(rs[k])
  {
    hide SlotOf, DataBytes, MetaBytes, IdxBytes;
    assert rs[..k + 1] == rs[..k] + [rs[k]];
    Extend(id, rs[..k], rs[k]);
    assert DataBytes(id, rs[..k + 1]) <= DataBytes(id, rs) by {
      FilesGrow(id, rs, k + 1);
    }
    Cut(DataBytes(id, rs[..k]), SlotOf(rs[k]), DataBytes(id, rs));
  }

  lemma LineAt(id: u64, rs: seq<Rec>, k: nat)
    requires k < |rs|
    ensures
      var line, off, end := Line(rs[k], DataOff(id, rs, k)), MetaOff(id, rs, k), MetaOff(id, rs, k + 1);
      && end == off + |line| && end <= |MetaBytes(id, rs)|
      && MetaBytes(id, rs)[off..end] == line
  {
    hide Line, DataBytes, MetaBytes, IdxBytes;
    assert rs[..k + 1] == rs[..k] + [rs[k]];
    Extend(id, rs[..k], rs[k]);
    assert MetaBytes(id, rs[..k + 1]) <= MetaBytes(id, rs) by {
      FilesGrow(id, rs, k + 1);
    }
    Cut(MetaBytes(id, rs[..k]), Line(rs[k], DataOff(id, rs, k)), MetaBytes(id, rs));
  }

  lemma CodeAt(id: u64, rs: seq<Rec>, k: nat)
    requires k < |rs|
    ensures IdxBytes(id, rs)[16 + 28 * k..16 + 28 * (k + 1)] == EncodeIndex(EntryAt(id, rs, k))
  {
    hide EncodeIndex, DataBytes, MetaBytes, IdxBytes, LastEntry;
    var init, code := IdxBytes(id, rs[..k]), EncodeIndex(EntryAt(id, rs, k));
    assert init + code <= IdxBytes(id, rs) by {
      IndexStep(id, rs, k);
      FilesGrow(id, rs, k + 1);
    }
    assert |init| == 16 + 28 * k && |code| == 28;
    Cut(init, code, IdxBytes(id, rs));
  }

  lemma IndexStep(id: u64, rs: seq<Rec>, k: nat)
    requires k < |rs|
    ensures IdxBytes(id, rs[..k + 1]) == IdxBytes(id, rs[..k]) + EncodeIndex(EntryAt(id, rs, k))
  {
    hide EncodeIndex, DataBytes, MetaBytes, IdxBytes, LastEntry, SlotOf, Line;
    assert rs[..k + 1] == rs[..k] + [rs[k]];
    Extend(id, rs[..k], rs[k]);
  }

  lemma EntryIs(id: u64, rs: seq<Rec>, k: nat)
    requires k < |rs|
    ensures EntryAt(id, rs, k) == EntryOf(rs[k], DataOff(id, rs, k), MetaOff(id, rs, k))
  {
    assert Init(rs[..k + 1]) == rs[..k];
  }

  lemma DataLength(id: u64, rs: seq<Rec>)
    requires rs != []
    ensures |DataBytes(id, rs)| == |DataBytes(id, Init(rs))| + SlotSize(|Last(rs).payload|)
  {
  }

  lemma AlignedSum(a: nat, b: nat)
    requires a % ALIGNMENT == 0 && b % ALIGNMENT == 0
    ensures (a + b) % ALIGNMENT == 0
  {
  }

  lemma {:induction false} DataAligned(id: u64, rs: seq<Rec>)
    ensures |DataBytes(id, rs)| % ALIGNMENT == 0
  {
    if rs != [] {
      hide DataBytes, SlotSize;
      DataAligned(id, Init(rs));
      DataLength(id, rs);
      SlotBounds(|Last(rs).payload|);
      AlignedSum(|DataBytes(id, Init(rs))|, SlotSize(|Last(rs).payload|));
    }
  }

  /** Headers and padding cost the data file at most 4115 bytes a record over the raw bytes. */
  lemma {:induction false} DataSize(id: u64, rs: seq<Rec>)
    ensures DATA_START + RawTotal(rs) <= |DataBytes(id, rs)| <= DATA_START + RawTotal(rs) + 4115 * |rs|
  {
    if rs != [] {
      hide DataBytes, SlotSize;
      DataSize(id, Init(rs));
      DataLength(id, rs);
      SlotBounds(|Last(rs).payload|);
    }
  }

  /** Every file of one stack, in full. */
  datatype Stack = Stack(fileId: u64, headerId: u64, recs: seq<Rec>) {
    function Data(): seq<byte> { DataBytes(headerId, recs) }
    function Meta(): Text { MetaBytes(headerId, recs) }
    function Index(): seq<byte> { IdxBytes(headerId, recs) }
    function With(r: Rec): Stack { this.(recs := recs + [r]) }
  }

  /** The next record goes where the data ends. */
  lemma NewestOffset(s: Stack, r: Rec)
    ensures DataOff(s.headerId, s.With(r).recs, |s.recs|) == |s.Data()|
  {
    hide DataBytes;
    assert s.With(r).recs[..|s.recs|] == s.recs;
  }

  lemma DataStarts(s: Stack)
    ensures |s.Data()| >= DATA_START
  {
    hide DataBytes, RawTotal;
    DataSize(s.headerId, s.recs);
  }

  /** t is s with possibly more records. */
  predicate Extends(s: Stack, t: Stack) {
    s.fileId == t.fileId && s.headerId == t.headerId && s.recs <= t.recs
  }
}
