/**
 * Local puts whose own writes or syncs fail. The local writer does not stop at such a failure: it
 * keeps its handles and its offsets, and the next put goes on behind whatever bytes are there.
 */
module TornPuts {
  import opened Bytes
  import opened Crash
  import opened IndexId
  import opened LocalWriter
  import opened MetaJson
  import opened Paths
  import opened ReadBack
  import opened Reader
  import opened Records
  import opened StackLog

  /** What goes wrong during one put, in the order of its writes; a sync works or not. */
  datatype PutFaults = PutFaults(head: Fault, payload: Fault, padding: Fault, dataSync: bool, line: Fault,
                                 newline: Fault, metaSync: bool, entry: Fault, idxSync: bool)

  const FAULTLESS := PutFaults(None, None, None, true, None, None, true, None, true)

  /** The three open files of a stack and the writer's running numbers. */
  datatype Tails = Tails(data: seq<byte>, meta: seq<byte>, idx: seq<byte>, dataOffset: u64, metaOffset: u64,
                         totalRawBytes: nat)

  function SlotLanded(dr: DataRecord, f: PutFaults): seq<byte> {
    if f.head.Some? then Landed(EncodeData(dr.header), f.head)
    else if f.payload.Some? then EncodeData(dr.header) + Landed(dr.data, f.payload)
    else EncodeData(dr.header) + dr.data + Landed(dr.padding, f.padding)
  }

  predicate SlotWorks(f: PutFaults) {
    f.head.None? && f.payload.None? && f.padding.None? && f.dataSync
  }

  function LineLanded(json: Text, f: PutFaults): seq<byte> {
    if f.line.Some? then Landed(json, f.line) else json + Landed([NEWLINE], f.newline)
  }

  predicate LineWorks(f: PutFaults) {
    f.line.None? && f.newline.None? && f.metaSync
  }

  predicate EntryWorks(f: PutFaults) {
    f.entry.None? && f.idxSync
  }

  function JsonFor(t: Tails, r: Rec): Text {
    PrintObject(Members(MetaRecord(r.time, t.dataOffset, AsU32(|r.payload|), r.cookie, r.filename, r.extra)))
  }

  function IndexFor(t: Tails, r: Rec): IndexRecord {
    IndexRecord(r.cookie, t.dataOffset, AsU32(|r.payload|), t.metaOffset, AsU32(|JsonFor(t, r)| + 1))
  }

  /** The slot's writes, and the data offset behind them if they and the sync work. */
  function WithSlot(t: Tails, r: Rec, f: PutFaults): Tails {
    var dr := NewDataRecord(r.cookie, r.payload);
    t.(data := t.data + SlotLanded(dr, f),
       dataOffset := if SlotWorks(f) then AsU64(t.dataOffset + RecordSize(dr)) else t.dataOffset)
  }

  function WithLine(t: Tails, json: Text, f: PutFaults): Tails {
    t.(meta := t.meta + LineLanded(json, f),
       metaOffset := if LineWorks(f) then AsU64(t.metaOffset + |json| + 1) else t.metaOffset)
  }

  /** put behind the size guard: each offset moves on only after its file was written and synced. */
  function Appending(t: Tails, fileId: u64, r: Rec, f: PutFaults): (Tails, Option<Text>) {
    var a := WithSlot(t, r, f);
    if !SlotWorks(f) then (a, None) else
      var b := WithLine(a, JsonFor(t, r), f);
      if !LineWorks(f) then (b, None) else
        var c := b.(idx := t.idx + Landed(EncodeIndex(IndexFor(t, r)), f.entry));
        if !EntryWorks(f) then (c, None)
        else (c.(totalRawBytes := t.totalRawBytes + |r.payload|),
              Some(PrintId(IndexID(fileId, t.dataOffset, r.cookie))))
  }

  class StackFiles {
    const fileId: u64
    var data: seq<byte>
    var meta: seq<byte>
    var idx: seq<byte>
    var dataOffset: u64
    var metaOffset: u64
    var totalRawBytes: nat

    ghost function State(): Tails
      reads this
    {
      Tails(data, meta, idx, dataOffset, metaOffset, totalRawBytes)
    }

    constructor (fileId: u64, t: Tails)
      ensures this.fileId == fileId && State() == t
    {
      this.fileId, data, meta, idx := fileId, t.data, t.meta, t.idx;
      dataOffset, metaOffset, totalRawBytes := t.dataOffset, t.metaOffset, t.totalRawBytes;
    }

    method WriteData(bytes: seq<byte>, f: Fault) returns (ok: bool)
      modifies this`data
      ensures data == old(data) + Landed(bytes, f) && (ok <==> f.None?)
    {
      data := data + Landed(bytes, f);
      ok := f.None?;
    }

    method WriteMeta(bytes: seq<byte>, f: Fault) returns (ok: bool)
      modifies this`meta
      ensures meta == old(meta) + Landed(bytes, f) && (ok <==> f.None?)
    {
      meta := meta + Landed(bytes, f);
      ok := f.None?;
    }

    /** Header, payload and padding, up to the first write that fails; then the sync. */
    method WriteSlot(r: Rec, f: PutFaults) returns (ok: bool)
      modifies this`data, this`dataOffset
      ensures State() == WithSlot(old(State()), r, f) && (ok <==> SlotWorks(f))
    {
      hide EncodeData, NewDataRecord, RecordSize, AsU64, Slot;
      var dr := NewDataRecord(r.cookie, r.payload);
      Joined(data, EncodeData(dr.header), dr.data, dr.padding, f);
      ok := WriteData(EncodeData(dr.header), f.head);
      if ok {
        ok := WriteData(dr.data, f.payload);
      }
      if ok {
        ok := WriteData(dr.padding, f.padding);
      }
      ok := ok && f.dataSync;
      if ok {
        dataOffset := AsU64(dataOffset + RecordSize(dr));
      }
    }

    method WriteLine(json: Text, f: PutFaults) returns (ok: bool)
      modifies this`meta, this`metaOffset
      ensures State() == WithLine(old(State()), json, f) && (ok <==> LineWorks(f))
    {
      hide AsU64;
      assert meta + json + Landed([NEWLINE], f.newline) == meta + (json + Landed([NEWLINE], f.newline));
      ok := WriteMeta(json, f.line);
      if ok {
        ok := WriteMeta([NEWLINE], f.newline);
      }
      ok := ok && f.metaSync;
      if ok {
        metaOffset := AsU64(metaOffset + |json| + 1);
      }
    }

    method Append(r: Rec, f: PutFaults) returns (id: Option<Text>)
      modifies this
      ensures (State(), id) == Appending(old(State()), fileId, r, f)
    {
      hide PrintId, PrintObject, Members, EncodeIndex, AsU32, WithSlot, WithLine, Landed, SlotWorks, LineWorks;
      ghost var t := State();
      var mr := MetaRecord(r.time, dataOffset, AsU32(|r.payload|), r.cookie, r.filename, r.extra);
      var json := PrintObject(Members(mr));
      var ir := IndexRecord(r.cookie, dataOffset, AsU32(|r.payload|), metaOffset, AsU32(|json| + 1));
      var answer := PrintId(IndexID(fileId, ir.offsetData, ir.cookie));
      assert json == JsonFor(t, r) && ir == IndexFor(t, r);
      hide JsonFor, IndexFor;
      id := None;
      var ok := WriteSlot(r, f);
      if ok {
        ok := WriteLine(json, f);
        if ok {
          idx := idx + Landed(EncodeIndex(ir), f.entry);
          if f.entry.None? && f.idxSync {
            totalRawBytes := totalRawBytes + |r.payload|;
            id := Some(answer);
          }
        }
      }
    }
  }

  lemma Joined(have: seq<byte>, a: seq<byte>, b: seq<byte>, c: seq<byte>, f: PutFaults)
    ensures have + a + Landed(b, f.payload) == have + (a + Landed(b, f.payload))
    ensures have + a + b + Landed(c, f.padding) == have + (a + b + Landed(c, f.padding))
  {
  }

  // ---- one put ----

  /** The files of a stack with the writer in step with all of them. */
  ghost function TailsOf(s: Stack): Tails {
    Tails(s.Data(), s.Meta(), s.Index(), AsU64(|s.Data()|), AsU64(|s.Meta()|), RawTotal(s.recs))
  }

  /** Without faults a put takes the files of a stack to those with one more record, and returns its id. */
  lemma WholePut(s: Stack, r: Rec)
    ensures Appending(TailsOf(s), s.fileId, r, FAULTLESS) == (TailsOf(s.With(r)), Some(IdAt(s.With(r), |s.recs|)))
  {
    hide PrintId, NewDataRecord, RecordSize, AsU64, AsU32, EncodeData, EncodeIndex, EntryOf, Line, SlotOf, RawTotal,
      IdAt, PrintObject, Members, Stack.Data, Stack.Meta, Stack.Index, Stack.With;
    var json, dr := JsonFor(TailsOf(s), r), NewDataRecord(r.cookie, r.payload);
    BuiltRecords(s, r, json, dr);
    NextOffsets(s, r, json, dr);
    FullFiles(s);
    FullFiles(s.With(r));
    DataWith(s, r);
    MetaWith(s, r);
    IndexWith(s, r);
    WithSame(s, r);
  }

  lemma FullFiles(s: Stack)
    ensures Full(s, Data) == s.Data() && Full(s, Meta) == s.Meta() && Full(s, Idx) == s.Index()
  {
  }

  /** How many of n bytes get through. */
  function Through(n: nat, f: Fault): nat {
    if f.Some? && f.value < n then f.value else n
  }

  function SlotThrough(size: nat, f: PutFaults): nat {
    if f.head.Some? then Through(20, f.head)
    else 20 + if f.payload.Some? then Through(size, f.payload) else size + Through(PaddedSize(size) - size, f.padding)
  }

  function LineThrough(size: nat, f: PutFaults): nat {
    if f.line.Some? then Through(size, f.line) else size + Through(1, f.newline)
  }

  /** later is file and the first n of the bytes. */
  predicate Follows(later: seq<byte>, file: seq<byte>, bytes: seq<byte>, n: nat) {
    n <= |bytes| && later == file + bytes[..n]
  }

  /**
   * What any faults leave: a beginning of the slot, and only behind a whole and synced slot one of
   * the line, and only behind that one of the entry; the offsets and the total move in step.
   */
  lemma FaultsLeave(t: Tails, fileId: u64, r: Rec, f: PutFaults)
    ensures
      var (u, id) := Appending(t, fileId, r, f);
      var line, code := JsonFor(t, r) + [NEWLINE], EncodeIndex(IndexFor(t, r));
      var slot, entry := SlotWorks(f), SlotWorks(f) && LineWorks(f);
      && Follows(u.data, t.data, SlotOf(r), SlotThrough(|r.payload|, f))
      && Follows(u.meta, t.meta, line, if slot then LineThrough(|line| - 1, f) else 0)
      && Follows(u.idx, t.idx, code, if entry then Through(28, f.entry) else 0)
      && u.dataOffset == (if slot then AsU64(t.dataOffset + SlotSize(|r.payload|)) else t.dataOffset)
      && u.metaOffset == (if entry then AsU64(t.metaOffset + |line|) else t.metaOffset)
      && u.totalRawBytes == t.totalRawBytes + (if f == FAULTLESS then |r.payload| else 0)
  {
    hide PrintId, NewDataRecord, RecordSize, AsU64, AsU32, EncodeData, EncodeIndex, IndexFor, JsonFor, SlotOf,
      PaddedSize, WithSlot, WithLine, SlotThrough, LineThrough, Landed;
    SlotLeaves(t, r, f);
    var a, json := WithSlot(t, r, f), JsonFor(t, r);
    LineLeaves(a, json, f);
    LandedThrough(EncodeIndex(IndexFor(t, r)), f.entry);
    assert t.meta + (json + [NEWLINE])[..0] == t.meta;
    assert t.idx + EncodeIndex(IndexFor(t, r))[..0] == t.idx;
  }

  lemma LandedThrough(bytes: seq<byte>, f: Fault)
    ensures Through(|bytes|, f) <= |bytes| && Landed(bytes, f) == bytes[..Through(|bytes|, f)]
  {
  }

  lemma SlotLeaves(t: Tails, r: Rec, f: PutFaults)
    ensures
      var u := WithSlot(t, r, f);
      && Follows(u.data, t.data, SlotOf(r), SlotThrough(|r.payload|, f))
      && u.dataOffset == (if SlotWorks(f) then AsU64(t.dataOffset + SlotSize(|r.payload|)) else t.dataOffset)
      && u.meta == t.meta && u.idx == t.idx && u.metaOffset == t.metaOffset && u.totalRawBytes == t.totalRawBytes
  {
    hide EncodeData, PaddedSize, AsU64, Landed, HeaderOf, Slot;
    SlotBounds(|r.payload|);
    var dr := NewDataRecord(r.cookie, r.payload);
    var a, b, c := EncodeData(dr.header), dr.data, dr.padding;
    LandedThrough(a, f.head);
    LandedThrough(b, f.payload);
    LandedThrough(c, f.padding);
    ThreeParts(a, b, c, Through(|a|, f.head), Through(|b|, f.payload), Through(|c|, f.padding));
  }

  lemma ThreeParts(a: seq<byte>, b: seq<byte>, c: seq<byte>, i: nat, j: nat, k: nat)
    requires i <= |a| && j <= |b| && k <= |c|
    ensures
      var whole := a + b + c;
      && whole[..i] == a[..i] && whole[..|a| + j] == a + b[..j] && whole[..|a| + |b| + k] == a + b + c[..k]
  {
  }

  lemma LineLeaves(t: Tails, json: Text, f: PutFaults)
    ensures
      var u := WithLine(t, json, f);
      && Follows(u.meta, t.meta, json + [NEWLINE], LineThrough(|json|, f))
      && u.metaOffset == (if LineWorks(f) then AsU64(t.metaOffset + (|json| + 1)) else t.metaOffset)
      && u.data == t.data && u.idx == t.idx && u.dataOffset == t.dataOffset && u.totalRawBytes == t.totalRawBytes
  {
    hide AsU64, Landed;
    LandedThrough(json, f.line);
    LandedThrough([NEWLINE], f.newline);
    ThreeParts(json, [NEWLINE], [], Through(|json|, f.line), Through(1, f.newline), 0);
    assert json + [NEWLINE] + [] == json + [NEWLINE];
  }

  // ---- puts that do not tear the data file ----

  /** The data file holds exactly these records, and the writer's offset is where it ends. */
  ghost predicate InStep(t: Tails, s: Stack) {
    t.data == s.Data() && t.dataOffset == AsU64(|s.Data()|)
  }

  lemma LandedSlot(r: Rec, f: PutFaults)
    ensures SlotLanded(NewDataRecord(r.cookie, r.payload), f) <= SlotOf(r)
    ensures SlotWorks(f) ==> SlotLanded(NewDataRecord(r.cookie, r.payload), f) == SlotOf(r)
  {
    hide EncodeData, Slot;
    var dr := NewDataRecord(r.cookie, r.payload);
    Joins(EncodeData(dr.header), dr.data, dr.padding);
  }

  lemma Joins(a: seq<byte>, b: seq<byte>, c: seq<byte>)
    ensures a + b + c == a + (b + c)
  {
  }

  lemma SlotOnly(t: Tails, r: Rec, f: PutFaults)
    ensures
      var (u, dr) := (WithSlot(t, r, f), NewDataRecord(r.cookie, r.payload));
      && u.idx == t.idx && u.data == t.data + SlotLanded(dr, f)
      && u.dataOffset == if SlotWorks(f) then AsU64(t.dataOffset + RecordSize(dr)) else t.dataOffset
  {
    hide NewDataRecord, SlotLanded, RecordSize, AsU64, SlotWorks;
  }

  lemma LineOnly(t: Tails, json: Text, f: PutFaults)
    ensures
      var u := WithLine(t, json, f);
      u.idx == t.idx && u.data == t.data && u.dataOffset == t.dataOffset
  {
    hide LineLanded, AsU64;
  }

  /** A put answers exactly without faults, with the offset as it is; only its slot reaches the data file. */
  lemma AppendingIs(t: Tails, fileId: u64, r: Rec, f: PutFaults)
    ensures
      var ((u, id), a) := (Appending(t, fileId, r, f), WithSlot(t, r, f));
      && u.data == a.data && u.dataOffset == a.dataOffset
      && id == if f == FAULTLESS then Some(PrintId(IndexID(fileId, t.dataOffset, r.cookie))) else None
  {
    hide PrintId, JsonFor, IndexFor, EncodeIndex, WithSlot, WithLine, Landed;
    LineOnly(WithSlot(t, r, f), JsonFor(t, r), f);
  }

  /**
   * One put: with its slot written and synced the data file is one record longer, whatever becomes
   * of line and entry; otherwise the bytes that landed follow the file and the offset stays.
   */
  lemma AppendingData(t: Tails, s: Stack, r: Rec, f: PutFaults)
    requires InStep(t, s)
    ensures
      var ((u, id), torn) := (Appending(t, s.fileId, r, f), SlotLanded(NewDataRecord(r.cookie, r.payload), f));
      && (id.Some? <==> f == FAULTLESS)
      && (id.Some? ==> id.value == IdAt(s.With(r), |s.recs|))
      && (if SlotWorks(f) then InStep(u, s.With(r)) else u.data == t.data + torn && u.dataOffset == t.dataOffset)
  {
    hide PrintId, NewDataRecord, RecordSize, AsU64, SlotLanded, Appending, WithSlot, DataBytes, DataOff, SlotOf;
    AppendingIs(t, s.fileId, r, f);
    SlotOnly(t, r, f);
    NewestOffset(s, r);
    LandedSlot(r, f);
    DataWith(s, r);
    OffsetWith(s, r);
  }

  /** The answer of an attempt and the offset behind it. */
  lemma AttemptOffset(t: Tails, s: Stack, a: Attempt)
    requires InStep(t, s)
    ensures
      var (u, id) := Appending(t, s.fileId, a.r, a.f);
      && id == (if a.f == FAULTLESS then Some(IdAt(s.With(a.r), |s.recs|)) else None)
      && u.dataOffset == AsU64(if SlotWorks(a.f) then |s.With(a.r).Data()| else |s.Data()|)
      && (a.f == FAULTLESS ==> SlotWorks(a.f))
  {
    hide Appending, DataBytes, IdAt, SlotLanded, Stack.With, AsU64;
    AppendingData(t, s, a.r, a.f);
  }

  lemma OffsetWith(s: Stack, r: Rec)
    ensures AsU64(AsU64(|s.Data()|) + RecordSize(NewDataRecord(r.cookie, r.payload))) == AsU64(|s.With(r).Data()|)
  {
    hide DataBytes, RecordSize, NewDataRecord, AsU64, Slot;
    DataWith(s, r);
    WrappingAdd(|s.Data()|, SlotSize(|r.payload|));
  }

  /** One attempt at a put. */
  datatype Attempt = Attempt(r: Rec, f: PutFaults)

  /** It writes its slot whole and syncs it, or not a byte of it. */
  predicate TearsNothing(a: Attempt) {
    SlotWorks(a.f) || SlotLanded(NewDataRecord(a.r.cookie, a.r.payload), a.f) == []
  }

  function AfterAttempts(t: Tails, fileId: u64, tries: seq<Attempt>): Tails
    decreases |tries|
  {
    if tries == [] then t else AfterAttempts(Appending(t, fileId, tries[0].r, tries[0].f).0, fileId, tries[1..])
  }

  /** What each attempt answers. */
  function Answers(t: Tails, fileId: u64, tries: seq<Attempt>): (answers: seq<Option<Text>>)
    ensures |answers| == |tries|
    decreases |tries|
  {
    if tries == [] then [] else
      var (u, id) := Appending(t, fileId, tries[0].r, tries[0].f);
      [id] + Answers(u, fileId, tries[1..])
  }

  /** The records whose slots are in the data file, answered or not. */
  function SlotsOf(s: Stack, tries: seq<Attempt>): Stack
    decreases |tries|
  {
    if tries == [] then s else SlotsOf(if SlotWorks(tries[0].f) then s.With(tries[0].r) else s, tries[1..])
  }

  lemma {:induction false} SlotsGrow(s: Stack, tries: seq<Attempt>)
    ensures Extends(s, SlotsOf(s, tries))
    decreases |tries|
  {
    if tries != [] {
      SlotsGrow(if SlotWorks(tries[0].f) then s.With(tries[0].r) else s, tries[1..]);
    }
  }

  lemma AttemptKeeps(t: Tails, s: Stack, a: Attempt)
    requires InStep(t, s) && TearsNothing(a)
    ensures InStep(Appending(t, s.fileId, a.r, a.f).0, if SlotWorks(a.f) then s.With(a.r) else s)
  {
    hide Appending, DataBytes, MetaBytes, IdAt, SlotLanded, Stack.With;
    AppendingData(t, s, a.r, a.f);
    assert t.data + [] == t.data;
  }

  /** As long as no put tears the data file, it stays in step, whatever else fails. */
  lemma {:induction false} AttemptsKeep(t: Tails, s: Stack, tries: seq<Attempt>)
    requires InStep(t, s) && forall a :: a in tries ==> TearsNothing(a)
    ensures InStep(AfterAttempts(t, s.fileId, tries), SlotsOf(s, tries))
    decreases |tries|
  {
    hide Appending, InStep, TearsNothing, SlotWorks;
    if tries != [] {
      AttemptKeeps(t, s, tries[0]);
      AttemptsKeep(Appending(t, s.fileId, tries[0].r, tries[0].f).0,
                   if SlotWorks(tries[0].f) then s.With(tries[0].r) else s, tries[1..]);
    }
  }

  /** Each answer is then the id of a record that is in the data file. */
  lemma {:induction false} AnswerNames(t: Tails, s: Stack, tries: seq<Attempt>, i: nat) returns (k: nat)
    requires InStep(t, s) && (forall a :: a in tries ==> TearsNothing(a))
    requires i < |tries| && Answers(t, s.fileId, tries)[i].Some?
    ensures
      var d := SlotsOf(s, tries);
      && k < |d.recs| && Answers(t, s.fileId, tries)[i].value == IdAt(d, k) && d.recs[k] == tries[i].r
    decreases |tries|
  {
    hide Appending, InStep, TearsNothing, SlotLanded, IdAt, Stack.With;
    var a := tries[0];
    var next := if SlotWorks(a.f) then s.With(a.r) else s;
    WithSame(s, a.r);
    AttemptKeeps(t, s, a);
    if i == 0 {
      k := |s.recs|;
      AppendingData(t, s, a.r, a.f);
      SlotsGrow(next, tries[1..]);
      NewestStays(s, a.r, SlotsOf(next, tries[1..]));
    } else {
      k := AnswerNames(Appending(t, s.fileId, a.r, a.f).0, next, tries[1..], i - 1);
    }
  }

  lemma NewestStays(s: Stack, r: Rec, later: Stack)
    requires Extends(s.With(r), later)
    ensures |s.recs| < |later.recs| && later.recs[|s.recs|] == r
    ensures IdAt(later, |s.recs|) == IdAt(s.With(r), |s.recs|)
  {
    hide PrintId, DataBytes;
    assert later.recs[..|s.recs|] == s.With(r).recs[..|s.recs|];
  }

  /**
   * Over any sequence of puts, with any of their writes and syncs failing: as long as none of them
   * tears the data file, each id returned fetches its payload, if and only if under 2^32 bytes.
   */
  lemma AttemptsFetch(store: Store, prefix: Text, t: Tails, s: Stack, tries: seq<Attempt>, i: nat, checkCrc: bool)
    requires InStep(t, s) && (forall a :: a in tries ==> TearsNothing(a))
    requires i < |tries| && Answers(t, s.fileId, tries)[i].Some?
    requires Path(prefix, s.fileId, Data) in store
    requires store[Path(prefix, s.fileId, Data)] == AfterAttempts(t, s.fileId, tries).data
    requires |AfterAttempts(t, s.fileId, tries).data| <= U64
    ensures Fetched(store, prefix, Answers(t, s.fileId, tries)[i].value, checkCrc) == Ok(tries[i].r.payload) <==>
            |tries[i].r.payload| < U32
  {
    hide Appending, TearsNothing, Fetched, IdAt, Path, AfterAttempts, Answers, SlotsOf, DataBytes, SlotOf;
    var d := SlotsOf(s, tries);
    SlotsGrow(s, tries);
    AttemptsKeep(t, s, tries);
    var k := AnswerNames(t, s, tries, i);
    SlotAt(d.headerId, d.recs, k);
    FetchBack(store, prefix, d, k, checkCrc);
  }

  // ---- a put that tears it ----

  /** Behind the start of another record's slot no slot is found: the cookie there is the other's. */
  lemma FetchTorn(have: seq<byte>, torn: seq<byte>, r: Rec, q: Rec, checkCrc: bool)
    requires torn <= SlotOf(r) && |torn| >= 8 && r.cookie != q.cookie
    ensures FetchAt(have + torn + SlotOf(q), |have|, q.cookie, checkCrc) == Err(InvalidArgument)
  {
    hide EncodeData, PaddedSize, Body, LeValue, Le;
    var bytes := have + torn + SlotOf(q);
    var head := bytes[|have|..|have| + HEADER_SIZE];
    SlotBounds(|q.payload|);
    DataRoundTrip(HeaderOf(r.cookie, r.payload));
    StartOfSlot(r);
    assert head[..8] == torn[..8] == SlotOf(r)[..8] == EncodeData(HeaderOf(r.cookie, r.payload))[..8];
    SameStart(head, EncodeData(HeaderOf(r.cookie, r.payload)));
  }

  lemma StartOfSlot(r: Rec)
    ensures SlotOf(r)[..8] == EncodeData(HeaderOf(r.cookie, r.payload))[..8]
  {
    hide EncodeData, Body, HeaderOf;
  }

  lemma SameStart(a: seq<byte>, b: seq<byte>)
    requires |a| == |b| == HEADER_SIZE && a[..8] == b[..8]
    ensures DecodeData(a).start == DecodeData(b).start && DecodeData(a).cookie == DecodeData(b).cookie
  {
    hide LeValue;
    assert a[0..4] == a[..8][0..4] == b[0..4];
    assert a[4..8] == a[..8][4..8] == b[4..8];
  }

  /**
   * A put that fails with at least magic and cookie of its slot in the file leaves the writer
   * open and its offset behind: the next put answers, with an id that finds the torn slot instead.
   */
  lemma TornLoses(store: Store, prefix: Text, t: Tails, s: Stack, a: Attempt, q: Rec, checkCrc: bool)
    requires InStep(t, s) && |s.Data()| < U64 && a.r.cookie != q.cookie
    requires !SlotWorks(a.f) && |SlotLanded(NewDataRecord(a.r.cookie, a.r.payload), a.f)| >= 8
    requires
      var u := Appending(t, s.fileId, a.r, a.f).0;
      && Path(prefix, s.fileId, Data) in store
      && store[Path(prefix, s.fileId, Data)] == Appending(u, s.fileId, q, FAULTLESS).0.data
    ensures
      var (u, failed) := Appending(t, s.fileId, a.r, a.f);
      var answer := Appending(u, s.fileId, q, FAULTLESS).1;
      failed.None? && answer.Some? && Fetched(store, prefix, answer.value, checkCrc) == Err(InvalidArgument)
  {
    hide Appending, Path, Fetched, Stack.Data, IdAt, SlotOf, SlotLanded;
    var torn := SlotLanded(NewDataRecord(a.r.cookie, a.r.payload), a.f);
    AppendingData(t, s, a.r, a.f);
    LandedSlot(a.r, a.f);
    AnswerBehind(Appending(t, s.fileId, a.r, a.f).0, s.fileId, q);
    FetchAtTorn(store, prefix, s, torn, a.r, q, checkCrc);
  }

  /** A put without faults answers with the offset as it is, wherever its slot lands. */
  lemma AnswerBehind(t: Tails, fileId: u64, q: Rec)
    ensures
      var (u, id) := Appending(t, fileId, q, FAULTLESS);
      u.data == t.data + SlotOf(q) && id == Some(PrintId(IndexID(fileId, t.dataOffset, q.cookie)))
  {
    hide PrintId, NewDataRecord, RecordSize, AsU64, SlotLanded, Appending, WithSlot, SlotOf;
    AppendingIs(t, fileId, q, FAULTLESS);
    SlotOnly(t, q, FAULTLESS);
    LandedSlot(q, FAULTLESS);
  }

  lemma FetchAtTorn(store: Store, prefix: Text, s: Stack, torn: seq<byte>, r: Rec, q: Rec, checkCrc: bool)
    requires |s.Data()| < U64 && torn <= SlotOf(r) && |torn| >= 8 && r.cookie != q.cookie
    requires Path(prefix, s.fileId, Data) in store
    requires store[Path(prefix, s.fileId, Data)] == s.Data() + torn + SlotOf(q)
    ensures Fetched(store, prefix, PrintId(IndexID(s.fileId, AsU64(|s.Data()|), q.cookie)), checkCrc) ==
            Err(InvalidArgument)
  {
    hide PrintId, ParseId, Path, FetchAt, Stack.Data, SlotOf;
    PrintParse(IndexID(s.fileId, AsU64(|s.Data()|), q.cookie));
    FetchTorn(s.Data(), torn, r, q, checkCrc);
  }

  // ---- a put that tears the index ----

  lemma {:induction false} UnevenChunks(bs: seq<byte>)
    requires |bs| % INDEX_SIZE != 0
    ensures DecodeChunks(bs) == Err(IOError)
    decreases |bs|
  {
    hide DecodeIndex;
    if |bs| >= INDEX_SIZE {
      UnevenChunks(bs[INDEX_SIZE..]);
    }
  }

  /** The index starts with its header, and its length is off by n bytes of an entry. */
  ghost predicate OffBy(t: Tails, id: u64, n: nat) {
    MagicHeader(INDEX_MAGIC, id) <= t.idx && (|t.idx| - 16) % INDEX_SIZE == n
  }

  /** An index that is off cannot be listed, not even the records before. */
  lemma OffByLists(store: Store, prefix: Text, t: Tails, id: u64, n: nat)
    requires OffBy(t, id, n) && n != 0
    requires Path(prefix, id, Idx) in store && store[Path(prefix, id, Idx)] == t.idx
    ensures Listed(store, prefix, id) == Err(IOError)
  {
    hide Path, MagicHeader, DecodeChunks, LeValue;
    MagicHeaderReads(INDEX_MAGIC, id);
    assert t.idx[..16] == MagicHeader(INDEX_MAGIC, id);
    UnevenChunks(t.idx[16..]);
  }

  /** How many bytes of an entry an attempt leaves, if that is no whole one. */
  function EntryTorn(a: Attempt): nat {
    if SlotWorks(a.f) && LineWorks(a.f) && a.f.entry.Some? && a.f.entry.value < INDEX_SIZE then a.f.entry.value else 0
  }

  function TornTotal(tries: seq<Attempt>): nat {
    if tries == [] then 0 else EntryTorn(tries[0]) + TornTotal(tries[1..])
  }

  lemma AttemptOffBy(t: Tails, id: u64, a: Attempt, n: nat)
    requires OffBy(t, id, n)
    ensures OffBy(Appending(t, id, a.r, a.f).0, id, (n + EntryTorn(a)) % INDEX_SIZE)
  {
    hide Appending, MagicHeader, EntryTorn;
    IndexGrows(t, id, a);
    var u := Appending(t, id, a.r, a.f).0;
    LengthOff(|t.idx| - 16, |u.idx| - |t.idx|, n, EntryTorn(a));
    assert |u.idx| - 16 == (|t.idx| - 16) + (|u.idx| - |t.idx|);
  }

  /** The index grows by a whole entry, by the bytes of a torn one, or not at all. */
  lemma IndexGrows(t: Tails, id: u64, a: Attempt)
    ensures
      var u := Appending(t, id, a.r, a.f).0;
      && t.idx <= u.idx
      && (|u.idx| == |t.idx| + EntryTorn(a) || (|u.idx| == |t.idx| + INDEX_SIZE && EntryTorn(a) == 0))
  {
    hide PrintId, JsonFor, IndexFor, EncodeIndex, WithSlot, WithLine, SlotWorks, LineWorks;
    SlotOnly(t, a.r, a.f);
    LineOnly(WithSlot(t, a.r, a.f), JsonFor(t, a.r), a.f);
  }

  lemma LengthOff(a: nat, b: nat, n: nat, torn: nat)
    requires a % INDEX_SIZE == n && (b == torn || (b == INDEX_SIZE && torn == 0))
    ensures (a + b) % INDEX_SIZE == (n + torn) % INDEX_SIZE
  {
  }

  lemma SumOff(n: nat, a: nat, b: nat)
    ensures ((n + a) % INDEX_SIZE + b) % INDEX_SIZE == (n + (a + b)) % INDEX_SIZE
  {
  }

  lemma {:induction false} AttemptsOffBy(t: Tails, id: u64, tries: seq<Attempt>, n: nat)
    requires OffBy(t, id, n)
    ensures OffBy(AfterAttempts(t, id, tries), id, (n + TornTotal(tries)) % INDEX_SIZE)
    decreases |tries|
  {
    hide Appending, EntryTorn, MagicHeader;
    if tries != [] {
      AttemptOffBy(t, id, tries[0], n);
      AttemptsOffBy(Appending(t, id, tries[0].r, tries[0].f).0, id, tries[1..], (n + EntryTorn(tries[0])) % INDEX_SIZE);
      SumOff(n, EntryTorn(tries[0]), TornTotal(tries[1..]));
    }
  }

  /**
   * After any sequence of puts on a stack whose index was whole: unless the bytes of torn entries
   * add up to whole ones, the stack cannot be listed, however many puts worked since.
   */
  lemma TornUnlists(store: Store, prefix: Text, t: Tails, s: Stack, tries: seq<Attempt>)
    requires s.headerId == s.fileId && t.idx == s.Index() && TornTotal(tries) % INDEX_SIZE != 0
    requires Path(prefix, s.fileId, Idx) in store
    requires store[Path(prefix, s.fileId, Idx)] == AfterAttempts(t, s.fileId, tries).idx
    ensures Listed(store, prefix, s.fileId) == Err(IOError)
  {
    hide Path, Listed, MagicHeader, IdxBytes, AfterAttempts, TornTotal;
    IndexStarts(s);
    AttemptsOffBy(t, s.fileId, tries, 0);
    OffByLists(store, prefix, AfterAttempts(t, s.fileId, tries), s.fileId, TornTotal(tries) % INDEX_SIZE);
  }
}
