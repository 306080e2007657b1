/** The reader against the written bytes: what fetch, listing and scanning return for a stack. */
module ReadBack {
  import opened Bytes
  import opened Crc32c
  import opened IndexId
  import opened MetaJson
  import opened MetaPrefix
  import opened MetaRoundTrip
  import opened Paths
  import opened Reader
  import opened Records
  import opened StackLog

  // ---- fetch ----

  /** The id put returns for record k. */
  function IdAt(s: Stack, k: nat): Text
    requires k < |s.recs|
  {
    PrintId(IndexID(s.fileId, AsU64(DataOff(s.headerId, s.recs, k)), s.recs[k].cookie))
  }

  /** The slot of record k lies whole at its offset in the stored data file. */
  predicate SlotStored(store: Store, prefix: Text, s: Stack, k: nat)
    requires k < |s.recs|
  {
    var path, off, slot := Path(prefix, s.fileId, Data), DataOff(s.headerId, s.recs, k), SlotOf(s.recs[k]);
    path in store && off + |slot| <= |store[path]| && store[path][off..off + |slot|] == slot
  }

  lemma HeadOfSlot(bytes: seq<byte>, off: nat, h: DataHeader, rest: seq<byte>)
    requires off + HEADER_SIZE + |rest| <= |bytes|
    requires bytes[off..off + HEADER_SIZE + |rest|] == EncodeData(h) + rest
    ensures DecodeData(bytes[off..off + HEADER_SIZE]) == h
    ensures bytes[off + HEADER_SIZE..off + HEADER_SIZE + |rest|] == rest
  {
    var slot := bytes[off..off + HEADER_SIZE + |rest|];
    assert bytes[off..off + HEADER_SIZE] == slot[..HEADER_SIZE] == EncodeData(h);
    assert bytes[off + HEADER_SIZE..off + HEADER_SIZE + |rest|] == slot[HEADER_SIZE..] == rest;
    DataRoundTrip(h);
  }

  /** The part of a payload whose length the cast to u32 keeps. */
  function CastPart(payload: seq<byte>): (part: seq<byte>)
    ensures part <= payload && |part| == AsU32(|payload|)
  {
    payload[..AsU32(|payload|)]
  }

  /**
   * A stored slot is fetched as the part of the payload whose length survives the cast to u32:
   * the whole payload exactly below 2^32 bytes, and silently cut above if no checksum objects.
   */
  lemma FetchSlot(bytes: seq<byte>, off: nat, cookie: u32, payload: seq<byte>, checkCrc: bool)
    requires off + SlotSize(|payload|) <= |bytes|
    requires bytes[off..off + SlotSize(|payload|)] == Slot(cookie, payload)
    ensures
      var read := CastPart(payload);
      FetchAt(bytes, off, cookie, checkCrc) == if checkCrc && Crc(read) != Crc(payload) then Err(IOError) else Ok(read)
    ensures FetchAt(bytes, off, cookie, checkCrc) == Ok(payload) <==> |payload| < U32
  {
    hide Crc, DecodeData, EncodeData, PaddedSize, Body;
    HeadOfSlot(bytes, off, HeaderOf(cookie, payload), Body(payload));
    var body, n := off + HEADER_SIZE, AsU32(|payload|);
    assert bytes[body..body + n] == bytes[body..body + |Body(payload)|][..n] == payload[..n];
    if |payload| < U32 {
      assert payload[..n] == payload;
    }
  }

  /**
   * A slot cut short is fetched exactly if the cut is behind its payload; it is an error if the
   * bytes its header announces are not there.
   */
  lemma FetchCut(have: seq<byte>, tail: seq<byte>, cookie: u32, payload: seq<byte>, checkCrc: bool)
    requires tail <= Slot(cookie, payload)
    ensures
      var fetched := FetchAt(have + tail, |have|, cookie, checkCrc);
      && (fetched == Ok(payload) <==> |tail| >= HEADER_SIZE + |payload| && |payload| < U32)
      && (|tail| < HEADER_SIZE + AsU32(|payload|) ==> fetched == Err(IOError))
  {
    hide Crc, DecodeData, EncodeData, PaddedSize, Body;
    var bytes, body := have + tail, |have| + HEADER_SIZE;
    if |tail| >= HEADER_SIZE {
      assert bytes[|have|..body] == tail[..HEADER_SIZE] == EncodeData(HeaderOf(cookie, payload));
      DataRoundTrip(HeaderOf(cookie, payload));
      if |tail| >= HEADER_SIZE + |payload| {
        assert bytes[body..body + |payload|] == tail[HEADER_SIZE..HEADER_SIZE + |payload|]
            == Slot(cookie, payload)[HEADER_SIZE..][..|payload|] == payload;
      }
    }
  }

  /** A wrong cookie never reads a stored slot. */
  lemma CookieGuards(bytes: seq<byte>, off: nat, cookie: u32, guess: u32, payload: seq<byte>, checkCrc: bool)
    requires off + SlotSize(|payload|) <= |bytes|
    requires bytes[off..off + SlotSize(|payload|)] == Slot(cookie, payload)
    requires guess != cookie
    ensures FetchAt(bytes, off, guess, checkCrc) == Err(InvalidArgument)
  {
    hide Crc, DecodeData, EncodeData, PaddedSize, Body;
    HeadOfSlot(bytes, off, HeaderOf(cookie, payload), Body(payload));
  }

  /** Damage inside 32 consecutive bits of a payload never passes a checked fetch. */
  lemma FetchDetectsBurst(bytes: seq<byte>, off: nat, cookie: u32, payload: seq<byte>, damaged: seq<byte>, w: nat)
    requires |payload| < U32 && DifferInWindow(damaged, payload, w)
    requires off + HEADER_SIZE + |payload| <= |bytes|
    requires bytes[off..off + HEADER_SIZE + |payload|] == EncodeData(HeaderOf(cookie, payload)) + damaged
    ensures FetchAt(bytes, off, cookie, true) == Err(IOError)
  {
    hide Crc, DecodeData, EncodeData;
    HeadOfSlot(bytes, off, HeaderOf(cookie, payload), damaged);
    BurstDetected(damaged, payload, w);
  }

  /** Every id put returned fetches its payload from any store that holds the slot, if it is under 2^32 bytes. */
  lemma FetchBack(store: Store, prefix: Text, s: Stack, k: nat, checkCrc: bool)
    requires k < |s.recs| && SlotStored(store, prefix, s, k)
    requires DataOff(s.headerId, s.recs, k) < U64
    ensures Fetched(store, prefix, IdAt(s, k), checkCrc) == Ok(s.recs[k].payload) <==> |s.recs[k].payload| < U32
  {
    hide FetchAt, PrintId, ParseId, Slot, SlotSize, Path, DataOff;
    var off := DataOff(s.headerId, s.recs, k);
    PrintParse(IndexID(s.fileId, AsU64(off), s.recs[k].cookie));
    FetchSlot(store[Path(prefix, s.fileId, Data)], off, s.recs[k].cookie, s.recs[k].payload, checkCrc);
  }

  // ---- listing ----

  function Entries(s: Stack, n: nat): (es: seq<IndexRecord>)
    requires n <= |s.recs|
    ensures |es| == n
  {
    seq(n, k requires 0 <= k < n => EntryAt(s.headerId, s.recs, k))
  }

  lemma OneChunk(r: IndexRecord, tail: seq<byte>)
    ensures DecodeChunks(EncodeIndex(r) + tail) == After([r], DecodeChunks(tail))
  {
    hide EncodeIndex, DecodeIndex;
    var bs := EncodeIndex(r) + tail;
    assert bs[..INDEX_SIZE] == EncodeIndex(r) && bs[INDEX_SIZE..] == tail;
    IndexRoundTrip(r);
  }

  /** The first n index records decode to their entries, whatever follows them. */
  lemma {:induction false} ChunksOfIndex(s: Stack, n: nat, tail: seq<byte>)
    requires n <= |s.recs|
    ensures DecodeChunks(IdxBytes(s.headerId, s.recs[..n])[16..] + tail) == After(Entries(s, n), DecodeChunks(tail))
    decreases n
  {
    hide EncodeIndex, LastEntry, DecodeChunks, MagicHeader;
    var id := s.headerId;
    if n == 0 {
      assert s.recs[..0] == [];
      assert IdxBytes(id, [])[16..] + tail == tail;
      assert Entries(s, 0) == [];
      AfterNothing(DecodeChunks(tail));
    } else {
      var init, e := s.recs[..n - 1], EntryAt(id, s.recs, n - 1);
      assert Init(s.recs[..n]) == init;
      var code := EncodeIndex(e);
      assert (IdxBytes(id, init) + code)[16..] + tail == IdxBytes(id, init)[16..] + (code + tail);
      ChunksOfIndex(s, n - 1, code + tail);
      OneChunk(e, tail);
      AfterOne(Entries(s, n - 1), e, DecodeChunks(tail));
      assert Entries(s, n) == Entries(s, n - 1) + [e];
    }
  }

  lemma EmptyIndex(id: u64)
    ensures IdxBytes(id, []) == MagicHeader(INDEX_MAGIC, id)
  {
  }

  lemma IndexStarts(s: Stack)
    ensures MagicHeader(INDEX_MAGIC, s.headerId) <= s.Index()
  {
    hide MagicHeader, IdxBytes;
    EmptyIndex(s.headerId);
    assert s.recs[..0] == [];
    FilesGrow(s.headerId, s.recs, 0);
  }

  lemma HeadBufferOf(head: seq<byte>, bytes: seq<byte>, whole: seq<byte>)
    requires |head| == 16 <= |bytes| && head <= whole && bytes <= whole
    ensures HeadBuffer(bytes) == head
  {
    assert bytes[..16] == whole[..16];
  }

  lemma HeadOfIndex(s: Stack, bytes: seq<byte>)
    requires |bytes| >= 16 && bytes <= s.Index()
    ensures LeValue(HeadBuffer(bytes)[..8]) == INDEX_MAGIC && LeValue(HeadBuffer(bytes)[8..16]) == s.headerId
  {
    hide MagicHeader, IdxBytes, LeValue, HeadBuffer;
    IndexStarts(s);
    HeadBufferOf(MagicHeader(INDEX_MAGIC, s.headerId), bytes, s.Index());
    MagicHeaderReads(INDEX_MAGIC, s.headerId);
  }

  /**
   * A stack is listed as its records, in order, exactly when its header carries its file id, as
   * controller mode writes it; a local stack makes the reader's assertion panic.
   */
  lemma ListBack(store: Store, prefix: Text, s: Stack)
    requires Path(prefix, s.fileId, Idx) in store && store[Path(prefix, s.fileId, Idx)] == s.Index()
    ensures Listed(store, prefix, s.fileId) ==
      if s.headerId == s.fileId then Ok(Entries(s, |s.recs|)) else Panic
  {
    hide DecodeChunks, IdxBytes, Path;
    HeadOfIndex(s, s.Index());
    var n := |s.recs|;
    assert s.recs[..n] == s.recs;
    ChunksOfIndex(s, n, []);
    assert s.Index()[16..] + [] == s.Index()[16..];
    assert DecodeChunks([]) == Ok([]) by { EmptyChunks(); }
    assert Entries(s, n) + [] == Entries(s, n);
  }

  lemma EmptyChunks()
    ensures DecodeChunks([]) == Ok([])
  {
  }

  lemma TornChunk(t: seq<byte>)
    requires 0 < |t| < INDEX_SIZE
    ensures DecodeChunks(t) == Err(IOError)
  {
  }

  lemma TailAfter(first: seq<byte>, bytes: seq<byte>)
    requires first <= bytes && |first| >= 16
    ensures bytes[16..] == first[16..] + bytes[|first|..]
  {
  }

  lemma ChunksOfTorn(s: Stack, k: nat, bytes: seq<byte>)
    requires k <= |s.recs| && bytes <= s.Index() && 16 + INDEX_SIZE * k <= |bytes| < 16 + INDEX_SIZE * (k + 1)
    ensures DecodeChunks(bytes[16..]) == if |bytes| == 16 + INDEX_SIZE * k then Ok(Entries(s, k)) else Err(IOError)
  {
    hide DecodeChunks, IdxBytes, Entries;
    var whole := 16 + INDEX_SIZE * k;
    var first, tail := IdxBytes(s.headerId, s.recs[..k]), bytes[whole..];
    assert first <= bytes by {
      FilesGrow(s.headerId, s.recs, k);
    }
    TailAfter(first, bytes);
    ChunksOfIndex(s, k, tail);
    if tail == [] {
      EmptyChunks();
      assert Entries(s, k) + [] == Entries(s, k);
    } else {
      TornChunk(tail);
    }
  }

  /** An index cut at n bytes lists exactly the whole records in it if the cut is clean, and fails otherwise. */
  lemma ListTorn(store: Store, prefix: Text, s: Stack, bytes: seq<byte>)
    requires s.headerId == s.fileId && |bytes| >= 16 && bytes <= s.Index()
    requires Path(prefix, s.fileId, Idx) in store && store[Path(prefix, s.fileId, Idx)] == bytes
    ensures Listed(store, prefix, s.fileId) ==
      var k := (|bytes| - 16) / INDEX_SIZE;
      if |bytes| == 16 + INDEX_SIZE * k then Ok(Entries(s, k)) else Err(IOError)
  {
    hide DecodeChunks, IdxBytes, Path, HeadBuffer, LeValue, Entries;
    HeadOfIndex(s, bytes);
    ChunksOfTorn(s, (|bytes| - 16) / INDEX_SIZE, bytes);
  }

  // ---- an index cut inside its header ----

  /** The magic number takes three bytes. */
  lemma MagicCut(m: nat)
    requires m <= 8
    ensures INDEX_MAGIC % Pow256(m) == INDEX_MAGIC <==> m >= 3
  {
    assert Pow256(1) == 256 && Pow256(2) == 0x1_0000 && Pow256(3) == 0x100_0000;
    hide Pow256;
    RemainderSame(INDEX_MAGIC, Pow256(m));
    if m >= 3 {
      PowGrows(3, m);
    } else {
      PowGrows(m, 2);
    }
  }

  /** What a 16-byte buffer holds after a shorter read. */
  lemma CutHeader(s: Stack, bytes: seq<byte>)
    requires |bytes| < 16 && bytes <= s.Index()
    ensures
      var head := HeadBuffer(bytes);
      var (m, i) := (if |bytes| < 8 then |bytes| else 8, if |bytes| < 8 then 0 else |bytes| - 8);
      && head[..8] == Le(INDEX_MAGIC, 8)[..m] + Zeros(8 - m)
      && head[8..16] == Le(s.headerId, 8)[..i] + Zeros(8 - i)
  {
    hide IdxBytes, Le, MagicHeader;
    IndexStarts(s);
    HeaderParts(s.headerId);
    var head := Le(INDEX_MAGIC, 8) + Le(s.headerId, 8);
    assert bytes == s.Index()[..|bytes|] == head[..|bytes|];
  }

  lemma HeaderParts(id: u64)
    ensures MagicHeader(INDEX_MAGIC, id) == Le(INDEX_MAGIC, 8) + Le(id, 8)
  {
  }

  /**
   * An index cut inside its header lists with an error if the zeros behind the cut happen to give
   * the header back, and makes the reader's assertions panic otherwise.
   */
  lemma ListHeaderCut(store: Store, prefix: Text, s: Stack, bytes: seq<byte>)
    requires s.headerId == s.fileId && |bytes| < 16 && bytes <= s.Index()
    requires Path(prefix, s.fileId, Idx) in store && store[Path(prefix, s.fileId, Idx)] == bytes
    ensures Listed(store, prefix, s.fileId) ==
      if |bytes| >= 3 && s.fileId < Pow256(if |bytes| < 8 then 0 else |bytes| - 8) then Err(IOError) else Panic
  {
    hide Path, HeadBuffer, Le, LeValue, Zeros, IdxBytes, Pow256;
    var (m, i) := (if |bytes| < 8 then |bytes| else 8, if |bytes| < 8 then 0 else |bytes| - 8);
    CutHeader(s, bytes);
    LeCut(INDEX_MAGIC, 8, m);
    LeCut(s.headerId, 8, i);
    MagicCut(m);
    RemainderSame(s.headerId, Pow256(i));
  }

  /** The size list_al reports is the raw bytes put, exactly when they number fewer than 2^32. */
  lemma FullSizeExact(s: Stack)
    ensures WrappedSum(Entries(s, |s.recs|)) == RawTotal(s.recs) <==> RawTotal(s.recs) < U32
  {
    hide WrappedSum, Entries, RawTotal;
    WrapsAsU32(s, |s.recs|);
    assert s.recs[..|s.recs|] == s.recs;
  }

  lemma EntrySize(s: Stack, k: nat)
    requires k < |s.recs|
    ensures EntryAt(s.headerId, s.recs, k).sizeData == AsU32(|s.recs[k].payload|)
  {
    hide DataBytes, MetaBytes, Line;
    EntryIs(s.headerId, s.recs, k);
  }

  lemma {:induction false} WrapsAsU32(s: Stack, n: nat)
    requires n <= |s.recs|
    ensures WrappedSum(Entries(s, n)) == AsU32(RawTotal(s.recs[..n]))
  {
    hide EntryAt;
    if n > 0 {
      var init := s.recs[..n - 1];
      WrapsAsU32(s, n - 1);
      EntrySize(s, n - 1);
      assert Init(s.recs[..n]) == init && Last(s.recs[..n]) == s.recs[n - 1];
      assert Entries(s, n)[..n - 1] == Entries(s, n - 1);
      SumWraps(RawTotal(init), |s.recs[n - 1].payload|);
    } else {
      assert Entries(s, 0) == [];
    }
  }

  lemma SumWraps(a: nat, b: nat)
    ensures AsU32(AsU32(a) + AsU32(b)) == AsU32(a + b)
  {
  }

  // ---- scanning ----

  /** The scan over files that may be cut, whose index ends behind record n, with k records delivered. */
  function ScanCut(s: Stack, n: nat, k: nat, meta: seq<byte>, data: seq<byte>): Scan
    requires k <= n <= |s.recs|
  {
    Scan(Entries(s, n)[k..], meta, MetaOff(s.headerId, s.recs, k), data, DataOff(s.headerId, s.recs, k))
  }

  /** The iterator that has delivered k records: both cursors stand exactly at record k. */
  function ScanAt(s: Stack, k: nat): Scan
    requires k <= |s.recs|
  {
    ScanCut(s, |s.recs|, k, s.Meta(), s.Data())
  }

  function ItemAt(s: Stack, k: nat): Item
    requires k < |s.recs|
  {
    Found(EntryAt(s.headerId, s.recs, k), MetaOf(s.recs[k], DataOff(s.headerId, s.recs, k)), s.recs[k].payload)
  }

  /** The meta line of record k is short enough for the u32 size of its index record. */
  predicate LineSized(s: Stack, k: nat)
    requires k < |s.recs|
  {
    |Line(s.recs[k], DataOff(s.headerId, s.recs, k))| < U32
  }

  /** Payload and meta line of record k are short enough for the u32 sizes of its index record. */
  predicate Sized(s: Stack, k: nat)
    requires k < |s.recs|
  {
    |s.recs[k].payload| < U32 && LineSized(s, k)
  }

  /** The files begin like the stack's and reach past its first n records. */
  predicate Reaches(s: Stack, n: nat, meta: seq<byte>, data: seq<byte>)
    requires n <= |s.recs|
  {
    && meta <= s.Meta() && MetaOff(s.headerId, s.recs, n) <= |meta|
    && data <= s.Data() && DataOff(s.headerId, s.recs, n) <= |data|
  }

  lemma WholeReaches(s: Stack)
    ensures Reaches(s, |s.recs|, s.Meta(), s.Data())
  {
    hide DataBytes, MetaBytes;
    assert s.recs[..|s.recs|] == s.recs;
  }

  lemma ReachesLess(s: Stack, n: nat, k: nat, meta: seq<byte>, data: seq<byte>)
    requires k <= n <= |s.recs| && Reaches(s, n, meta, data)
    ensures Reaches(s, k, meta, data)
  {
    hide DataBytes, MetaBytes, IdxBytes;
    FilesGrow(s.headerId, s.recs[..n], k);
    assert s.recs[..n][..k] == s.recs[..k];
  }

  /** The slot length the reader recomputes from the index record is the written one. */
  lemma SlotRead(cookie: u32, payload: seq<byte>)
    ensures
      var slot := Slot(cookie, payload);
      && ValidMagic(DecodeData(slot[..HEADER_SIZE]))
      && slot[HEADER_SIZE..HEADER_SIZE + |payload|] == payload
  {
    hide Crc, DecodeData, EncodeData, PaddedSize, Body;
    var slot := Slot(cookie, payload);
    assert slot[0..|slot|] == slot;
    HeadOfSlot(slot, 0, HeaderOf(cookie, payload), Body(payload));
    assert slot[0..HEADER_SIZE] == slot[..HEADER_SIZE];
    assert slot[HEADER_SIZE..HEADER_SIZE + |Body(payload)|][..|payload|] == slot[HEADER_SIZE..HEADER_SIZE + |payload|];
  }

  /** The line the reader cuts out parses exactly if its size survived the cast to u32. */
  lemma LineRead(r: Rec, dataOff: nat)
    ensures ParseRecord(CastPart(Line(r, dataOff))) ==
            if |Line(r, dataOff)| < U32 then Some(MetaOf(r, dataOff)) else None
  {
    hide ParseRecord, RecordLine, MetaOf;
    var line := Line(r, dataOff);
    if |line| < U32 {
      assert line[..|line|] == line;
      RecordRoundTrip(MetaOf(r, dataOff));
    } else {
      RecordCut(MetaOf(r, dataOff), AsU32(|line|));
    }
  }

  lemma SlotOfCut(s: Stack, k: nat, meta: seq<byte>, data: seq<byte>)
    requires k < |s.recs| && Reaches(s, k + 1, meta, data)
    ensures
      var (id, rs) := (s.headerId, s.recs);
      var (d, m) := (DataOff(id, rs, k), MetaOff(id, rs, k));
      && d + SlotSize(|rs[k].payload|) == DataOff(id, rs, k + 1) <= |data|
      && data[d..d + SlotSize(|rs[k].payload|)] == SlotOf(rs[k])
      && m + |Line(rs[k], d)| == MetaOff(id, rs, k + 1) <= |meta|
      && meta[m..m + |Line(rs[k], d)|] == Line(rs[k], d)
  {
    hide SlotSize, Slot, RecordLine, DataBytes, MetaBytes, IdxBytes;
    SlotAt(s.headerId, s.recs, k);
    LineAt(s.headerId, s.recs, k);
  }

  lemma ScanStepCut(s: Stack, n: nat, k: nat, meta: seq<byte>, data: seq<byte>)
    requires k < n <= |s.recs| && Sized(s, k) && Reaches(s, k + 1, meta, data)
    ensures Next(ScanCut(s, n, k, meta, data)) == (ScanCut(s, n, k + 1, meta, data), ItemAt(s, k))
  {
    hide Slot, PaddedSize, ParseRecord, DecodeData, RecordLine, DataBytes, MetaBytes, IdxBytes, LastEntry, ValidMagic,
      Reaches, DataOff, MetaOff;
    var id, rs, es := s.headerId, s.recs, Entries(s, n);
    SlotOfCut(s, k, meta, data);
    EntryIs(id, rs, k);
    assert es[k..][0] == es[k] && es[k..][1..] == es[k + 1..];
    RecordRoundTrip(MetaOf(rs[k], DataOff(id, rs, k)));
    SlotRead(rs[k].cookie, rs[k].payload);
  }

  /** A record that is delivered has the sizes of its index record and a line that parses. */
  lemma FoundSizes(scan: Scan)
    requires Next(scan).1.Found?
    ensures scan.irs != [] && |Next(scan).1.data| == scan.irs[0].sizeData
    ensures scan.metaPos + scan.irs[0].sizeMeta <= |scan.meta|
    ensures ParseRecord(scan.meta[scan.metaPos..scan.metaPos + scan.irs[0].sizeMeta]).Some?
  {
    hide ParseRecord, DecodeData, PaddedSize;
    SlotBounds(scan.irs[0].sizeData);
  }

  /** With a size that did not survive the cast to u32, the reader does not deliver the record. */
  lemma ScanMisses(s: Stack, n: nat, k: nat, meta: seq<byte>, data: seq<byte>)
    requires k < n <= |s.recs| && !Sized(s, k) && Reaches(s, k + 1, meta, data)
    ensures Next(ScanCut(s, n, k, meta, data)).1 != ItemAt(s, k)
  {
    hide Slot, PaddedSize, ParseRecord, RecordLine, DataBytes, MetaBytes, IdxBytes, LastEntry, Reaches, DataOff,
      MetaOff, Next, MetaOf;
    var id, rs, es := s.headerId, s.recs, Entries(s, n);
    var (m, line) := (MetaOff(id, rs, k), Line(rs[k], DataOff(id, rs, k)));
    SlotOfCut(s, k, meta, data);
    EntryIs(id, rs, k);
    assert es[k..][0] == es[k];
    LineRead(rs[k], DataOff(id, rs, k));
    assert meta[m..m + AsU32(|line|)] == meta[m..m + |line|][..AsU32(|line|)] == CastPart(line);
    if Next(ScanCut(s, n, k, meta, data)).1 == ItemAt(s, k) {
      FoundSizes(ScanCut(s, n, k, meta, data));
    }
  }

  lemma ScanCutEnds(s: Stack, n: nat, meta: seq<byte>, data: seq<byte>)
    requires n <= |s.recs|
    ensures Next(ScanCut(s, n, n, meta, data)).1 == Nothing
  {
  }

  /** One call delivers record k, and leaves both cursors at the next, exactly if its sizes fit. */
  lemma ScanStep(s: Stack, k: nat)
    requires k < |s.recs|
    ensures Next(ScanAt(s, k)) == (ScanAt(s, k + 1), ItemAt(s, k)) <==> Sized(s, k)
  {
    hide Next, ScanCut, ItemAt, Sized, Reaches, DataBytes, MetaBytes;
    WholeReaches(s);
    ReachesLess(s, |s.recs|, k + 1, s.Meta(), s.Data());
    if Sized(s, k) {
      ScanStepCut(s, |s.recs|, k, s.Meta(), s.Data());
    } else {
      ScanMisses(s, |s.recs|, k, s.Meta(), s.Data());
    }
  }

  /** n calls of next(). */
  function Drain(scan: Scan, n: nat): (items: seq<Item>)
    ensures |items| == n
    decreases n
  {
    if n == 0 then [] else [Next(scan).1] + Drain(Next(scan).0, n - 1)
  }

  /** The items of the records from k on, up to n. */
  function ItemsFrom(s: Stack, k: nat, n: nat): (items: seq<Item>)
    requires k <= n <= |s.recs|
    ensures |items| == n - k
    decreases n - k
  {
    if k == n then [] else [ItemAt(s, k)] + ItemsFrom(s, k + 1, n)
  }

  lemma {:induction false} ItemsAt(s: Stack, k: nat, n: nat, j: nat)
    requires k <= j < n <= |s.recs|
    ensures ItemsFrom(s, k, n)[j - k] == ItemAt(s, j)
    decreases j - k
  {
    hide ItemAt;
    if k < j {
      ItemsAt(s, k + 1, n, j);
      assert ItemsFrom(s, k, n)[j - k] == ItemsFrom(s, k + 1, n)[j - (k + 1)];
    }
  }

  lemma SameItems<T>(a: T, xs: seq<T>, b: T, ys: seq<T>, end: T)
    ensures [a] + xs == ([b] + ys) + [end] <==> a == b && xs == ys + [end]
  {
    var (l, r) := ([a] + xs, ([b] + ys) + [end]);
    assert l[0] == a && l[1..] == xs && r[0] == b && r[1..] == ys + [end];
    if a == b && xs == ys + [end] {
      assert r == [b] + (ys + [end]);
    }
  }

  lemma DrainEnds(s: Stack, n: nat, meta: seq<byte>, data: seq<byte>)
    requires n <= |s.recs|
    ensures Drain(ScanCut(s, n, n, meta, data), 1) == ItemsFrom(s, n, n) + [Nothing]
  {
    hide Next, ScanCut, ItemAt;
    ScanCutEnds(s, n, meta, data);
    assert Drain(Next(ScanCut(s, n, n, meta, data)).0, 0) == [];
  }

  /** The calls deliver the records up to n, in order, and then nothing, exactly if the sizes of all of them fit. */
  lemma {:induction false} DrainCut(s: Stack, n: nat, k: nat, meta: seq<byte>, data: seq<byte>)
    requires k <= n <= |s.recs| && Reaches(s, n, meta, data)
    ensures Drain(ScanCut(s, n, k, meta, data), n - k + 1) == ItemsFrom(s, k, n) + [Nothing] <==>
            forall l :: k <= l < n ==> Sized(s, l)
    decreases n - k
  {
    hide Next, ScanCut, ItemAt, Sized, Reaches;
    if k < n {
      var scan := ScanCut(s, n, k, meta, data);
      ReachesLess(s, n, k + 1, meta, data);
      SameItems(Next(scan).1, Drain(Next(scan).0, n - k), ItemAt(s, k), ItemsFrom(s, k + 1, n), Nothing);
      if Sized(s, k) {
        ScanStepCut(s, n, k, meta, data);
        DrainCut(s, n, k + 1, meta, data);
      } else {
        ScanMisses(s, n, k, meta, data);
      }
    } else {
      DrainEnds(s, n, meta, data);
    }
  }

  /** All three files of a stack are stored in full. */
  predicate Stored(store: Store, prefix: Text, s: Stack) {
    var d, m, i := Path(prefix, s.fileId, Data), Path(prefix, s.fileId, Meta), Path(prefix, s.fileId, Idx);
    && d in store && store[d] == s.Data()
    && m in store && store[m] == s.Meta()
    && i in store && store[i] == s.Index()
  }

  lemma OpenBack(store: Store, prefix: Text, s: Stack)
    requires Stored(store, prefix, s) && s.headerId == s.fileId
    ensures Opened(store, prefix, s.fileId) == Ok(ScanAt(s, 0))
  {
    hide Listed, Path, Entries, DataBytes, MetaBytes, IdxBytes, HeaderLine;
    ListBack(store, prefix, s);
    StartOfFiles(s);
    assert Entries(s, |s.recs|)[0..] == Entries(s, |s.recs|);
  }

  lemma StartOfFiles(s: Stack)
    ensures DataOff(s.headerId, s.recs, 0) == 4096 <= |s.Data()|
    ensures MetaOff(s.headerId, s.recs, 0) == |HeaderLine(s.headerId)| <= |s.Meta()|
  {
    EmptyFiles(s.headerId);
    hide DataBytes, MetaBytes, IdxBytes, HeaderLine;
    assert s.recs[..0] == [];
    FilesGrow(s.headerId, s.recs, 0);
  }

  lemma EmptyFiles(id: u64)
    ensures |DataBytes(id, [])| == 4096 && MetaBytes(id, []) == HeaderLine(id) && RawTotal([]) == 0
  {
  }

  /** The scan delivers every record put, in order, and then nothing, exactly if the sizes of all of them fit. */
  lemma ScanExact(store: Store, prefix: Text, s: Stack)
    requires Stored(store, prefix, s) && s.headerId == s.fileId
    ensures
      var scan, n := Opened(store, prefix, s.fileId), |s.recs|;
      && scan.Ok?
      && (Drain(scan.value, n + 1) == ItemsFrom(s, 0, n) + [Nothing] <==> forall k :: 0 <= k < n ==> Sized(s, k))
  {
    hide Next, Opened, Sized, Stored, ScanCut, DataBytes, MetaBytes, Drain, ItemsFrom, Reaches;
    OpenBack(store, prefix, s);
    WholeReaches(s);
    DrainCut(s, |s.recs|, 0, s.Meta(), s.Data());
  }

  /** The item of record k says in every field what was put, and where its slot and its line are. */
  lemma ItemIs(s: Stack, k: nat)
    requires k < |s.recs|
    ensures
      var r, off := s.recs[k], DataOff(s.headerId, s.recs, k);
      var meta, line := MetaOff(s.headerId, s.recs, k), Line(r, off);
      && ItemAt(s, k) ==
           Found(IndexRecord(r.cookie, AsU64(off), AsU32(|r.payload|), AsU64(meta), AsU32(|line|)),
                 MetaRecord(r.time, AsU64(off), AsU32(|r.payload|), r.cookie, r.filename, r.extra), r.payload)
      && PairAt(s, k) == (ItemAt(s, k).ir, ItemAt(s, k).mr)
  {
    hide SlotOf, Line, DataBytes, MetaBytes, IdxBytes, LastEntry;
    EntryIs(s.headerId, s.recs, k);
  }

  /**
   * Scanning a stack delivers every record put, in order, then nothing, exactly if all sizes fit:
   * the k-th item carries the k-th index record, meta record and payload, which is also what
   * fetching its id returns, exactly if that payload is under 2^32 bytes.
   */
  lemma ScanEqualsIndex(store: Store, prefix: Text, s: Stack, k: nat, checkCrc: bool)
    requires Stored(store, prefix, s) && s.headerId == s.fileId
    requires |s.Data()| <= U64 && k < |s.recs|
    ensures
      var scan, n := Opened(store, prefix, s.fileId), |s.recs|;
      && scan.Ok?
      && (Drain(scan.value, n + 1) == ItemsFrom(s, 0, n) + [Nothing] <==> forall j :: 0 <= j < n ==> Sized(s, j))
      && ItemsFrom(s, 0, n)[k] == ItemAt(s, k)
      && (Fetched(store, prefix, IdAt(s, k), checkCrc) == Ok(ItemAt(s, k).data) <==> |s.recs[k].payload| < U32)
  {
    hide Next, Opened, Sized, Fetched, Stored, ScanAt, DataBytes, Drain, ItemsFrom, IdAt, MetaOf, EntryAt, Entries;
    ScanExact(store, prefix, s);
    ItemsAt(s, 0, |s.recs|, k);
    FetchScanned(store, prefix, s, k, checkCrc);
  }

  lemma FetchScanned(store: Store, prefix: Text, s: Stack, k: nat, checkCrc: bool)
    requires Stored(store, prefix, s) && k < |s.recs| && |s.Data()| <= U64
    ensures Fetched(store, prefix, IdAt(s, k), checkCrc) == Ok(s.recs[k].payload) <==> |s.recs[k].payload| < U32
  {
    hide Path, SlotOf, Line, Fetched, DataBytes, MetaBytes, IdxBytes;
    SlotAt(s.headerId, s.recs, k);
    FetchBack(store, prefix, s, k, checkCrc);
  }

  // ---- scanning what a crash left ----

  /** Cut files whose index ends cleanly behind record n scan as the first n records, exactly if their sizes fit. */
  lemma ScanTorn(store: Store, prefix: Text, s: Stack, n: nat)
    requires s.headerId == s.fileId && n <= |s.recs|
    requires Path(prefix, s.fileId, Idx) in store && store[Path(prefix, s.fileId, Idx)] <= s.Index()
    requires |store[Path(prefix, s.fileId, Idx)]| == 16 + INDEX_SIZE * n
    requires Path(prefix, s.fileId, Meta) in store && Path(prefix, s.fileId, Data) in store
    requires Reaches(s, n, store[Path(prefix, s.fileId, Meta)], store[Path(prefix, s.fileId, Data)])
    ensures
      var scan := Opened(store, prefix, s.fileId);
      && scan.Ok?
      && (Drain(scan.value, n + 1) == ItemsFrom(s, 0, n) + [Nothing] <==> forall l :: 0 <= l < n ==> Sized(s, l))
  {
    hide Listed, Path, Entries, DataBytes, MetaBytes, IdxBytes, HeaderLine, Drain, ItemsFrom, Sized, Reaches, DataOff,
      MetaOff;
    var (meta, data) := (store[Path(prefix, s.fileId, Meta)], store[Path(prefix, s.fileId, Data)]);
    ListTorn(store, prefix, s, store[Path(prefix, s.fileId, Idx)]);
    ReachesLess(s, n, 0, meta, data);
    ReachesStart(s, meta, data);
    assert Entries(s, n)[0..] == Entries(s, n);
    DrainCut(s, n, 0, meta, data);
  }

  lemma ReachesStart(s: Stack, meta: seq<byte>, data: seq<byte>)
    requires Reaches(s, 0, meta, data)
    ensures DataOff(s.headerId, s.recs, 0) == 4096 <= |data|
    ensures MetaOff(s.headerId, s.recs, 0) == |HeaderLine(s.headerId)| <= |meta|
  {
    hide DataBytes, MetaBytes, IdxBytes, HeaderLine;
    StartOfFiles(s);
  }

  /** The headers of meta and data are there whole. */
  predicate HeadersThere(store: Store, prefix: Text, s: Stack) {
    var (m, d) := (Path(prefix, s.fileId, Meta), Path(prefix, s.fileId, Data));
    m in store && d in store && |HeaderLine(s.fileId)| <= |store[m]| && DATA_START <= |store[d]|
  }

  /** Behind a clean index the scan fails to open exactly if it cannot skip both headers. */
  lemma ScanOpens(store: Store, prefix: Text, s: Stack, n: nat)
    requires s.headerId == s.fileId && n <= |s.recs|
    requires Path(prefix, s.fileId, Idx) in store && store[Path(prefix, s.fileId, Idx)] <= s.Index()
    requires |store[Path(prefix, s.fileId, Idx)]| == 16 + INDEX_SIZE * n
    ensures
      var scan := Opened(store, prefix, s.fileId);
      if HeadersThere(store, prefix, s) then scan.Ok? else scan == Err(IOError)
  {
    hide Listed, Path, Entries, IdxBytes, HeaderLine;
    ListTorn(store, prefix, s, store[Path(prefix, s.fileId, Idx)]);
  }

  // ---- scanning index and meta only ----

  function MetaScanAt(s: Stack, k: nat): MetaScan
    requires k <= |s.recs|
  {
    MetaScan(Entries(s, |s.recs|)[k..], s.Meta(), MetaOff(s.headerId, s.recs, k))
  }

  /** n calls of next(). */
  function DrainMeta(scan: MetaScan, n: nat): seq<Option<(IndexRecord, MetaRecord)>>
    decreases n
  {
    if n == 0 then [] else [NextMeta(scan).1] + DrainMeta(NextMeta(scan).0, n - 1)
  }

  /** The pair of record k. */
  function PairAt(s: Stack, k: nat): (IndexRecord, MetaRecord)
    requires k < |s.recs|
  {
    (EntryAt(s.headerId, s.recs, k), MetaOf(s.recs[k], DataOff(s.headerId, s.recs, k)))
  }

  /** One call delivers pair k, and leaves the cursor at the next line, exactly if the line's size fits. */
  lemma MetaScanStep(s: Stack, k: nat)
    requires k < |s.recs|
    ensures NextMeta(MetaScanAt(s, k)).1 == Some(PairAt(s, k)) <==> LineSized(s, k)
    ensures LineSized(s, k) ==> NextMeta(MetaScanAt(s, k)).0 == MetaScanAt(s, k + 1)
  {
    hide ParseRecord, RecordLine, DataBytes, MetaBytes, IdxBytes, LastEntry, MetaOf;
    var id, rs, es := s.headerId, s.recs, Entries(s, |s.recs|);
    var (m, line) := (MetaOff(id, rs, k), Line(rs[k], DataOff(id, rs, k)));
    LineAt(id, rs, k);
    EntryIs(id, rs, k);
    assert es[k..][0] == es[k] && es[k..][1..] == es[k + 1..];
    LineRead(rs[k], DataOff(id, rs, k));
    assert s.Meta()[m..m + AsU32(|line|)] == s.Meta()[m..m + |line|][..AsU32(|line|)] == CastPart(line);
  }

  /** The pairs of the records from k on, as the calls deliver them. */
  function PairsFrom(s: Stack, k: nat): (pairs: seq<Option<(IndexRecord, MetaRecord)>>)
    requires k <= |s.recs|
    ensures |pairs| == |s.recs| - k
    decreases |s.recs| - k
  {
    if k == |s.recs| then [] else [Some(PairAt(s, k))] + PairsFrom(s, k + 1)
  }

  lemma {:induction false} PairsAt(s: Stack, k: nat, j: nat)
    requires k <= j < |s.recs|
    ensures PairsFrom(s, k)[j - k] == Some(PairAt(s, j))
    decreases j - k
  {
    hide PairAt;
    if k < j {
      PairsAt(s, k + 1, j);
      assert PairsFrom(s, k)[j - k] == PairsFrom(s, k + 1)[j - (k + 1)];
    }
  }

  /**
   * The meta iterator delivers the index and meta record of every record from k on, in order, and
   * then nothing, exactly if the sizes of all their lines fit.
   */
  lemma {:induction false} MetaScanEqualsIndex(s: Stack, k: nat)
    requires k <= |s.recs|
    ensures DrainMeta(MetaScanAt(s, k), |s.recs| - k + 1) == PairsFrom(s, k) + [None] <==>
            forall l :: k <= l < |s.recs| ==> LineSized(s, l)
    decreases |s.recs| - k
  {
    hide NextMeta, MetaScanAt, PairAt, LineSized;
    var scan := MetaScanAt(s, k);
    if k < |s.recs| {
      MetaScanStep(s, k);
      SameItems(NextMeta(scan).1, DrainMeta(NextMeta(scan).0, |s.recs| - k), Some(PairAt(s, k)), PairsFrom(s, k + 1),
                None);
      if LineSized(s, k) {
        MetaScanEqualsIndex(s, k + 1);
      }
    } else {
      MetaScanEnds(s);
      assert DrainMeta(NextMeta(scan).0, 0) == [];
    }
  }

  lemma MetaScanEnds(s: Stack)
    ensures NextMeta(MetaScanAt(s, |s.recs|)).1 == None
  {
  }

  // ---- the meta file line by line ----

  function MetaText(id: u64, rs: seq<Rec>, k: nat): Text
    requires k < |rs|
  {
    PrintObject(Members(MetaOf(rs[k], DataOff(id, rs, k))))
  }

  /** The lines the meta file should split into. */
  function LinesOf(id: u64, rs: seq<Rec>): seq<Text> {
    if rs == [] then [PrintObject(HeaderMembers(id))] else LinesOf(id, Init(rs)) + [MetaText(id, rs, |rs| - 1)]
  }

  lemma MembersThere(m: MetaRecord, id: u64)
    ensures Members(m) != [] && HeaderMembers(id) != []
  {
  }

  /** The meta file splits at newlines into the header and one line a record. */
  lemma {:induction false} MetaLines(id: u64, rs: seq<Rec>)
    ensures MetaBytes(id, rs) != [] && MetaBytes(id, rs)[|MetaBytes(id, rs)| - 1] == NEWLINE
    ensures SplitLines(MetaBytes(id, rs)) == LinesOf(id, rs)
  {
    hide PrintObject, DataBytes, Members, HeaderMembers, SplitLines;
    if rs == [] {
      MembersThere(MetaRecord(0, 0, 0, 0, [], []), id);
      ObjectIsLine(HeaderMembers(id));
    } else {
      var init, n := Init(rs), |rs| - 1;
      var m := MetaOf(rs[n], |DataBytes(id, init)|);
      assert rs[..n] == init;
      MetaLines(id, init);
      MembersThere(m, id);
      ObjectIsLine(Members(m));
      SplitConcat(MetaBytes(id, init), RecordLine(m));
    }
  }

  /**
   * Offset and size of each index record cut out exactly its line, which parses to all six fields,
   * exactly if the line is shorter than 2^32 bytes; what is cut out of a longer one is no record.
   */
  lemma MetaCut(s: Stack, k: nat)
    requires k < |s.recs| && |s.Meta()| <= U64
    ensures
      var e := EntryAt(s.headerId, s.recs, k);
      && e.offsetMeta + e.sizeMeta <= |s.Meta()|
      && var cut := s.Meta()[e.offsetMeta..e.offsetMeta + e.sizeMeta];
      && (cut == MetaText(s.headerId, s.recs, k) + [NEWLINE] <==> LineSized(s, k))
      && ParseRecord(cut) ==
           if LineSized(s, k) then Some(MetaOf(s.recs[k], DataOff(s.headerId, s.recs, k))) else None
  {
    hide ParseRecord, PrintObject, Members, DataBytes, MetaBytes, EntryAt;
    var (m, line) := (MetaOff(s.headerId, s.recs, k), Line(s.recs[k], DataOff(s.headerId, s.recs, k)));
    LineAt(s.headerId, s.recs, k);
    EntryIs(s.headerId, s.recs, k);
    LineRead(s.recs[k], DataOff(s.headerId, s.recs, k));
    assert s.Meta()[m..m + AsU32(|line|)] == s.Meta()[m..m + |line|][..AsU32(|line|)] == CastPart(line);
  }
}
