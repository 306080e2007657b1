/** What the reader makes of any bytes at all, sound or damaged: each outcome and exactly when it comes. */
module Outcomes {
  import opened Bytes
  import opened Crc32c
  import opened Formats
  import opened IndexId
  import opened MetaJson
  import opened Paths
  import opened Reader
  import opened Records

  // ---- fetch ----

  /** A slot header with the right start magic at an offset. */
  predicate HeaderAt(bytes: seq<byte>, off: nat, h: DataHeader) {
    off + 20 <= |bytes| && DecodeData(bytes[off..off + 20]) == h && h.start == 257758
  }

  /** A payload behind such a header that has this cookie, its length, and its checksum if that is tested. */
  predicate PayloadAt(bytes: seq<byte>, off: nat, h: DataHeader, cookie: u32, checkCrc: bool, p: seq<byte>) {
    && HeaderAt(bytes, off, h) && h.cookie == cookie && h.size == |p|
    && off + 20 + |p| <= |bytes| && bytes[off + 20..off + 20 + |p|] == p
    && (checkCrc ==> Crc(p) == h.crc)
  }

  lemma FetchAtExact(bytes: seq<byte>, off: nat, cookie: u32, checkCrc: bool, p: seq<byte>)
    ensures FetchAt(bytes, off, cookie, checkCrc) == Ok(p) <==>
      exists h :: PayloadAt(bytes, off, h, cookie, checkCrc, p)
    ensures FetchAt(bytes, off, cookie, checkCrc) == Err(InvalidArgument) <==>
      exists h :: HeaderAt(bytes, off, h) && h.cookie != cookie
    ensures FetchAt(bytes, off, cookie, checkCrc) != Panic
  {
    hide DecodeData, Crc;
    if off + 20 <= |bytes| {
      var h := DecodeData(bytes[off..off + 20]);
      assert HeaderAt(bytes, off, h) <==> ValidMagic(h);
      if FetchAt(bytes, off, cookie, checkCrc) == Ok(p) {
        assert PayloadAt(bytes, off, h, cookie, checkCrc, p);
      }
    }
  }

  /** Only the number formats of the id can make fetch panic; a missing file is an error like a torn one. */
  lemma FetchExact(store: Store, prefix: Text, id: Text, checkCrc: bool, p: seq<byte>)
    ensures Fetched(store, prefix, id, checkCrc) == Panic <==> ParseId(id).Panicked?
    ensures Fetched(store, prefix, id, checkCrc) == Ok(p) <==>
      && ParseId(id).Id? && Path(prefix, ParseId(id).id.stackId, Data) in store
      && var i := ParseId(id).id;
         exists h :: PayloadAt(store[Path(prefix, i.stackId, Data)], i.offsetData, h, i.cookie, checkCrc, p)
    ensures Fetched(store, prefix, id, checkCrc) == Err(InvalidArgument) <==>
      && ParseId(id).Id? && Path(prefix, ParseId(id).id.stackId, Data) in store
      && var i := ParseId(id).id;
         exists h :: HeaderAt(store[Path(prefix, i.stackId, Data)], i.offsetData, h) && h.cookie != i.cookie
  {
    hide ParseId, Path, FetchAt, PayloadAt, HeaderAt;
    if ParseId(id).Id? {
      var i := ParseId(id).id;
      var path := Path(prefix, i.stackId, Data);
      if path in store {
        FetchAtExact(store[path], i.offsetData, i.cookie, checkCrc, p);
      }
    }
  }

  /** The four bytes of the end magic are never looked at. */
  lemma EndMagicUnread(bytes: seq<byte>, other: seq<byte>, off: nat, cookie: u32, checkCrc: bool)
    requires |bytes| == |other|
    requires forall i :: 0 <= i < |bytes| && !(off + 16 <= i < off + 20) ==> bytes[i] == other[i]
    ensures FetchAt(bytes, off, cookie, checkCrc) == FetchAt(other, off, cookie, checkCrc)
  {
    hide Crc, LeValue;
    if off + 20 <= |bytes| {
      SameField(bytes, other, off, 0);
      SameField(bytes, other, off, 4);
      SameField(bytes, other, off, 8);
      SameField(bytes, other, off, 12);
      var body := off + 20;
      var size := DecodeData(bytes[off..off + 20]).size;
      if body + size <= |bytes| {
        assert bytes[body..body + size] == other[body..body + size];
      }
    }
  }

  lemma SameField(bytes: seq<byte>, other: seq<byte>, off: nat, at: nat)
    requires |bytes| == |other| && at <= 16 && off + 20 <= |bytes|
    requires forall i :: off + at <= i < off + at + 4 ==> bytes[i] == other[i]
    ensures bytes[off..off + 20][at..at + 4] == other[off..off + 20][at..at + 4]
  {
    Inside(bytes, off, off + 20, at, at + 4);
    Inside(other, off, off + 20, at, at + 4);
    assert bytes[off + at..off + (at + 4)] == other[off + at..off + (at + 4)];
  }

  lemma Inside(bs: seq<byte>, a: nat, b: nat, c: nat, d: nat)
    requires a <= b <= |bs| && c <= d <= b - a
    ensures bs[a..b][c..d] == bs[a + c..a + d]
  {
    forall k | 0 <= k < d - c
      ensures bs[a..b][c..d][k] == bs[a + c..a + d][k]
    {
      assert bs[a..b][c..d][k] == bs[a..b][c + k];
    }
  }

  // ---- listing ----

  function Coded(irs: seq<IndexRecord>): seq<byte> {
    if irs == [] then [] else EncodeIndex(irs[0]) + Coded(irs[1..])
  }

  lemma Field(bs: seq<byte>, a: nat, b: nat)
    requires a <= b <= |bs|
    ensures Le(LeValue(bs[a..b]), b - a) == bs[a..b]
  {
    LeOf(bs[a..b]);
  }

  /** 28 bytes are the code of exactly the record they decode to. */
  lemma CodeOf(bs: seq<byte>)
    requires |bs| == 28
    ensures EncodeIndex(DecodeIndex(bs)) == bs
  {
    hide Le, LeValue;
    Field(bs, 0, 4);
    Field(bs, 4, 12);
    Field(bs, 12, 16);
    Field(bs, 16, 24);
    Field(bs, 24, 28);
  }

  lemma {:induction false} DecodeCoded(irs: seq<IndexRecord>)
    ensures DecodeChunks(Coded(irs)) == Ok(irs)
  {
    hide EncodeIndex, DecodeIndex;
    if irs != [] {
      var bs := Coded(irs);
      DecodeCoded(irs[1..]);
      IndexRoundTrip(irs[0]);
      assert bs[..28] == EncodeIndex(irs[0]) && bs[28..] == Coded(irs[1..]);
      assert irs == [irs[0]] + irs[1..];
    }
  }

  lemma {:induction false} CodedDecodes(bs: seq<byte>)
    requires DecodeChunks(bs).Ok?
    ensures bs == Coded(DecodeChunks(bs).value)
  {
    hide EncodeIndex, DecodeIndex;
    if bs != [] {
      var more := DecodeChunks(bs[28..]);
      CodedDecodes(bs[28..]);
      CodeOf(bs[..28]);
      assert DecodeChunks(bs).value == [DecodeIndex(bs[..28])] + more.value;
      assert DecodeChunks(bs).value[1..] == more.value;
      assert bs == bs[..28] + bs[28..];
    }
  }

  lemma ChunksExact(bs: seq<byte>, irs: seq<IndexRecord>)
    ensures DecodeChunks(bs) == Ok(irs) <==> bs == Coded(irs)
    ensures DecodeChunks(bs).Ok? || DecodeChunks(bs) == Err(IOError)
  {
    hide Coded;
    DecodeCoded(irs);
    if DecodeChunks(bs).Ok? {
      CodedDecodes(bs);
    }
    ChunksFail(bs);
  }

  lemma {:induction false} ChunksFail(bs: seq<byte>)
    ensures DecodeChunks(bs).Ok? || DecodeChunks(bs) == Err(IOError)
  {
    hide DecodeIndex;
    if |bs| >= 28 {
      ChunksFail(bs[28..]);
    }
  }

  lemma HeadExact(head: seq<byte>, stackId: u64)
    requires |head| == 16
    ensures LeValue(head[..8]) == INDEX_MAGIC && LeValue(head[8..16]) == stackId <==>
            head == MagicHeader(INDEX_MAGIC, stackId)
  {
    hide Le, LeValue;
    Field(head, 0, 8);
    Field(head, 8, 16);
    assert head == head[0..8] + head[8..16] && head[..8] == head[0..8];
    MagicHeaderReads(INDEX_MAGIC, stackId);
  }

  /** An index lists as records exactly if it is the header and their codes, with nothing else behind them. */
  lemma ListExact(store: Store, prefix: Text, stackId: u64, irs: seq<IndexRecord>)
    ensures
      var path := Path(prefix, stackId, Idx);
      if path !in store then Listed(store, prefix, stackId) == Err(IOError)
      else
        && (Listed(store, prefix, stackId) == Panic <==>
            HeadBuffer(store[path]) != MagicHeader(INDEX_MAGIC, stackId))
        && (Listed(store, prefix, stackId) == Ok(irs) <==>
            store[path] == MagicHeader(INDEX_MAGIC, stackId) + Coded(irs))
        && Listed(store, prefix, stackId) != Err(InvalidArgument)
  {
    hide Path, LeValue, MagicHeader, DecodeChunks, Coded;
    var path := Path(prefix, stackId, Idx);
    if path in store {
      var bytes := store[path];
      HeadExact(HeadBuffer(bytes), stackId);
      if |bytes| >= 16 {
        ChunksExact(bytes[16..], irs);
        assert bytes == bytes[..16] + bytes[16..];
      }
      var whole := MagicHeader(INDEX_MAGIC, stackId) + Coded(irs);
      assert whole[..16] == MagicHeader(INDEX_MAGIC, stackId) && whole[16..] == Coded(irs);
    }
  }

  /** The 16 bytes read of a shorter file are filled up with zeros. */
  lemma ShortHead(bytes: seq<byte>, i: nat)
    requires i < 16
    ensures HeadBuffer(bytes)[i] == if i < |bytes| then bytes[i] else 0
  {
  }

  /** The scan opens exactly if the index lists and both files reach behind their headers. */
  lemma OpenExact(store: Store, prefix: Text, stackId: u64, s: Scan)
    ensures Opened(store, prefix, stackId) == Panic <==> Listed(store, prefix, stackId) == Panic
    ensures
      var meta, data := Path(prefix, stackId, Meta), Path(prefix, stackId, Data);
      Opened(store, prefix, stackId) == Ok(s) <==>
      && Listed(store, prefix, stackId) == Ok(s.irs)
      && meta in store && store[meta] == s.meta && s.metaPos == |HeaderLine(stackId)| <= |s.meta|
      && data in store && store[data] == s.data && s.dataPos == 4096 <= |s.data|
    ensures Opened(store, prefix, stackId) != Err(InvalidArgument)
  {
    hide Path, Listed, HeaderLine;
    ListFails(store, prefix, stackId);
  }

  lemma ListFails(store: Store, prefix: Text, stackId: u64)
    ensures Listed(store, prefix, stackId) != Err(InvalidArgument)
  {
    hide Listed, Path, Coded, MagicHeader;
    ListExact(store, prefix, stackId, []);
  }

  // ---- scanning ----

  /** The line an index record names, at the cursor. */
  predicate LineAt(meta: seq<byte>, pos: nat, size: nat, mr: MetaRecord) {
    pos + size <= |meta| && ParseRecord(meta[pos..pos + size]) == Some(mr)
  }

  function Least(a: nat, b: nat): nat {
    if a < b then a else b
  }

  /** Each call drops one record, whatever becomes of it, and neither cursor moves back or past the end. */
  lemma NextExact(s: Scan, ir: IndexRecord, mr: MetaRecord, data: seq<byte>)
    ensures s.irs == [] ==> Next(s) == (s, Nothing)
    ensures s.irs != [] ==>
      var (t, item) := Next(s);
      var want := s.irs[0];
      var end := s.dataPos + 20 + PaddedSize(want.sizeData);
      && t.irs == s.irs[1..] && t.meta == s.meta && t.data == s.data
      && (item == Found(ir, mr, data) <==>
          && ir == want && LineAt(s.meta, s.metaPos, want.sizeMeta, mr)
          && end <= |s.data| && (exists h :: HeaderAt(s.data, s.dataPos, h))
          && data == s.data[s.dataPos + 20..s.dataPos + 20 + want.sizeData])
      && (item == Crashed <==>
          && (exists m :: LineAt(s.meta, s.metaPos, want.sizeMeta, m))
          && end <= |s.data| && !exists h :: HeaderAt(s.data, s.dataPos, h))
      && t.metaPos == Least(s.metaPos + want.sizeMeta, |s.meta|)
      && t.dataPos ==
           if exists m :: LineAt(s.meta, s.metaPos, want.sizeMeta, m) then Least(end, |s.data|) else s.dataPos
  {
    hide DecodeData, ParseRecord, PaddedSize;
    if s.irs != [] {
      var want := s.irs[0];
      SlotBounds(want.sizeData);
      var metaEnd, end := s.metaPos + want.sizeMeta, s.dataPos + 20 + PaddedSize(want.sizeData);
      if metaEnd <= |s.meta| && ParseRecord(s.meta[s.metaPos..metaEnd]).Some? {
        assert LineAt(s.meta, s.metaPos, want.sizeMeta, ParseRecord(s.meta[s.metaPos..metaEnd]).value);
        if end <= |s.data| {
          var slot := s.data[s.dataPos..end];
          Inside(s.data, s.dataPos, end, 0, 20);
          Inside(s.data, s.dataPos, end, 20, 20 + want.sizeData);
          assert HeaderAt(s.data, s.dataPos, DecodeData(slot[0..20])) <==> ValidMagic(DecodeData(slot[0..20]));
        }
      }
    }
  }

  lemma NextMetaExact(s: MetaScan, ir: IndexRecord, mr: MetaRecord)
    ensures s.irs == [] ==> NextMeta(s) == (s, None)
    ensures s.irs != [] ==>
      var (t, pair) := NextMeta(s);
      && t == MetaScan(s.irs[1..], s.meta, Least(s.pos + s.irs[0].sizeMeta, |s.meta|))
      && (pair == Some((ir, mr)) <==> ir == s.irs[0] && LineAt(s.meta, s.pos, ir.sizeMeta, mr))
  {
    hide ParseRecord;
  }
}
