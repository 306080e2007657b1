/** The binary layouts of the data and index files, and the slot arithmetic around them. */
module Records {
  import opened Bytes
  import opened Crc32c

  const ALIGNMENT := 4096
  const HEADER_SIZE := 20
  const INDEX_SIZE := 28
  const DATA_MAGIC := 47494638
  const INDEX_MAGIC := 5201314
  const MAGIC_START := 257758
  const MAGIC_END := 857752

  /** DataMagicHeader and IndexMagicHeader: a magic number and a stack id. */
  function MagicHeader(magic: u64, stackId: u64): (bs: seq<byte>)
    ensures |bs| == 16
  {
    Le(magic, 8) + Le(stackId, 8)
  }

  lemma MagicHeaderReads(magic: u64, stackId: u64)
    ensures LeValue(MagicHeader(magic, stackId)[..8]) == magic
    ensures LeValue(MagicHeader(magic, stackId)[8..16]) == stackId
  {
    Le8(magic);
    Le8(stackId);
    assert MagicHeader(magic, stackId)[..8] == Le(magic, 8);
    assert MagicHeader(magic, stackId)[8..16] == Le(stackId, 8);
  }

  // ---- slots ----

  /** padding_data_size: the payload with the padding behind it. */
  function PaddedSize(size: nat): nat {
    if (size + HEADER_SIZE) % ALIGNMENT == 0 then size
    else size + ALIGNMENT - (size + HEADER_SIZE) % ALIGNMENT
  }

  /** The padding formula of the Go and Python writers. */
  function PadSize(size: nat): nat {
    (ALIGNMENT - (HEADER_SIZE + size) % ALIGNMENT) % ALIGNMENT
  }

  function SlotSize(size: nat): nat {
    HEADER_SIZE + PaddedSize(size)
  }

  lemma SlotBounds(size: nat)
    ensures SlotSize(size) % ALIGNMENT == 0
    ensures HEADER_SIZE + size <= SlotSize(size) <= size + 4115
    ensures size <= PaddedSize(size)
  {
  }

  /** The three formulas agree on the least multiple of 4096 that holds header and payload. */
  lemma SlotsAgree(size: nat)
    ensures PaddedSize(size) == size + PadSize(size)
    ensures SlotSize(size) % ALIGNMENT == 0 && HEADER_SIZE + size <= SlotSize(size)
    ensures forall n: nat :: n % ALIGNMENT == 0 && HEADER_SIZE + size <= n ==> SlotSize(size) <= n
  {
  }

  // ---- data records ----

  datatype DataHeader = DataHeader(start: u32, cookie: u32, size: u32, crc: u32, end: u32)

  function EncodeData(h: DataHeader): (bs: seq<byte>)
    ensures |bs| == HEADER_SIZE
  {
    Le(h.start, 4) + Le(h.cookie, 4) + Le(h.size, 4) + Le(h.crc, 4) + Le(h.end, 4)
  }

  function DecodeU32(bs: seq<byte>, at: nat): u32
    requires at + 4 <= |bs|
  {
    LeBound(bs[at..at + 4]);
    LeValue(bs[at..at + 4])
  }

  function DecodeU64(bs: seq<byte>, at: nat): u64
    requires at + 8 <= |bs|
  {
    LeBound(bs[at..at + 8]);
    LeValue(bs[at..at + 8])
  }

  lemma {:induction false} LeBelow(bs: seq<byte>)
    ensures LeValue(bs) < Pow256(|bs|)
  {
    if bs != [] {
      LeBelow(bs[1..]);
    }
  }

  lemma LeBound(bs: seq<byte>)
    ensures |bs| == 4 ==> LeValue(bs) < U32
    ensures |bs| == 8 ==> LeValue(bs) < U64
  {
    LeBelow(bs);
    assert Pow256(4) == U32 by { assert Pow256(2) == 0x1_0000; }
    assert Pow256(6) == 0x1_0000_0000_0000;
  }

  function DecodeData(bs: seq<byte>): DataHeader
    requires |bs| == HEADER_SIZE
  {
    DataHeader(DecodeU32(bs, 0), DecodeU32(bs, 4), DecodeU32(bs, 8), DecodeU32(bs, 12), DecodeU32(bs, 16))
  }

  lemma DataRoundTrip(h: DataHeader)
    ensures DecodeData(EncodeData(h)) == h
  {
    var bs := EncodeData(h);
    CutFields(Le(h.start, 4), Le(h.cookie, 4), Le(h.size, 4), Le(h.crc, 4), Le(h.end, 4), bs);
    Le4(h.start);
    Le4(h.cookie);
    Le4(h.size);
    Le4(h.crc);
    Le4(h.end);
  }

  /** validate_magic: the source compares the end magic with itself, so only the start counts. */
  predicate ValidMagic(h: DataHeader) {
    h.start == MAGIC_START && h.end == h.end
  }

  /** The header put writes; the size is truncated by the source's cast. */
  function HeaderOf(cookie: u32, payload: seq<byte>): DataHeader {
    DataHeader(MAGIC_START, cookie, AsU32(|payload|), Crc(payload), MAGIC_END)
  }

  /** A payload with its zero padding. */
  function Body(payload: seq<byte>): (bs: seq<byte>)
    ensures |bs| == PaddedSize(|payload|) >= |payload| && bs[..|payload|] == payload
  {
    payload + Zeros(PaddedSize(|payload|) - |payload|)
  }

  /** DataRecord: header, payload and padding. */
  function Slot(cookie: u32, payload: seq<byte>): (bs: seq<byte>)
    ensures |bs| == SlotSize(|payload|)
  {
    EncodeData(HeaderOf(cookie, payload)) + Body(payload)
  }

  datatype DataRecord = DataRecord(header: DataHeader, data: seq<byte>, padding: seq<byte>)

  /** DataRecord::new: magics, cookie, the size cast to u32, the checksum, and the zero padding. */
  function NewDataRecord(cookie: u32, payload: seq<byte>): (dr: DataRecord)
    ensures EncodeData(dr.header) + dr.data + dr.padding == Slot(cookie, payload)
    ensures RecordSize(dr) == SlotSize(|payload|)
  {
    var dr := DataRecord(HeaderOf(cookie, payload), payload, Zeros(PaddedSize(|payload|) - |payload|));
    assert EncodeData(dr.header) + dr.data + dr.padding == EncodeData(dr.header) + (dr.data + dr.padding);
    dr
  }

  function RecordSize(dr: DataRecord): nat {
    HEADER_SIZE + |dr.data| + |dr.padding|
  }

  // ---- index records ----

  datatype IndexRecord = IndexRecord(cookie: u32, offsetData: u64, sizeData: u32, offsetMeta: u64, sizeMeta: u32)

  function EncodeIndex(r: IndexRecord): (bs: seq<byte>)
    ensures |bs| == INDEX_SIZE
  {
    Le(r.cookie, 4) + Le(r.offsetData, 8) + Le(r.sizeData, 4) + Le(r.offsetMeta, 8) + Le(r.sizeMeta, 4)
  }

  function DecodeIndex(bs: seq<byte>): IndexRecord
    requires |bs| == INDEX_SIZE
  {
    IndexRecord(DecodeU32(bs, 0), DecodeU64(bs, 4), DecodeU32(bs, 12), DecodeU64(bs, 16), DecodeU32(bs, 24))
  }

  lemma IndexRoundTrip(r: IndexRecord)
    ensures DecodeIndex(EncodeIndex(r)) == r
  {
    var bs := EncodeIndex(r);
    CutFields(Le(r.cookie, 4), Le(r.offsetData, 8), Le(r.sizeData, 4), Le(r.offsetMeta, 8), Le(r.sizeMeta, 4), bs);
    Le4(r.cookie);
    Le8(r.offsetData);
    Le4(r.sizeData);
    Le8(r.offsetMeta);
    Le4(r.sizeMeta);
  }
}
