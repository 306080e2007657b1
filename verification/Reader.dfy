/** The reader: point reads by id, index listing, and the scan that never seeks. */
module Reader {
  import opened Bytes
  import opened Crc32c
  import opened IndexId
  import opened MetaJson
  import opened Paths
  import opened Records

  /** The objects of a bucket or the files of a directory, by full path. */
  type Store = map<Text, seq<byte>>

  datatype ErrorKind = IOError | InvalidArgument

  datatype Outcome<+T> = Ok(value: T) | Err(kind: ErrorKind) | Panic

  // ---- fetch ----

  /** What a point read at an offset returns. */
  function FetchAt(bytes: seq<byte>, off: nat, cookie: u32, checkCrc: bool): Outcome<seq<byte>> {
    if off + HEADER_SIZE > |bytes| then Err(IOError) else
      var h := DecodeData(bytes[off..off + HEADER_SIZE]);
      var body := off + HEADER_SIZE;
      if !ValidMagic(h) then Err(IOError)
      else if h.cookie != cookie then Err(InvalidArgument)
      else if body + h.size > |bytes| then Err(IOError)
      else if checkCrc && Crc(bytes[body..body + h.size]) != h.crc then Err(IOError)
      else Ok(bytes[body..body + h.size])
  }

  function Fetched(store: Store, prefix: Text, id: Text, checkCrc: bool): Outcome<seq<byte>> {
    match ParseId(id)
    case Panicked => Panic
    case NoId => Err(IOError)
    case Id(i) =>
      var path := Path(prefix, i.stackId, Data);
      if path !in store then Err(IOError) else FetchAt(store[path], i.offsetData, i.cookie, checkCrc)
  }

  /** A cursor over one object that only moves forward. */
  class Cursor {
    const bytes: seq<byte>
    var pos: nat

    ghost predicate Valid()
      reads this
    {
      pos <= |bytes|
    }

    constructor (bytes: seq<byte>, start: nat)
      ensures Valid() && this.bytes == bytes
      ensures pos == if start <= |bytes| then start else |bytes|
    {
      this.bytes := bytes;
      pos := if start <= |bytes| then start else |bytes|;
    }

    /** read_exact: all n bytes or an error that consumes what was left. */
    method ReadExact(n: nat) returns (r: Option<seq<byte>>)
      requires Valid()
      modifies this
      ensures Valid()
      ensures old(pos) + n <= |bytes| ==> pos == old(pos) + n && r == Some(bytes[old(pos)..pos])
      ensures old(pos) + n > |bytes| ==> r == None && pos == |bytes|
    {
      if n <= |bytes| - pos {
        r := Some(bytes[pos..pos + n]);
        pos := pos + n;
      } else {
        r := None;
        pos := |bytes|;
      }
    }
  }

  method Fetch(store: Store, prefix: Text, id: Text, checkCrc: bool) returns (r: Outcome<seq<byte>>)
    ensures r == Fetched(store, prefix, id, checkCrc)
  {
    hide Crc, DecodeData, Path, ParseId;
    var parsed := ParseId(id);
    if parsed.Panicked? {
      return Panic;
    }
    if parsed.NoId? {
      return Err(IOError);
    }
    var path := Path(prefix, parsed.id.stackId, Data);
    if path !in store {
      return Err(IOError);
    }
    var reader := new Cursor(store[path], parsed.id.offsetData);
    var head := reader.ReadExact(HEADER_SIZE);
    if head.None? {
      return Err(IOError);
    }
    var header := DecodeData(head.value);
    if !ValidMagic(header) {
      return Err(IOError);
    }
    if header.cookie != parsed.id.cookie {
      return Err(InvalidArgument);
    }
    var data := reader.ReadExact(header.size);
    if data.None? {
      return Err(IOError);
    }
    if checkCrc {
      var sum := Crc(data.value);
      if sum != header.crc {
        return Err(IOError);
      }
    }
    return Ok(data.value);
  }

  // ---- listing ----

  /** bincode over consecutive 28-byte chunks; a torn last chunk fails the whole listing. */
  function DecodeChunks(bs: seq<byte>): Outcome<seq<IndexRecord>> {
    if bs == [] then Ok([])
    else if |bs| < INDEX_SIZE then Err(IOError)
    else
      After([DecodeIndex(bs[..INDEX_SIZE])], DecodeChunks(bs[INDEX_SIZE..]))
  }

  /** A file read into a zeroed 16-byte buffer. */
  function HeadBuffer(bytes: seq<byte>): (head: seq<byte>)
    ensures |head| == 16
  {
    if |bytes| >= 16 then bytes[..16] else bytes + Zeros(16 - |bytes|)
  }

  /** list_stack; its assertions on the header are panics. */
  function Listed(store: Store, prefix: Text, stackId: u64): Outcome<seq<IndexRecord>> {
    var path := Path(prefix, stackId, Idx);
    if path !in store then Err(IOError) else
      var head := HeadBuffer(store[path]);
      if LeValue(head[..8]) != INDEX_MAGIC || LeValue(head[8..16]) != stackId then Panic
      else if |store[path]| < 16 then Err(IOError)
      else DecodeChunks(store[path][16..])
  }

  method ListStack(store: Store, prefix: Text, stackId: u64) returns (r: Outcome<seq<IndexRecord>>)
    ensures r == Listed(store, prefix, stackId)
  {
    var path := Path(prefix, stackId, Idx);
    if path !in store {
      return Err(IOError);
    }
    var head := HeadBuffer(store[path]);
    if LeValue(head[..8]) != INDEX_MAGIC || LeValue(head[8..16]) != stackId {
      return Panic;
    }
    if |store[path]| < 16 {
      return Err(IOError);
    }
    r := DecodeAll(store[path][16..]);
  }

  method DecodeAll(bs: seq<byte>) returns (r: Outcome<seq<IndexRecord>>)
    ensures r == DecodeChunks(bs)
  {
    var out := [];
    var at := 0;
    assert bs[0..] == bs;
    assert After([], DecodeChunks(bs)) == DecodeChunks(bs) by { AfterNothing(DecodeChunks(bs)); }
    while at < |bs|
      invariant at <= |bs|
      invariant DecodeChunks(bs) == After(out, DecodeChunks(bs[at..]))
    {
      if |bs| - at < INDEX_SIZE {
        return Err(IOError);
      }
      ghost var was, rest := out, bs[at..];
      assert rest[INDEX_SIZE..] == bs[at + INDEX_SIZE..] && rest[..INDEX_SIZE] == bs[at..at + INDEX_SIZE];
      out := out + [DecodeIndex(bs[at..at + INDEX_SIZE])];
      at := at + INDEX_SIZE;
      AfterOne(was, DecodeIndex(rest[..INDEX_SIZE]), DecodeChunks(bs[at..]));
    }
    assert out + [] == out;
    return Ok(out);
  }

  /** What is left to decode, behind the records already pushed. */
  function After(out: seq<IndexRecord>, rest: Outcome<seq<IndexRecord>>): Outcome<seq<IndexRecord>> {
    if rest.Ok? then Ok(out + rest.value) else rest
  }

  lemma AfterNothing(rest: Outcome<seq<IndexRecord>>)
    ensures After([], rest) == rest
  {
    if rest.Ok? {
      assert [] + rest.value == rest.value;
    }
  }

  lemma AfterOne(out: seq<IndexRecord>, ir: IndexRecord, rest: Outcome<seq<IndexRecord>>)
    ensures After(out, After([ir], rest)) == After(out + [ir], rest)
  {
    if rest.Ok? {
      assert out + ([ir] + rest.value) == (out + [ir]) + rest.value;
    }
  }

  /** The sum of the sizes in a u32 that wraps. */
  function WrappedSum(irs: seq<IndexRecord>): u32 {
    if irs == [] then 0 else AsU32(WrappedSum(irs[..|irs| - 1]) + irs[|irs| - 1].sizeData)
  }

  /** The size list_al reports for a stack. */
  method FullSize(irs: seq<IndexRecord>) returns (sum: u32)
    ensures sum == WrappedSum(irs)
  {
    sum := 0;
    for i := 0 to |irs|
      invariant sum == WrappedSum(irs[..i])
    {
      assert irs[..i + 1][..i] == irs[..i];
      sum := AsU32(sum + irs[i].sizeData);
    }
    assert irs[..|irs|] == irs;
  }

  // ---- scanning ----

  /** A data iterator: index records still to visit and two positions that never seek. */
  datatype Scan = Scan(irs: seq<IndexRecord>, meta: seq<byte>, metaPos: nat, data: seq<byte>, dataPos: nat)

  datatype Item = Nothing | Found(ir: IndexRecord, mr: MetaRecord, data: seq<byte>) | Crashed

  /** One next() of the data iterator. */
  function Next(s: Scan): (Scan, Item) {
    if s.irs == [] then (s, Nothing) else
      var ir, t := s.irs[0], s.(irs := s.irs[1..]);
      var metaEnd := s.metaPos + ir.sizeMeta;
      if metaEnd > |s.meta| then (t.(metaPos := |s.meta|), Nothing) else
        var mr, u := ParseRecord(s.meta[s.metaPos..metaEnd]), t.(metaPos := metaEnd);
        if mr.None? then (u, Nothing) else
          var dataEnd := s.dataPos + HEADER_SIZE + PaddedSize(ir.sizeData);
          if dataEnd > |s.data| then (u.(dataPos := |s.data|), Nothing) else
            var slot, v := s.data[s.dataPos..dataEnd], u.(dataPos := dataEnd);
            if !ValidMagic(DecodeData(slot[..HEADER_SIZE])) then (v, Crashed)
            else (v, Found(ir, mr.value, slot[HEADER_SIZE..HEADER_SIZE + ir.sizeData]))
  }

  /** list_stack_al_with_data_iter: list, then skip a header line whose length is recomputed. */
  function Opened(store: Store, prefix: Text, stackId: u64): Outcome<Scan> {
    var irs := Listed(store, prefix, stackId);
    var meta, data := Path(prefix, stackId, Meta), Path(prefix, stackId, Data);
    if irs.Panic? then Panic
    else if irs.Err? then Err(irs.kind)
    else if meta !in store || data !in store then Err(IOError)
    else if |HeaderLine(stackId)| > |store[meta]| || 4096 > |store[data]| then Err(IOError)
    else Ok(Scan(irs.value, store[meta], |HeaderLine(stackId)|, store[data], 4096))
  }

  /** An iterator over index and meta records only. */
  datatype MetaScan = MetaScan(irs: seq<IndexRecord>, meta: seq<byte>, pos: nat)

  /** One next() of the meta iterator. */
  function NextMeta(s: MetaScan): (MetaScan, Option<(IndexRecord, MetaRecord)>) {
    if s.irs == [] then (s, None) else
      var ir, t := s.irs[0], s.(irs := s.irs[1..]);
      var end := s.pos + ir.sizeMeta;
      if end > |s.meta| then (t.(pos := |s.meta|), None) else
        var mr := ParseRecord(s.meta[s.pos..end]);
        (t.(pos := end), if mr.None? then None else Some((ir, mr.value)))
  }

  class MetaIterator {
    var irs: seq<IndexRecord>
    const reader: Cursor

    ghost predicate Valid()
      reads this, reader
    {
      reader.Valid()
    }

    ghost function State(): MetaScan
      reads this, reader
    {
      MetaScan(irs, reader.bytes, reader.pos)
    }

    constructor (s: MetaScan)
      requires s.pos <= |s.meta|
      ensures Valid() && fresh(reader) && State() == s
    {
      irs := s.irs;
      reader := new Cursor(s.meta, s.pos);
    }

    method Advance() returns (item: Option<(IndexRecord, MetaRecord)>)
      requires Valid()
      modifies this, reader
      ensures Valid()
      ensures (State(), item) == NextMeta(old(State()))
    {
      hide ParseRecord;
      if |irs| == 0 {
        return None;
      }
      var ir := irs[0];
      irs := irs[1..];
      var line := reader.ReadExact(ir.sizeMeta);
      if line.None? {
        return None;
      }
      var mr := ParseRecord(line.value);
      if mr.None? {
        return None;
      }
      return Some((ir, mr.value));
    }
  }

  class DataIterator {
    var irs: seq<IndexRecord>
    const metaReader: Cursor
    const dataReader: Cursor

    ghost predicate Valid()
      reads this, metaReader, dataReader
    {
      metaReader != dataReader && metaReader.Valid() && dataReader.Valid()
    }

    ghost function State(): Scan
      reads this, metaReader, dataReader
    {
      Scan(irs, metaReader.bytes, metaReader.pos, dataReader.bytes, dataReader.pos)
    }

    constructor (s: Scan)
      requires s.metaPos <= |s.meta| && s.dataPos <= |s.data|
      ensures Valid() && fresh(metaReader) && fresh(dataReader)
      ensures State() == s
    {
      irs := s.irs;
      metaReader := new Cursor(s.meta, s.metaPos);
      dataReader := new Cursor(s.data, s.dataPos);
    }

    method Advance() returns (item: Item)
      requires Valid()
      modifies this, metaReader, dataReader
      ensures Valid()
      ensures (State(), item) == Next(old(State()))
    {
      hide ParseRecord, DecodeData, PaddedSize;
      if |irs| == 0 {
        return Nothing;
      }
      var ir := irs[0];
      irs := irs[1..];
      var line := metaReader.ReadExact(ir.sizeMeta);
      if line.None? {
        return Nothing;
      }
      var mr := ParseRecord(line.value);
      if mr.None? {
        return Nothing;
      }
      var slot := dataReader.ReadExact(HEADER_SIZE + PaddedSize(ir.sizeData));
      if slot.None? {
        return Nothing;
      }
      var header := DecodeData(slot.value[..HEADER_SIZE]);
      if !ValidMagic(header) {
        return Crashed;
      }
      var body := slot.value[HEADER_SIZE..];
      assert ir.sizeData <= PaddedSize(ir.sizeData) by { SlotBounds(ir.sizeData); }
      assert body[..ir.sizeData] == slot.value[HEADER_SIZE..HEADER_SIZE + ir.sizeData];
      return Found(ir, mr.value, body[..ir.sizeData]);
    }
  }
}
