/**
 * The core BytestackOpendalWriter. It writes index, then meta, then data, and gives a stack up
 * at the first failure. Any write may fail after any part of its bytes, any close may fail, the
 * controller may not answer, and a panic poisons the lock.
 */
module CoreWriter {
  import opened Bytes
  import opened Crash
  import opened IndexId
  import opened LocalWriter
  import opened MetaJson
  import opened Paths
  import opened ReadBack
  import opened Reader
  import opened Records
  import opened StackLog

  const MAX_DATA_BYTES: nat := 5 * 1024 * 1024 * 1024

  // ---- storage ----

  /** An object being written; finished once its writer was closed. */
  datatype Object = Object(bytes: seq<byte>, finished: bool)

  type Objects = map<Text, Object>

  function Lookup(objects: Objects, path: Text): Option<Object> {
    if path in objects then Some(objects[path]) else None
  }

  /** Nothing but objects of these stacks differs. */
  ghost predicate Aside(objects: Objects, later: Objects, prefix: Text, ids: iset<u64>) {
    forall p :: !OfStacks(prefix, ids, p) ==> Lookup(later, p) == Lookup(objects, p)
  }

  lemma AsideOne(objects: Objects, later: Objects, prefix: Text, id: u64, k: Suffix)
    requires forall p :: p != Path(prefix, id, k) ==> Lookup(later, p) == Lookup(objects, p)
    ensures Aside(objects, later, prefix, iset{id})
    ensures forall l: Suffix :: l != k ==> Lookup(later, Path(prefix, id, l)) == Lookup(objects, Path(prefix, id, l))
  {
    hide Lookup, Path;
    forall l: Suffix | l != k
      ensures Lookup(later, Path(prefix, id, l)) == Lookup(objects, Path(prefix, id, l))
    {
      PathInjective(prefix, id, l, id, k);
    }
    assert OfStacks(prefix, iset{id}, Path(prefix, id, k));
  }

  lemma AsideThrough(a: Objects, b: Objects, c: Objects, prefix: Text, ids: iset<u64>)
    requires Aside(a, b, prefix, ids) && Aside(b, c, prefix, ids)
    ensures Aside(a, c, prefix, ids)
  {
    hide Lookup, OfStacks;
    forall p | !OfStacks(prefix, ids, p)
      ensures Lookup(c, p) == Lookup(a, p)
    {
      assert Lookup(b, p) == Lookup(a, p);
    }
  }

  /** Of the stacks it may touch, a step may touch fewer. */
  lemma AsideMore(objects: Objects, later: Objects, prefix: Text, ids: iset<u64>, more: iset<u64>)
    requires Aside(objects, later, prefix, ids) && ids <= more
    ensures Aside(objects, later, prefix, more)
  {
    hide Lookup, Path;
    forall p | !OfStacks(prefix, more, p)
      ensures !OfStacks(prefix, ids, p)
    {
    }
  }

  lemma AsideAt(objects: Objects, later: Objects, prefix: Text, ids: iset<u64>, id: u64, k: Suffix)
    requires Aside(objects, later, prefix, ids) && id !in ids
    ensures Lookup(later, Path(prefix, id, k)) == Lookup(objects, Path(prefix, id, k))
  {
    hide Lookup, Path;
    if OfStacks(prefix, ids, Path(prefix, id, k)) {
      var i, l: Suffix :| i in ids && Path(prefix, id, k) == Path(prefix, i, l);
      PathInjective(prefix, id, k, i, l);
      assert false;
    }
  }

  class Operator {
    var objects: Objects

    /** writer_with starts an object over. */
    method WriterWith(path: Text, works: bool) returns (ok: bool)
      modifies this
      ensures ok == works
      ensures objects == if works then old(objects)[path := Object([], false)] else old(objects)
    {
      if works {
        objects := objects[path := Object([], false)];
      }
      ok := works;
    }

    method Write(path: Text, bytes: seq<byte>, f: Fault) returns (ok: bool)
      requires path in objects
      modifies this
      ensures ok <==> f.None?
      ensures objects ==
              old(objects)[path := Object(old(objects)[path].bytes + Landed(bytes, f), old(objects)[path].finished)]
    {
      objects := objects[path := objects[path].(bytes := objects[path].bytes + Landed(bytes, f))];
      ok := f.None?;
    }

    method Close(path: Text, works: bool) returns (ok: bool)
      requires path in objects
      modifies this
      ensures ok == works
      ensures objects == if works then old(objects)[path := Object(old(objects)[path].bytes, true)] else old(objects)
    {
      if works {
        objects := objects[path := objects[path].(finished := true)];
      }
      ok := works;
    }
  }

  // ---- one stack ----

  /** What goes wrong during one record, write by write. */
  datatype Faults = Faults(index: Fault, meta: Fault, header: Fault, payload: Fault, padding: Fault)

  const NO_FAULTS := Faults(None, None, None, None, None)

  function DataReached(dr: DataRecord, f: Faults): seq<byte> {
    if f.header.Some? then Landed(EncodeData(dr.header), f.header)
    else if f.payload.Some? then EncodeData(dr.header) + Landed(dr.data, f.payload)
    else EncodeData(dr.header) + dr.data + Landed(dr.padding, f.padding)
  }

  /** What of the next record reaches each object: nothing after the first fault. */
  function Reached(s: Stack, r: Rec, f: Faults, k: Suffix): seq<byte> {
    match k
    case Idx => Landed(EncodeIndex(EntryOf(r, |s.Data()|, |s.Meta()|)), f.index)
    case Meta => if f.index.Some? then [] else Landed(Line(r, |s.Data()|), f.meta)
    case Data =>
      if f.index.Some? || f.meta.Some? then [] else DataReached(NewDataRecord(r.cookie, r.payload), f)
  }

  /** What goes wrong while a stack is opened. */
  datatype Opening = Opening(index: bool, meta: bool, data: bool, indexHead: Fault, metaHead: Fault, dataHead: Fault)

  const GOOD_OPENING := Opening(true, true, true, None, None, None)

  /** What opening leaves of one object: begun in the order idx, meta, data, then the headers in that order. */
  function HeadsLeft(f: Opening, id: u64, k: Suffix, was: Option<Object>): Option<Object> {
    match k
    case Idx =>
      if !f.index then was
      else Some(Object(if f.meta && f.data then Landed(MagicHeader(INDEX_MAGIC, id), f.indexHead) else [], false))
    case Meta =>
      if !f.index || !f.meta then was
      else Some(Object(if f.data && f.indexHead.None? then Landed(HeaderLine(id), f.metaHead) else [], false))
    case Data =>
      if !f.index || !f.meta || !f.data then was
      else Some(Object(if f.indexHead.None? && f.metaHead.None? then Landed(DataHead(id), f.dataHead) else [], false))
  }

  /** The step at which opening stops: three creations, then three headers; 6 is none. */
  function FirstFailure(f: Opening): nat {
    if !f.index then 0
    else if !f.meta then 1
    else if !f.data then 2
    else if f.indexHead.Some? then 3
    else if f.metaHead.Some? then 4
    else if f.dataHead.Some? then 5
    else 6
  }

  /** Every step before the first failure is done in full, none behind it is begun. */
  lemma OpeningStops(f: Opening, id: u64, was: Option<Object>)
    ensures
      var stop := FirstFailure(f);
      && HeadsLeft(f, id, Idx, was) ==
           (if stop <= 0 then was
            else Some(Object(WrittenBy(3, stop, MagicHeader(INDEX_MAGIC, id), f.indexHead), false)))
      && HeadsLeft(f, id, Meta, was) ==
           (if stop <= 1 then was else Some(Object(WrittenBy(4, stop, HeaderLine(id), f.metaHead), false)))
      && HeadsLeft(f, id, Data, was) ==
           (if stop <= 2 then was else Some(Object(WrittenBy(5, stop, DataHead(id), f.dataHead), false)))
      && (f == GOOD_OPENING <==> stop == 6)
  {
    hide MagicHeader, HeaderLine;
  }

  class InnerWriter {
    const op: Operator
    const prefix: Text
    const stackId: u64
    var dataOffset: u64
    var metaOffset: u64
    ghost var recs: seq<Rec>

    ghost function Log(): Stack
      reads this
    {
      Stack(stackId, stackId, recs)
    }

    function PathOf(k: Suffix): Text {
      Path(prefix, stackId, k)
    }

    /** One of the three objects as it stands. */
    ghost function At(k: Suffix): Option<Object>
      reads op
    {
      Lookup(op.objects, PathOf(k))
    }

    /** Offsets equal the bytes appended, and those are exactly the records. */
    ghost predicate Exact()
      reads this, op
    {
      && (forall k: Suffix :: At(k) == Some(Object(Full(Log(), k), false)))
      && dataOffset == AsU64(|Log().Data()|) && metaOffset == AsU64(|Log().Meta()|)
    }

    constructor (op: Operator, prefix: Text, stackId: u64, dataOffset: u64, metaOffset: u64)
      ensures this.op == op && this.prefix == prefix && this.stackId == stackId
      ensures this.dataOffset == dataOffset && this.metaOffset == metaOffset && recs == []
    {
      this.op, this.prefix, this.stackId := op, prefix, stackId;
      this.dataOffset, this.metaOffset := dataOffset, metaOffset;
      recs := [];
    }

    method Begin(k: Suffix, works: bool) returns (ok: bool)
      modifies op
      ensures ok == works
      ensures At(k) == if works then Some(Object([], false)) else old(At(k))
      ensures forall l: Suffix :: l != k ==> At(l) == old(At(l))
      ensures Aside(old(op.objects), op.objects, prefix, iset{stackId})
    {
      hide Path;
      ghost var was := op.objects;
      ok := op.WriterWith(PathOf(k), works);
      AsideOne(was, op.objects, prefix, stackId, k);
    }

    /** One write to one of the objects. */
    method WriteTo(k: Suffix, bytes: seq<byte>, f: Fault) returns (ok: bool)
      requires At(k).Some?
      modifies op
      ensures ok <==> f.None?
      ensures At(k) == Some(Object(old(At(k)).value.bytes + Landed(bytes, f), old(At(k)).value.finished))
      ensures forall l: Suffix :: l != k ==> At(l) == old(At(l))
      ensures Aside(old(op.objects), op.objects, prefix, iset{stackId})
    {
      hide Path;
      ghost var was := op.objects;
      ok := op.Write(PathOf(k), bytes, f);
      AsideOne(was, op.objects, prefix, stackId, k);
    }

    /** Three new objects and their headers, up to the first failure. */
    method Fill(f: Opening) returns (ok: bool)
      modifies op
      ensures ok <==> f == GOOD_OPENING
      ensures forall k: Suffix :: At(k) == HeadsLeft(f, stackId, k, old(At(k)))
      ensures Aside(old(op.objects), op.objects, prefix, iset{stackId})
    {
      hide Path, Aside, Lookup, HeaderLine, MagicHeader, InnerWriter.At, Landed;
      ghost var a := op.objects;
      NothingBefore(f);
      ok := Begin(Idx, f.index);
      ghost var b := op.objects;
      if !ok {
        return;
      }
      ok := Begin(Meta, f.meta);
      ghost var c := op.objects;
      AsideThrough(a, b, c, prefix, iset{stackId});
      if !ok {
        return;
      }
      ok := Begin(Data, f.data);
      ghost var d := op.objects;
      AsideThrough(a, c, d, prefix, iset{stackId});
      if !ok {
        return;
      }
      ok := WriteTo(Idx, MagicHeader(INDEX_MAGIC, stackId), f.indexHead);
      ghost var e := op.objects;
      AsideThrough(a, d, e, prefix, iset{stackId});
      if !ok {
        return;
      }
      ok := WriteTo(Meta, HeaderLine(stackId), f.metaHead);
      ghost var g := op.objects;
      AsideThrough(a, e, g, prefix, iset{stackId});
      if !ok {
        return;
      }
      ok := WriteTo(Data, MagicHeader(DATA_MAGIC, stackId) + Zeros(4080), f.dataHead);
      AsideThrough(a, g, op.objects, prefix, iset{stackId});
    }

    lemma NothingBefore(f: Opening)
      ensures
        var (i, m, d) :=
          (MagicHeader(INDEX_MAGIC, stackId), HeaderLine(stackId), MagicHeader(DATA_MAGIC, stackId) + Zeros(4080));
        && [] + Landed(i, f.indexHead) == Landed(i, f.indexHead)
        && [] + Landed(m, f.metaHead) == Landed(m, f.metaHead)
        && [] + Landed(d, f.dataHead) == Landed(d, f.dataHead) == Landed(DataHead(stackId), f.dataHead)
    {
      hide HeaderLine, MagicHeader, Landed;
    }

    method WriteIndex(ir: IndexRecord, f: Faults) returns (ok: bool)
      requires At(Idx).Some?
      modifies op
      ensures ok <==> f.index.None?
      ensures At(Idx) ==
              Some(Object(old(At(Idx)).value.bytes + Landed(EncodeIndex(ir), f.index), old(At(Idx)).value.finished))
      ensures At(Meta) == old(At(Meta)) && At(Data) == old(At(Data))
      ensures Aside(old(op.objects), op.objects, prefix, iset{stackId})
    {
      ok := WriteTo(Idx, EncodeIndex(ir), f.index);
    }

    method WriteMeta(mr: MetaRecord, f: Faults) returns (ok: bool, size: nat)
      requires At(Meta).Some?
      modifies op
      ensures ok <==> f.meta.None?
      ensures size == |RecordLine(mr)|
      ensures At(Meta) ==
              Some(Object(old(At(Meta)).value.bytes + Landed(RecordLine(mr), f.meta), old(At(Meta)).value.finished))
      ensures At(Idx) == old(At(Idx)) && At(Data) == old(At(Data))
      ensures Aside(old(op.objects), op.objects, prefix, iset{stackId})
    {
      var line := PrintObject(Members(mr));
      line := line + [NEWLINE];
      size := |line|;
      ok := WriteTo(Meta, line, f.meta);
    }

    /** Header, payload and padding, each its own write. */
    method WriteData(dr: DataRecord, f: Faults) returns (ok: bool, size: nat)
      requires At(Data).Some?
      modifies op
      ensures ok <==> f.header.None? && f.payload.None? && f.padding.None?
      ensures size == RecordSize(dr)
      ensures At(Data) == Some(Object(old(At(Data)).value.bytes + DataReached(dr, f), old(At(Data)).value.finished))
      ensures At(Idx) == old(At(Idx)) && At(Meta) == old(At(Meta))
      ensures Aside(old(op.objects), op.objects, prefix, iset{stackId})
    {
      hide Path, EncodeData, RecordSize, Lookup, Aside, InnerWriter.At;
      size := RecordSize(dr);
      ghost var have, a := At(Data).value.bytes, op.objects;
      ok := WriteTo(Data, EncodeData(dr.header), f.header);
      if ok {
        ghost var b := op.objects;
        ok := WriteTo(Data, dr.data, f.payload);
        AsideThrough(a, b, op.objects, prefix, iset{stackId});
      }
      if ok {
        ghost var c := op.objects;
        ok := WriteTo(Data, dr.padding, f.padding);
        AsideThrough(a, c, op.objects, prefix, iset{stackId});
      }
      Rejoin(have, EncodeData(dr.header), dr.data, dr.padding, f);
    }

    /** Index first, then meta, then data; the first failure ends it. */
    method Write(buf: seq<byte>, filename: Text, meta: Option<seq<byte>>, cookie: u32, now: u64, f: Faults)
      returns (id: Option<Text>)
      requires Exact()
      modifies this, op
      ensures id.Some? <==> f == NO_FAULTS
      ensures
        var r := Rec(cookie, buf, now, filename, if meta.Some? then meta.value else []);
        && (forall k: Suffix :: At(k) == Some(Object(Full(old(Log()), k) + Reached(old(Log()), r, f, k), false)))
        && recs == (if id.Some? then old(recs) + [r] else old(recs))
        && (id.Some? ==> Exact() && id.value == IdAt(Log(), |old(recs)|))
      ensures Aside(old(op.objects), op.objects, prefix, iset{stackId})
    {
      hide Path, Full, PrintId, NewDataRecord, EncodeIndex, RecordLine, RecordSize, DataReached, Slot, Aside,
        InnerWriter.At, AsU64, AsU32, Stack.Data, Stack.Meta, MetaOf, EntryOf, IdAt, Landed;
      ghost var s, a := Log(), op.objects;
      ghost var r := Rec(cookie, buf, now, filename, if meta.Some? then meta.value else []);
      var mr := MetaRecord(now, dataOffset, AsU32(|buf|), cookie, filename, if meta.Some? then meta.value else []);
      var mrSize := |RecordLine(mr)|;
      var ir := IndexRecord(cookie, dataOffset, AsU32(|buf|), metaOffset, AsU32(mrSize));
      id := Some(PrintId(IndexID(stackId, ir.offsetData, ir.cookie)));
      var dr := NewDataRecord(cookie, buf);
      BuiltFor(s, r, mr, ir);
      NextFor(s, r, mr, dr);
      var ok := WriteIndex(ir, f);
      ghost var b := op.objects;
      if !ok {
        Unreached(s, r, f);
        return None;
      }
      var wrote, n := WriteMeta(mr, f);
      ghost var c := op.objects;
      AsideThrough(a, b, c, prefix, iset{stackId});
      if !wrote {
        Unreached(s, r, f);
        return None;
      }
      assert n == mrSize;
      metaOffset := AsU64(metaOffset + n);
      ok, n := WriteData(dr, f);
      AsideThrough(a, c, op.objects, prefix, iset{stackId});
      Unreached(s, r, f);
      if !ok {
        return None;
      }
      dataOffset := AsU64(dataOffset + n);
      recs := recs + [r];
      ReachedAll(s, r);
    }

    /** Data, meta, index; a failure leaves the rest unclosed. */
    method Close(data: bool, meta: bool, index: bool) returns (ok: bool)
      requires Exact()
      modifies op
      ensures ok <==> data && meta && index
      ensures forall k: Suffix :: At(k).Some? && At(k).value.bytes == Full(Log(), k)
      ensures At(Data).value.finished == data
      ensures At(Meta).value.finished == (data && meta)
      ensures At(Idx).value.finished == ok
      ensures ok ==> forall k: Suffix :: At(k).value.finished
      ensures Aside(old(op.objects), op.objects, prefix, iset{stackId})
    {
      hide Path, Full, Aside, InnerWriter.At, InnerWriter.PathOf, AsU64, Stack.Data, Stack.Meta, InnerWriter.Log;
      ghost var a := op.objects;
      assert At(Data) == Some(Object(Full(Log(), Data), false));
      assert At(Meta) == Some(Object(Full(Log(), Meta), false));
      assert At(Idx) == Some(Object(Full(Log(), Idx), false));
      ok := CloseOne(Data, data);
      ghost var b := op.objects;
      if !ok {
        return;
      }
      ok := CloseOne(Meta, meta);
      ghost var c := op.objects;
      AsideThrough(a, b, c, prefix, iset{stackId});
      if !ok {
        return;
      }
      ok := CloseOne(Idx, index);
      AsideThrough(a, c, op.objects, prefix, iset{stackId});
    }

    method CloseOne(k: Suffix, works: bool) returns (ok: bool)
      requires At(k).Some?
      modifies op
      ensures ok == works
      ensures At(k) == Some(Object(old(At(k)).value.bytes, old(At(k)).value.finished || works))
      ensures forall l: Suffix :: l != k ==> At(l) == old(At(l))
      ensures Aside(old(op.objects), op.objects, prefix, iset{stackId})
    {
      hide Path;
      ghost var was := op.objects;
      ok := op.Close(PathOf(k), works);
      AsideOne(was, op.objects, prefix, stackId, k);
    }
  }

  /** The records write builds are the line and entry of the next record. */
  lemma BuiltFor(s: Stack, r: Rec, mr: MetaRecord, ir: IndexRecord)
    requires mr == MetaRecord(r.time, AsU64(|s.Data()|), AsU32(|r.payload|), r.cookie, r.filename, r.extra)
    requires ir == IndexRecord(r.cookie, AsU64(|s.Data()|), AsU32(|r.payload|), AsU64(|s.Meta()|),
                               AsU32(|RecordLine(mr)|))
    ensures RecordLine(mr) == Line(r, |s.Data()|) && ir == EntryOf(r, |s.Data()|, |s.Meta()|)
  {
    hide RecordLine, AsU64, AsU32, DataBytes, MetaBytes;
  }

  lemma NextFor(s: Stack, r: Rec, mr: MetaRecord, dr: DataRecord)
    requires mr == MetaRecord(r.time, AsU64(|s.Data()|), AsU32(|r.payload|), r.cookie, r.filename, r.extra)
    requires dr == NewDataRecord(r.cookie, r.payload)
    ensures AsU64(AsU64(|s.Data()|) + RecordSize(dr)) == AsU64(|s.With(r).Data()|)
    ensures AsU64(AsU64(|s.Meta()|) + |RecordLine(mr)|) == AsU64(|s.With(r).Meta()|)
    ensures IdAt(s.With(r), |s.recs|) == PrintId(IndexID(s.fileId, AsU64(|s.Data()|), r.cookie))
  {
    hide RecordSize, AsU64, AsU32, NewDataRecord, IdAt, PrintId, PrintObject, Members, DataBytes, MetaBytes, RawTotal,
      Line, Slot;
    JsonLine(mr);
    MetaIs(s, r, mr);
    NextOffsets(s, r, PrintObject(Members(mr)), dr);
  }

  lemma JsonLine(mr: MetaRecord)
    ensures RecordLine(mr) == PrintObject(Members(mr)) + [NEWLINE]
    ensures |RecordLine(mr)| == |PrintObject(Members(mr))| + 1
  {
  }

  lemma MetaIs(s: Stack, r: Rec, mr: MetaRecord)
    requires mr == MetaRecord(r.time, AsU64(|s.Data()|), AsU32(|r.payload|), r.cookie, r.filename, r.extra)
    ensures RecordLine(mr) == Line(r, |s.Data()|)
  {
    hide RecordLine, AsU64, AsU32, DataBytes;
  }

  /** What each object got, when the faults stopped the record where they did. */
  lemma Unreached(s: Stack, r: Rec, f: Faults)
    ensures Reached(s, r, f, Idx) == Landed(EncodeIndex(EntryOf(r, |s.Data()|, |s.Meta()|)), f.index)
    ensures f.index.Some? ==> Full(s, Meta) + Reached(s, r, f, Meta) == Full(s, Meta)
    ensures f.index.None? ==> Reached(s, r, f, Meta) == Landed(Line(r, |s.Data()|), f.meta)
    ensures f.index.Some? || f.meta.Some? ==> Full(s, Data) + Reached(s, r, f, Data) == Full(s, Data)
    ensures f.index.None? && f.meta.None? ==>
      Reached(s, r, f, Data) == DataReached(NewDataRecord(r.cookie, r.payload), f)
  {
    hide Full, Landed, EncodeIndex, Line, NewDataRecord, DataReached, EntryOf;
  }

  lemma ReachedAll(s: Stack, r: Rec)
    ensures forall k: Suffix :: Full(s, k) + Reached(s, r, NO_FAULTS, k) == Full(s.With(r), k)
  {
    hide Full, Reached, SlotOf, EncodeIndex, Line, EntryOf;
    DataWith(s, r);
    MetaWith(s, r);
    IndexWith(s, r);
    ReachedWhole(s, r);
    forall k: Suffix
      ensures Full(s, k) + Reached(s, r, NO_FAULTS, k) == Full(s.With(r), k)
    {
      match k
      case Data =>
      case Idx =>
      case Meta =>
    }
  }

  lemma ReachedWhole(s: Stack, r: Rec)
    ensures Reached(s, r, NO_FAULTS, Data) == SlotOf(r)
    ensures Reached(s, r, NO_FAULTS, Meta) == Line(r, |s.Data()|)
    ensures Reached(s, r, NO_FAULTS, Idx) == EncodeIndex(EntryOf(r, |s.Data()|, |s.Meta()|))
  {
    hide EncodeIndex, Line, EncodeData, EntryOf, Slot, NewDataRecord;
  }

  lemma Rejoin(have: seq<byte>, a: seq<byte>, b: seq<byte>, c: seq<byte>, f: Faults)
    ensures have + a + Landed(b, f.payload) == have + (a + Landed(b, f.payload))
    ensures have + a + b + Landed(c, f.padding) == have + (a + b + Landed(c, f.padding))
  {
  }

  // ---- index before data ----

  /** Store as a reader sees it, were every object finished. */
  function Visible(objects: Objects): Store {
    map p | p in objects :: objects[p].bytes
  }

  /** Store as a reader sees it if it shows finished objects only. */
  function Finished(objects: Objects): Store {
    map p | p in objects && objects[p].finished :: objects[p].bytes
  }

  /** The data object of a stack was finished. */
  predicate DataFinished(objects: Objects, prefix: Text, s: Stack) {
    var o := Lookup(objects, Path(prefix, s.fileId, Data));
    o.Some? && o.value.finished
  }

  /** The fault struck only when the last byte of the slot had got through all the same. */
  predicate TooLate(f: Faults, size: nat) {
    && f.index.None? && f.meta.None? && f.header.None?
    && if f.payload.Some? then f.payload.value >= size && PaddedSize(size) == size
       else f.padding.Some? && f.padding.value >= PaddedSize(size) - size
  }

  lemma SlotReached(s: Stack, r: Rec, f: Faults)
    requires f != NO_FAULTS && f.index.None?
    ensures Reached(s, r, f, Data) == SlotOf(r) && Reached(s, r, f, Meta) == Line(r, |s.Data()|) <==>
            TooLate(f, |r.payload|)
  {
    hide Full, EncodeIndex, Line, EncodeData, EntryOf, Slot, PaddedSize;
    SlotBounds(|r.payload|);
    SlotParts(r);
    if f.meta.None? {
      DataParts(r, f);
    }
  }

  lemma SlotParts(r: Rec)
    ensures
      var dr := NewDataRecord(r.cookie, r.payload);
      && |EncodeData(dr.header)| == 20 && dr.data == r.payload && |dr.padding| == PaddedSize(|r.payload|) - |r.payload|
      && EncodeData(dr.header) + dr.data + dr.padding == SlotOf(r) && |SlotOf(r)| >= 4096
  {
    hide EncodeData, Slot;
    SlotBounds(|r.payload|);
  }

  lemma DataParts(r: Rec, f: Faults)
    requires f != NO_FAULTS && f.index.None? && f.meta.None?
    ensures DataReached(NewDataRecord(r.cookie, r.payload), f) == SlotOf(r) <==> TooLate(f, |r.payload|)
  {
    hide EncodeData, SlotOf, PaddedSize, NewDataRecord;
    SlotParts(r);
    var dr := NewDataRecord(r.cookie, r.payload);
    PartsWhole(EncodeData(dr.header), dr.data, dr.padding, f);
  }

  lemma PartsWhole(a: seq<byte>, b: seq<byte>, c: seq<byte>, f: Faults)
    requires |a| == 20 && |a + b + c| >= 4096 && f != NO_FAULTS && f.index.None? && f.meta.None?
    ensures
      var reached :=
        if f.header.Some? then Landed(a, f.header)
        else if f.payload.Some? then a + Landed(b, f.payload)
        else a + b + Landed(c, f.padding);
      reached == a + b + c <==>
        && f.header.None?
        && if f.payload.Some? then f.payload.value >= |b| && |c| == 0
           else f.padding.Some? && f.padding.value >= |c|
  {
    if f.header.None? && f.payload.Some? && f.payload.value >= |b| && |c| == 0 {
      assert a + b == a + b + c;
    }
  }

  /** The three objects after a write that met these faults. */
  ghost predicate LeftBy(objects: Objects, prefix: Text, s: Stack, r: Rec, f: Faults) {
    forall k: Suffix ::
      Lookup(objects, Path(prefix, s.fileId, k)) == Some(Object(Full(s, k) + Reached(s, r, f, k), false))
  }

  /**
   * Index first means an index record can point at bytes that never arrive. After a fault behind
   * the index write the record is there, and satisfied if and only if the fault came too late to
   * keep a byte of its slot away.
   */
  lemma DanglingEntry(objects: Objects, prefix: Text, s: Stack, r: Rec, f: Faults)
    requires f != NO_FAULTS && f.index.None? && s.headerId == s.fileId
    requires LeftBy(objects, prefix, s, r, f)
    ensures
      var i := Path(prefix, s.fileId, Idx);
      i in objects && objects[i].bytes == Full(s.With(r), Idx)
    ensures Satisfied(Visible(objects), prefix, s.With(r), |s.recs|) <==> TooLate(f, |r.payload|)
  {
    hide Path, Full, Reached, SlotOf, Line, EncodeIndex, EntryOf, Satisfied, TooLate;
    var t, n := s.With(r), |s.recs|;
    assert Lookup(objects, Path(prefix, s.fileId, Data)).Some? && Lookup(objects, Path(prefix, s.fileId, Meta)).Some?;
    assert Lookup(objects, Path(prefix, s.fileId, Idx)).Some?;
    Unreached(s, r, f);
    IndexWith(s, r);
    SlotReached(s, r, f);
    ReachedWithin(s, r, f);
    NewestSatisfied(Visible(objects), prefix, s, r, Reached(s, r, f, Data), Reached(s, r, f, Meta));
  }

  lemma ReachedWithin(s: Stack, r: Rec, f: Faults)
    ensures |Reached(s, r, f, Data)| <= |SlotOf(r)| && |Reached(s, r, f, Meta)| <= |Line(r, |s.Data()|)|
  {
    hide Line, EncodeIndex, EncodeData, EntryOf, SlotOf, PaddedSize;
    SlotParts(r);
  }

  /** Index and meta writes worked; header and payload got through, whatever became of the padding. */
  predicate PayloadThere(f: Faults, size: nat) {
    && f.index.None? && f.meta.None?
    && if f.header.Some? then f.header.value >= HEADER_SIZE && size == 0
       else f.payload.Some? ==> f.payload.value >= size
  }

  /**
   * What readers make of a stack that was given up on its newest record, whatever the faults. It
   * is listed with that record if the entry is whole, without it if nothing of the entry is there,
   * and not at all otherwise. The id fetches its payload if and only if header and payload got
   * through and the payload is under 2^32 bytes. It is an error if fewer bytes got through than
   * the header announces.
   */
  lemma DanglingFetch(objects: Objects, prefix: Text, s: Stack, r: Rec, f: Faults, checkCrc: bool)
    requires s.headerId == s.fileId && |s.Data()| < U64
    requires LeftBy(objects, prefix, s, r, f)
    ensures Listed(Visible(objects), prefix, s.fileId) ==
      if f.index.None? || f.index.value >= INDEX_SIZE then Ok(Entries(s.With(r), |s.recs| + 1))
      else if f.index.value == 0 then Ok(Entries(s, |s.recs|))
      else Err(IOError)
    ensures f != NO_FAULTS ==> (Satisfied(Visible(objects), prefix, s.With(r), |s.recs|) <==> TooLate(f, |r.payload|))
    ensures
      var fetched := Fetched(Visible(objects), prefix, IdAt(s.With(r), |s.recs|), checkCrc);
      && (fetched == Ok(r.payload) <==> PayloadThere(f, |r.payload|) && |r.payload| < U32)
      && (!PayloadThere(f, AsU32(|r.payload|)) ==> fetched == Err(IOError))
  {
    hide LeftBy, Satisfied, Fetched, Listed, Entries, IdAt, Stack.With, Stack.Data, TooLate, Path, PayloadThere,
      Reached, SlotOf, Visible;
    WithSame(s, r);
    EntryListed(objects, prefix, s, r, f);
    EntrySatisfied(objects, prefix, s, r, f);
    DataLeft(objects, prefix, s, r, f);
    ReachedData(s, r, f, |r.payload|);
    ReachedData(s, r, f, AsU32(|r.payload|));
    FetchNewest(Visible(objects), prefix, s, r, Reached(s, r, f, Data), checkCrc);
  }

  lemma EntrySatisfied(objects: Objects, prefix: Text, s: Stack, r: Rec, f: Faults)
    requires s.headerId == s.fileId && LeftBy(objects, prefix, s, r, f)
    ensures f != NO_FAULTS ==> (Satisfied(Visible(objects), prefix, s.With(r), |s.recs|) <==> TooLate(f, |r.payload|))
  {
    hide LeftBy, Satisfied, Visible, Stack.With, Path, Full, PaddedSize;
    WithSame(s, r);
    if f.index.Some? {
      DataLeft(objects, prefix, s, r, f);
      NothingReached(s, r, f);
      NoSlot(Visible(objects), prefix, s, r);
    } else if f != NO_FAULTS {
      DanglingEntry(objects, prefix, s, r, f);
    }
  }

  lemma NothingReached(s: Stack, r: Rec, f: Faults)
    requires f.index.Some?
    ensures s.Data() + Reached(s, r, f, Data) == s.Data()
  {
    hide DataBytes, MetaBytes, Line, EncodeIndex, EntryOf;
  }

  lemma NoSlot(store: Store, prefix: Text, s: Stack, r: Rec)
    requires Path(prefix, s.fileId, Data) in store && store[Path(prefix, s.fileId, Data)] == s.Data()
    ensures !Satisfied(store, prefix, s.With(r), |s.recs|)
  {
    hide Path, DataBytes, MetaBytes, IdxBytes, Line, EncodeIndex, EntryAt, SlotOf;
    NewestOffset(s, r);
    SlotAt(s.headerId, s.With(r).recs, |s.recs|);
  }

  lemma EntryListed(objects: Objects, prefix: Text, s: Stack, r: Rec, f: Faults)
    requires s.headerId == s.fileId
    requires LeftBy(objects, prefix, s, r, f)
    ensures Listed(Visible(objects), prefix, s.fileId) ==
      if f.index.None? || f.index.value >= INDEX_SIZE then Ok(Entries(s.With(r), |s.recs| + 1))
      else if f.index.value == 0 then Ok(Entries(s, |s.recs|))
      else Err(IOError)
  {
    hide LeftBy, Listed, Entries, Visible, Stack.With, Path, Reached, Full, EncodeIndex, EntryOf;
    Unreached(s, r, f);
    IndexLeft(objects, prefix, s, r, f);
    ListPart(Visible(objects), prefix, s, r, Reached(s, r, f, Idx));
  }

  lemma IndexLeft(objects: Objects, prefix: Text, s: Stack, r: Rec, f: Faults)
    requires LeftBy(objects, prefix, s, r, f)
    ensures Path(prefix, s.fileId, Idx) in Visible(objects)
    ensures Visible(objects)[Path(prefix, s.fileId, Idx)] == Full(s, Idx) + Reached(s, r, f, Idx)
  {
    hide Path, Reached, Full;
    assert Lookup(objects, Path(prefix, s.fileId, Idx)) == Some(Object(Full(s, Idx) + Reached(s, r, f, Idx), false));
  }

  /** An index with part of one more entry lists with it, without it, or not at all. */
  lemma ListPart(store: Store, prefix: Text, s: Stack, r: Rec, part: seq<byte>)
    requires s.headerId == s.fileId && part <= EncodeIndex(EntryOf(r, |s.Data()|, |s.Meta()|))
    requires Path(prefix, s.fileId, Idx) in store && store[Path(prefix, s.fileId, Idx)] == Full(s, Idx) + part
    ensures Listed(store, prefix, s.fileId) ==
      if |part| == INDEX_SIZE then Ok(Entries(s.With(r), |s.recs| + 1))
      else if part == [] then Ok(Entries(s, |s.recs|))
      else Err(IOError)
  {
    hide Path, Full, EncodeIndex, EntryOf, Listed, Entries, IdxBytes, Stack.Data, Stack.Meta, Stack.With;
    WithSame(s, r);
    IndexCut(s, r, part);
    EntriesWith(s, r);
    ListTorn(store, prefix, s.With(r), store[Path(prefix, s.fileId, Idx)]);
  }

  /** How far the index goes with a part of one more entry. */
  lemma IndexCut(s: Stack, r: Rec, part: seq<byte>)
    requires part <= EncodeIndex(EntryOf(r, |s.Data()|, |s.Meta()|))
    ensures Full(s, Idx) + part <= s.With(r).Index()
    ensures
      var (n, size) := (|s.recs|, |Full(s, Idx) + part|);
      && size == 16 + INDEX_SIZE * n + |part| && (size - 16) / INDEX_SIZE == n + |part| / INDEX_SIZE
  {
    hide EncodeIndex, EntryOf, IdxBytes, DataBytes, MetaBytes;
    IndexWith(s, r);
  }

  lemma EntriesWith(s: Stack, r: Rec)
    ensures Entries(s.With(r), |s.recs|) == Entries(s, |s.recs|)
  {
    hide EntryAt;
    forall k | 0 <= k < |s.recs|
      ensures EntryAt(s.headerId, s.With(r).recs, k) == EntryAt(s.headerId, s.recs, k)
    {
      EntryWith(s, r, k);
    }
  }

  lemma EntryWith(s: Stack, r: Rec, k: nat)
    requires k < |s.recs|
    ensures EntryAt(s.headerId, s.With(r).recs, k) == EntryAt(s.headerId, s.recs, k)
  {
    hide LastEntry;
    assert s.With(r).recs[..k + 1] == s.recs[..k + 1];
  }

  lemma DataLeft(objects: Objects, prefix: Text, s: Stack, r: Rec, f: Faults)
    requires LeftBy(objects, prefix, s, r, f)
    ensures Path(prefix, s.fileId, Data) in Visible(objects)
    ensures Visible(objects)[Path(prefix, s.fileId, Data)] == s.Data() + Reached(s, r, f, Data)
  {
    hide Path, Reached, DataBytes, MetaBytes, IdxBytes;
    assert Lookup(objects, Path(prefix, s.fileId, Data)) == Some(Object(Full(s, Data) + Reached(s, r, f, Data), false));
  }

  /** What reaches the data object is a beginning of the slot, and how far it goes. */
  lemma ReachedData(s: Stack, r: Rec, f: Faults, size: nat)
    requires size <= |r.payload|
    ensures Reached(s, r, f, Data) <= SlotOf(r)
    ensures PayloadThere(f, size) <==> |Reached(s, r, f, Data)| >= HEADER_SIZE + size
  {
    hide Line, EncodeIndex, EncodeData, EntryOf, SlotOf, NewDataRecord;
    SlotParts(r);
    var dr := NewDataRecord(r.cookie, r.payload);
    PartsReached(EncodeData(dr.header), dr.data, dr.padding, f);
  }

  lemma PartsReached(a: seq<byte>, b: seq<byte>, c: seq<byte>, f: Faults)
    ensures
      var reached :=
        if f.header.Some? then Landed(a, f.header)
        else if f.payload.Some? then a + Landed(b, f.payload)
        else a + b + Landed(c, f.padding);
      reached <= a + b + c
  {
    assert a + b + c == a + (b + c);
  }

  /** The newest slot, cut anywhere, fetches exactly if the cut is behind its payload. */
  lemma FetchNewest(store: Store, prefix: Text, s: Stack, r: Rec, tail: seq<byte>, checkCrc: bool)
    requires |s.Data()| < U64 && Path(prefix, s.fileId, Data) in store
    requires store[Path(prefix, s.fileId, Data)] == s.Data() + tail && tail <= SlotOf(r)
    ensures
      var fetched := Fetched(store, prefix, IdAt(s.With(r), |s.recs|), checkCrc);
      && (fetched == Ok(r.payload) <==> |tail| >= HEADER_SIZE + |r.payload| && |r.payload| < U32)
      && (|tail| < HEADER_SIZE + AsU32(|r.payload|) ==> fetched == Err(IOError))
  {
    hide PrintId, ParseId, Path, FetchAt, DataOff, Stack.Data, Slot;
    NewestOffset(s, r);
    PrintParse(IndexID(s.fileId, AsU64(|s.Data()|), r.cookie));
    FetchCut(s.Data(), tail, r.cookie, r.payload, checkCrc);
  }

  lemma FreshData(id: u64)
    ensures |Stack(id, id, []).Data()| == 4096
  {
    hide DataBytes, MetaBytes, RawTotal;
    EmptyFiles(id);
  }

  /** A fault in the header keeps the record from being whole, and a header lost from the start from being read. */
  lemma HeaderLost(f: Faults, size: nat)
    requires f.header == Some(0)
    ensures !TooLate(f, size) && !PayloadThere(f, size)
  {
  }

  /** It takes any first record of a stack and a header write that fails at once. */
  lemma DanglingExample(objects: Objects, id: u64, r: Rec)
    requires LeftBy(objects, [], Stack(id, id, []), r, NO_FAULTS.(header := Some(0)))
    ensures
      var t := Stack(id, id, []).With(r);
      && Listed(Visible(objects), [], id) == Ok(Entries(t, 1))
      && !Satisfied(Visible(objects), [], t, 0)
      && Fetched(Visible(objects), [], IdAt(t, 0), true) == Err(IOError)
  {
    hide LeftBy, Satisfied, Fetched, Listed, Entries, IdAt, Visible, Stack.Data, Stack.With, TooLate, PayloadThere;
    FreshData(id);
    HeaderLost(NO_FAULTS.(header := Some(0)), |r.payload|);
    HeaderLost(NO_FAULTS.(header := Some(0)), AsU32(|r.payload|));
    DanglingFetch(objects, [], Stack(id, id, []), r, NO_FAULTS.(header := Some(0)), true);
  }

  /** With its entry written, the newest record is satisfied if and only if slot and line are. */
  lemma NewestSatisfied(store: Store, prefix: Text, s: Stack, r: Rec, data: seq<byte>, meta: seq<byte>)
    requires
      var d, m, i := Path(prefix, s.fileId, Data), Path(prefix, s.fileId, Meta), Path(prefix, s.fileId, Idx);
      && d in store && store[d] == Full(s, Data) + data && |data| <= |SlotOf(r)|
      && m in store && store[m] == Full(s, Meta) + meta && |meta| <= |Line(r, |s.Data()|)|
      && i in store && store[i] == Full(s.With(r), Idx)
    ensures Satisfied(store, prefix, s.With(r), |s.recs|) <==> data == SlotOf(r) && meta == Line(r, |s.Data()|)
  {
    hide Path, SlotOf, Line, EncodeIndex, EntryAt, DataBytes, MetaBytes, IdxBytes;
    var t, n := s.With(r), |s.recs|;
    Extend(s.headerId, s.recs, r);
    assert t.recs[..n] == s.recs && t.recs[..n + 1] == t.recs;
    CodeAt(t.headerId, t.recs, n);
    Tail(Full(s, Data), data, SlotOf(r));
    Tail(Full(s, Meta), meta, Line(r, |s.Data()|));
  }

  lemma Tail(have: seq<byte>, tail: seq<byte>, want: seq<byte>)
    requires |tail| <= |want|
    ensures
      var whole := have + tail;
      tail == want <==> |have| + |want| <= |whole| && whole[|have|..|have| + |want|] == want
  {
    if |tail| == |want| {
      assert (have + tail)[|have|..|have| + |want|] == tail;
    }
  }

  // ---- the writer ----

  datatype Closing = Closing(data: bool, meta: bool, index: bool)

  const GOOD_CLOSING := Closing(true, true, true)

  datatype CoreResult = Accepted(id: Text) | IoError | CloseError | LockPanic

  /** A stack is held by the writer, closed without error, or given up. */
  datatype Fate = Held | Closed | Abandoned

  /** What the fate of a stack says of its objects. */
  ghost predicate Told(objects: Objects, prefix: Text, s: Stack, fate: Fate) {
    && s.headerId == s.fileId
    && (RawTotal(s.recs) <= MAX_DATA_BYTES || |s.recs| == 1)
    && forall k: Suffix :: ToldOf(Lookup(objects, Path(prefix, s.fileId, k)), Full(s, k), fate)
  }

  /** Nothing that put returned for is missing, and a closed object holds nothing else. */
  predicate ToldOf(o: Option<Object>, full: seq<byte>, fate: Fate) {
    o.Some? && full <= o.value.bytes && (fate == Closed ==> o.value == Object(full, true))
  }

  /** The stacks and their fates are as the objects stand; only the newest can be held. */
  ghost predicate Books(objects: Objects, prefix: Text, logs: seq<Stack>, fates: seq<Fate>) {
    && |fates| == |logs| && Distinct(logs)
    && (forall j :: 0 <= j < |logs| ==> Told(objects, prefix, logs[j], fates[j]))
    && (forall j :: 0 <= j < |logs| - 1 ==> fates[j] != Held)
  }

  ghost predicate IsHeld(fates: seq<Fate>) {
    fates != [] && Last(fates) == Held
  }

  /** Fail-stop: a stack once closed or given up never changes again, and no stack loses a record. */
  ghost predicate FailStop(objects: Objects, logs: seq<Stack>, fates: seq<Fate>,
                           later: Objects, laterLogs: seq<Stack>, laterFates: seq<Fate>, prefix: Text) {
    && |logs| == |fates| && |laterLogs| == |laterFates| && Extended(logs, laterLogs)
    && forall j :: 0 <= j < |logs| && fates[j] != Held ==>
         && laterLogs[j] == logs[j] && laterFates[j] == fates[j]
         && forall k: Suffix ::
              Lookup(later, Path(prefix, logs[j].fileId, k)) == Lookup(objects, Path(prefix, logs[j].fileId, k))
  }

  /** What a failed opening leaves of the three objects. */
  ghost predicate HeadsThere(objects: Objects, later: Objects, prefix: Text, id: u64, f: Opening) {
    forall k: Suffix ::
      Lookup(later, Path(prefix, id, k)) == HeadsLeft(f, id, k, Lookup(objects, Path(prefix, id, k)))
  }

  class BytestackOpendalWriter {
    const op: Operator
    const prefix: Text
    var totalSize: nat
    var inner: Option<InnerWriter>
    var poisoned: bool
    /** The stacks opened so far with the records put returned for, and what became of each. */
    ghost var logs: seq<Stack>
    ghost var fates: seq<Fate>

    /** This writer is the newest stack's, exact, and the total is its own. */
    ghost predicate Ready(w: InnerWriter)
      reads this, op, w
    {
      && w.op == op && w.prefix == prefix && w.Exact()
      && IsHeld(fates) && |logs| == |fates| && w.Log() == Last(logs)
      && totalSize == RawTotal(w.recs)
    }

    ghost predicate Valid()
      reads this, op, if inner.Some? then {inner.value} else {}
    {
      && Books(op.objects, prefix, logs, fates)
      && (inner.Some? ==> !poisoned && Ready(inner.value) && inner.value.recs != [])
      && (inner.None? ==> !IsHeld(fates))
    }

    constructor (op: Operator, prefix: Text)
      ensures Valid() && this.op == op && this.prefix == prefix && inner == None && !poisoned && logs == []
      ensures totalSize == 0
    {
      this.op, this.prefix, totalSize, inner, poisoned := op, prefix, 0, None, false;
      logs, fates := [], [];
    }

    /** Three new objects with their headers. */
    method CreateNewWriters(stackId: u64, f: Opening) returns (w: Option<InnerWriter>)
      modifies op
      ensures w.Some? ==> fresh(w.value) && w.value.op == op && w.value.prefix == prefix && w.value.stackId == stackId
      ensures w.Some? ==> w.value.Exact() && w.value.recs == []
      ensures w.Some? <==> f == GOOD_OPENING
      ensures forall k: Suffix ::
        Lookup(op.objects, Path(prefix, stackId, k)) ==
        HeadsLeft(f, stackId, k, Lookup(old(op.objects), Path(prefix, stackId, k)))
      ensures Aside(old(op.objects), op.objects, prefix, iset{stackId})
    {
      hide Path, Aside, Lookup, HeaderLine, MagicHeader, AsU64, HeadsLeft, InnerWriter.Exact;
      w := None;
      var inner := new InnerWriter(op, prefix, stackId, 4096, AsU64(|HeaderLine(stackId)|));
      label Before:
      var filled := inner.Fill(f);
      forall k: Suffix
        ensures Lookup(op.objects, Path(prefix, stackId, k)) ==
                HeadsLeft(f, stackId, k, Lookup(old(op.objects), Path(prefix, stackId, k)))
      {
        assert inner.At(k) == HeadsLeft(f, stackId, k, old@Before(inner.At(k)));
      }
      if filled {
        forall k: Suffix
          ensures inner.At(k) == HeadsLeft(GOOD_OPENING, stackId, k, None)
        {
          NothingKept(stackId, k, old@Before(inner.At(k)));
        }
        HeadersWhole(inner, stackId);
        w := Some(inner);
      }
    }

    /** Close a writer that was taken; its stack is closed or given up. */
    method CloseTaken(w: InnerWriter, closing: Closing) returns (ok: bool)
      requires Books(op.objects, prefix, logs, fates) && Ready(w) && inner.None?
      modifies this, op
      ensures Valid() && inner.None? && poisoned == old(poisoned)
      ensures ok <==> closing == GOOD_CLOSING
      ensures logs == old(logs) && fates == old(fates)[|old(fates)| - 1 := if ok then Closed else Abandoned]
      ensures DataFinished(op.objects, prefix, Last(logs)) <==> closing.data
      ensures FailStop(old(op.objects), old(logs), old(fates), op.objects, logs, fates, prefix)
      ensures Aside(old(op.objects), op.objects, prefix, iset{Last(logs).fileId})
    {
      hide Path, Full, Aside, Lookup, RawTotal, InnerWriter.At, Told, InnerWriter.Exact, FailStop, Extended, Distinct,
        Stack.Data, Stack.Meta, ToldOf;
      ghost var was, s := op.objects, Last(logs);
      assert Told(was, prefix, logs[|logs| - 1], fates[|logs| - 1]);
      ok := w.Close(closing.data, closing.meta, closing.index);
      fates := fates[|fates| - 1 := if ok then Closed else Abandoned];
      AtIs(w);
      assert w.Log() == s && logs[|logs| - 1 := s] == logs;
      forall k: Suffix
        ensures
          var o := Lookup(op.objects, Path(prefix, s.fileId, k));
          o.Some? && o.value.bytes == Full(s, k) && (ok ==> o.value.finished)
      {
        assert w.At(k) == Lookup(op.objects, Path(prefix, s.fileId, k));
      }
      assert w.At(Data) == Lookup(op.objects, Path(prefix, s.fileId, Data));
      ClosedTold(was, op.objects, prefix, s, ok);
      BooksChange(was, op.objects, prefix, logs, old(fates), s, Last(fates));
    }

    /** Write to a writer that was taken; put it back only if all went well. */
    method WriteTaken(w: InnerWriter, buf: seq<byte>, filename: Text, meta: Option<seq<byte>>, cookie: u32, now: u64,
                      f: Faults) returns (id: Option<Text>)
      requires Books(op.objects, prefix, logs, fates) && Ready(w) && inner.None? && !poisoned && logs != []
      requires totalSize + |buf| <= MAX_DATA_BYTES || w.recs == []
      modifies this, op, w
      ensures Valid() && !poisoned
      ensures id.Some? <==> f == NO_FAULTS
      ensures inner == if id.Some? then Some(w) else None
      ensures id.Some? ==> totalSize == old(totalSize) + |buf|
      ensures
        var r := Rec(cookie, buf, now, filename, if meta.Some? then meta.value else []);
        && logs == (if id.Some? then old(logs)[|old(logs)| - 1 := Last(old(logs)).With(r)] else old(logs))
        && LeftBy(op.objects, prefix, Last(old(logs)), r, f)
      ensures id.Some? ==> logs != [] && Last(logs).recs != []
      ensures id.Some? ==> id.value == IdAt(Last(logs), |Last(logs).recs| - 1) && fates == old(fates)
      ensures id.None? ==> fates == old(fates)[|old(fates)| - 1 := Abandoned]
      ensures FailStop(old(op.objects), old(logs), old(fates), op.objects, logs, fates, prefix)
      ensures Aside(old(op.objects), op.objects, prefix, iset{Last(old(logs)).fileId})
    {
      hide Path, Full, Aside, Lookup, RawTotal, InnerWriter.At, Told, FailStop, Extended, Distinct, Stack.Data,
        Stack.Meta, ToldOf, IdAt, Reached;
      ghost var was, s := op.objects, Last(logs);
      ghost var r := Rec(cookie, buf, now, filename, if meta.Some? then meta.value else []);
      assert Told(was, prefix, logs[|logs| - 1], fates[|logs| - 1]);
      id := w.Write(buf, filename, meta, cookie, now, f);
      AtIs(w);
      assert LeftBy(op.objects, prefix, s, r, f);
      WrittenTold(was, op.objects, prefix, s, r, f);
      if id.None? {
        fates := fates[|fates| - 1 := Abandoned];
        assert logs[|logs| - 1 := s] == logs;
        BooksChange(was, op.objects, prefix, logs, old(fates), s, Abandoned);
        return;
      }
      totalSize := totalSize + |buf|;
      inner := Some(w);
      logs := logs[|logs| - 1 := s.With(r)];
      assert fates[|fates| - 1 := Held] == fates;
      TotalWith(s, r);
      BooksChange(was, op.objects, prefix, old(logs), fates, s.With(r), Held);
    }

    /** A new stack, or a panic that poisons the lock. */
    method OpenTaken(stackId: u64, opening: Opening) returns (w: Option<InnerWriter>)
      requires Valid() && inner.None? && !poisoned
      requires forall s :: s in logs ==> s.fileId != stackId
      modifies this, op
      ensures inner.None? && (w.Some? <==> opening == GOOD_OPENING)
      ensures w.Some? ==> fresh(w.value) && w.value.recs == [] && totalSize == 0 && Ready(w.value) && !poisoned
      ensures w.Some? ==> Books(op.objects, prefix, logs, fates)
      ensures w.Some? ==> logs == old(logs) + [Stack(stackId, stackId, [])] && fates == old(fates) + [Held]
      ensures w.None? ==> Valid() && poisoned && logs == old(logs) && fates == old(fates)
      ensures FailStop(old(op.objects), old(logs), old(fates), op.objects, logs, fates, prefix)
      ensures Aside(old(op.objects), op.objects, prefix, iset{stackId})
      ensures w.None? ==> HeadsThere(old(op.objects), op.objects, prefix, stackId, opening)
    {
      hide Path, Full, Aside, Lookup, RawTotal, InnerWriter.At, Told, FailStop, Extended, Distinct, Stack.Data,
        Stack.Meta, ToldOf, HeadsLeft;
      ghost var was, s := op.objects, Stack(stackId, stackId, []);
      w := CreateNewWriters(stackId, opening);
      if w.None? {
        poisoned := true;
        BooksAside(was, op.objects, prefix, logs, fates, stackId);
        return;
      }
      totalSize := 0;
      NoTotal();
      AtIs(w.value);
      assert w.value.Log() == s;
      forall k: Suffix
        ensures Lookup(op.objects, Path(prefix, s.fileId, k)) == Some(Object(Full(s, k), false))
      {
        assert w.value.At(k) == Some(Object(Full(s, k), false));
      }
      NewTold(op.objects, prefix, s);
      BooksNew(was, op.objects, prefix, logs, fates, s);
      logs, fates := logs + [s], fates + [Held];
    }

    /** There is room for a payload of this size in the stack held. */
    predicate Fits(size: nat)
      reads this
    {
      inner.Some? && totalSize + size <= MAX_DATA_BYTES
    }

    /** put gets as far as asking for a stack id. */
    predicate Asks(size: nat, closing: Closing)
      reads this
    {
      !poisoned && !Fits(size) && (inner.Some? ==> closing == GOOD_CLOSING)
    }

    /** The stacks whose objects put may touch: the one held, and the one it opens. */
    ghost function Touches(size: nat, closing: Closing, reply: Option<u64>): iset<u64>
      reads this
    {
      (if inner.Some? && logs != [] then iset{Last(logs).fileId} else iset{}) +
      (if Asks(size, closing) && reply.Some? then iset{reply.value} else iset{})
    }

    /** What has become of the stacks when put has closed the one held, if that is full. */
    ghost function Settles(size: nat, closing: Closing): seq<Fate>
      reads this
    {
      if poisoned || inner.None? || Fits(size) || fates == [] then fates
      else fates[|fates| - 1 := if closing == GOOD_CLOSING then Closed else Abandoned]
    }

    /** put gets as far as writing its record. */
    predicate Writes(size: nat, closing: Closing, reply: Option<u64>, opening: Opening)
      reads this
    {
      !poisoned && (Fits(size) || (Asks(size, closing) && reply.Some? && opening == GOOD_OPENING))
    }

    /** The part of put before the record: the writer held, or one over a new stack, or why there is none. */
    method TakeWriter(size: nat, closing: Closing, reply: Option<u64>, opening: Opening)
      returns (w: Option<InnerWriter>, why: CoreResult)
      requires Valid() && !poisoned && (reply.Some? ==> forall s :: s in logs ==> s.fileId != reply.value)
      modifies this, op
      ensures inner.None? && (w.Some? <==> old(Writes(size, closing, reply, opening)))
      ensures w.Some? ==> !poisoned && Books(op.objects, prefix, logs, fates) && Ready(w.value) && logs != []
      ensures w.Some? ==> totalSize + size <= MAX_DATA_BYTES || w.value.recs == []
      ensures old(Fits(size)) ==>
        w == old(inner) && logs == old(logs) && totalSize == old(totalSize) && op.objects == old(op.objects)
      ensures !old(Fits(size)) && w.Some? ==>
        && fresh(w.value) && w.value.recs == [] && totalSize == 0
        && logs == old(logs) + [Stack(reply.value, reply.value, [])]
      ensures fates == old(Settles(size, closing)) + if !old(Fits(size)) && w.Some? then [Held] else []
      ensures w.None? ==> Valid() && logs == old(logs)
      ensures poisoned <==> old(Asks(size, closing)) && reply.Some? && opening != GOOD_OPENING
      ensures poisoned ==> HeadsThere(old(op.objects), op.objects, prefix, reply.value, opening)
      ensures w.None? ==>
        why == (if poisoned then LockPanic else if old(Asks(size, closing)) then IoError else CloseError)
      ensures FailStop(old(op.objects), old(logs), old(fates), op.objects, logs, fates, prefix)
      ensures Aside(old(op.objects), op.objects, prefix, old(Touches(size, closing, reply)))
      ensures old(inner.Some? && !Fits(size)) ==>
        old(logs) != [] && (DataFinished(op.objects, prefix, Last(old(logs))) <==> closing.data)
    {
      hide Path, Books, InnerWriter.Exact, IsHeld, FailStop, Told, RawTotal, Aside, HeadsThere, DataFinished;
      w, why := inner, IoError;
      ghost var a, l, t, ids := op.objects, logs, fates, Touches(size, closing, reply);
      ghost var held := if inner.Some? && logs != [] then iset{Last(logs).fileId} else iset{};
      NothingChanged(a, l, t, prefix);
      NothingAside(a, prefix, held);
      HeldWriter();
      inner := None;
      if w.Some? && totalSize + size > MAX_DATA_BYTES {
        var closed := CloseTaken(w.value, closing);
        w := None;
        if !closed {
          why := CloseError;
          AsideMore(a, op.objects, prefix, held, ids);
          return;
        }
      }
      AsideMore(a, op.objects, prefix, held, ids);
      if w.None? {
        if reply.None? {
          return;
        }
        ghost var b, m, u := op.objects, logs, fates;
        w := OpenTaken(reply.value, opening);
        FailStopThrough(a, l, t, b, m, u, op.objects, logs, fates, prefix);
        AsideMore(b, op.objects, prefix, iset{reply.value}, ids);
        AsideThrough(a, b, op.objects, prefix, ids);
        HeadsFrom(a, b, op.objects, prefix, held, reply.value, opening);
        StillFinished(b, op.objects, prefix, reply.value, m);
        why := LockPanic;
      }
    }

    /**
     * put. It answers only when its record is whole in all three objects, and always when nothing
     * it meets fails; whatever fails, the stack it failed on is never written again.
     */
    method Put(buf: seq<byte>, filename: Text, meta: Option<seq<byte>>, cookie: u32, now: u64, closing: Closing,
               reply: Option<u64>, opening: Opening, f: Faults) returns (r: CoreResult)
      requires Valid() && (reply.Some? ==> forall s :: s in logs ==> s.fileId != reply.value)
      modifies this, op, if inner.Some? then {inner.value} else {}
      ensures Valid()
      ensures FailStop(old(op.objects), old(logs), old(fates), op.objects, logs, fates, prefix)
      ensures Aside(old(op.objects), op.objects, prefix, old(Touches(|buf|, closing, reply)))
      ensures r == LockPanic <==> poisoned
      ensures poisoned <==> old(poisoned) || (old(Asks(|buf|, closing)) && reply.Some? && opening != GOOD_OPENING)
      ensures r == CloseError <==>
        old(!poisoned && inner.Some? && totalSize + |buf| > MAX_DATA_BYTES) && closing != GOOD_CLOSING
      ensures r.Accepted? <==> f == NO_FAULTS && old(Writes(|buf|, closing, reply, opening))
      ensures !r.Accepted? ==>
        logs == old(logs) + if old(!Fits(|buf|) && Writes(|buf|, closing, reply, opening))
                            then [Stack(reply.value, reply.value, [])] else []
      ensures fates ==
        var left := old(Settles(|buf|, closing));
        if !old(Writes(|buf|, closing, reply, opening)) then left
        else if !old(Fits(|buf|)) then left + [if r.Accepted? then Held else Abandoned]
        else if r.Accepted? || left == [] then left
        else left[|left| - 1 := Abandoned]
      ensures r.Accepted? <==> inner.Some?
      ensures
        var rec := Rec(cookie, buf, now, filename, if meta.Some? then meta.value else []);
        && (r.Accepted? ==>
              && logs != [] && Last(logs).recs != [] && r.id == IdAt(Last(logs), |Last(logs).recs| - 1)
              && if old(Fits(|buf|))
                 then old(logs) != [] && logs == old(logs)[|old(logs)| - 1 := Last(old(logs)).With(rec)]
                 else reply.Some? && logs == old(logs) + [Stack(reply.value, reply.value, [rec])])
        && (old(Writes(|buf|, closing, reply, opening)) ==>
              (old(Fits(|buf|)) ==> old(logs) != []) &&
              LeftBy(op.objects, prefix,
                     if old(Fits(|buf|)) then Last(old(logs)) else Stack(reply.value, reply.value, []), rec, f))
      ensures r.Accepted? ==> totalSize == (if old(Fits(|buf|)) then old(totalSize) else 0) + |buf|
      ensures !old(poisoned) && poisoned ==>
        reply.Some? && HeadsThere(old(op.objects), op.objects, prefix, reply.value, opening)
      ensures old(!poisoned && inner.Some? && !Fits(|buf|)) ==>
        old(logs) != [] && (DataFinished(op.objects, prefix, Last(old(logs))) <==> closing.data)
      ensures inner.Some? ==> inner == old(inner) || fresh(inner.value)
      ensures |old(logs)| <= |logs| <= |old(logs)| + 1
      ensures |logs| == |old(logs)| + 1 ==> reply.Some? && Last(logs).fileId == reply.value
    {
      hide Path, Books, InnerWriter.Exact, IsHeld, FailStop, Told, IdAt, RawTotal, Aside, HeadsThere, DataFinished,
        LeftBy;
      ghost var a, l, t, ids := op.objects, logs, fates, Touches(|buf|, closing, reply);
      if poisoned {
        NothingChanged(a, l, t, prefix);
        NothingAside(a, prefix, ids);
        return LockPanic;
      }
      var writer, why := TakeWriter(|buf|, closing, reply, opening);
      if writer.None? {
        return why;
      }
      ghost var c, n, v := op.objects, logs, fates;
      var id := WriteTaken(writer.value, buf, filename, meta, cookie, now, f);
      FailStopThrough(a, l, t, c, n, v, op.objects, logs, fates, prefix);
      AsideMore(c, op.objects, prefix, iset{Last(n).fileId}, ids);
      AsideThrough(a, c, op.objects, prefix, ids);
      StillFinished(c, op.objects, prefix, Last(n).fileId, l);
      if id.None? {
        return IoError;
      }
      ghost var rec := Rec(cookie, buf, now, filename, if meta.Some? then meta.value else []);
      assert Last(logs) == Last(n).With(rec);
      assert [] + [rec] == [rec];
      return CoreResult.Accepted(id.value);
    }

    /** close: what is held is closed; after a panic there is nothing left to do. */
    method Close(closing: Closing) returns (ok: bool)
      requires Valid()
      modifies this, op
      ensures Valid() && inner.None? && logs == old(logs) && poisoned == old(poisoned)
      ensures ok <==> old(inner.None?) || closing == GOOD_CLOSING
      ensures FailStop(old(op.objects), old(logs), old(fates), op.objects, logs, fates, prefix)
      ensures old(inner.None?) ==> fates == old(fates) && op.objects == old(op.objects)
      ensures old(inner.Some?) ==> fates == old(fates)[|old(fates)| - 1 := if ok then Closed else Abandoned]
      ensures old(inner.Some?) ==> logs != [] && (DataFinished(op.objects, prefix, Last(logs)) <==> closing.data)
      ensures old(inner.Some?) ==> Aside(old(op.objects), op.objects, prefix, iset{Last(logs).fileId})
    {
      hide Path, Books, InnerWriter.Exact, IsHeld, FailStop, Told, RawTotal, Aside;
      NothingChanged(op.objects, logs, fates, prefix);
      ok := true;
      if !poisoned {
        var writer := inner;
        HeldWriter();
        inner := None;
        if writer.Some? {
          ok := CloseTaken(writer.value, closing);
        }
      }
    }

    lemma HeldWriter()
      requires Valid()
      ensures inner.Some? ==> IsHeld(fates) && |logs| == |fates| && logs != []
    {
      hide Books;
    }
  }

  lemma NothingAside(objects: Objects, prefix: Text, ids: iset<u64>)
    ensures Aside(objects, objects, prefix, ids)
  {
  }

  /** What opening leaves depends on what was there before the stack held was closed. */
  lemma HeadsFrom(a: Objects, b: Objects, c: Objects, prefix: Text, held: iset<u64>, id: u64, f: Opening)
    requires Aside(a, b, prefix, held) && id !in held
    ensures HeadsThere(b, c, prefix, id, f) ==> HeadsThere(a, c, prefix, id, f)
  {
    hide Aside, Path, Lookup, HeadsLeft;
    forall k: Suffix
      ensures Lookup(b, Path(prefix, id, k)) == Lookup(a, Path(prefix, id, k))
    {
      AsideAt(a, b, prefix, held, id, k);
    }
  }

  lemma StillFinished(objects: Objects, later: Objects, prefix: Text, id: u64, logs: seq<Stack>)
    requires Aside(objects, later, prefix, iset{id})
    ensures logs != [] && Last(logs).fileId != id ==>
      (DataFinished(later, prefix, Last(logs)) <==> DataFinished(objects, prefix, Last(logs)))
  {
    hide Aside, Path, Lookup;
    if logs != [] && Last(logs).fileId != id {
      AsideAt(objects, later, prefix, iset{id}, Last(logs).fileId, Data);
    }
  }

  lemma NothingChanged(objects: Objects, logs: seq<Stack>, fates: seq<Fate>, prefix: Text)
    requires Books(objects, prefix, logs, fates)
    ensures FailStop(objects, logs, fates, objects, logs, fates, prefix)
  {
    hide Told, Path, Lookup;
  }

  lemma FailStopThrough(a: Objects, l: seq<Stack>, t: seq<Fate>, b: Objects, m: seq<Stack>, u: seq<Fate>,
                        c: Objects, n: seq<Stack>, v: seq<Fate>, prefix: Text)
    requires FailStop(a, l, t, b, m, u, prefix) && FailStop(b, m, u, c, n, v, prefix)
    ensures FailStop(a, l, t, c, n, v, prefix)
  {
    hide Path, Lookup, Extended;
    ExtendedThrough(l, m, n);
    ExtendedLength(l, m);
    ExtendedLength(m, n);
    forall j, k: Suffix | 0 <= j < |l| && t[j] != Held
      ensures n[j] == l[j] && v[j] == t[j]
      ensures Lookup(c, Path(prefix, l[j].fileId, k)) == Lookup(a, Path(prefix, l[j].fileId, k))
    {
      assert m[j] == l[j] && u[j] == t[j];
      assert Lookup(b, Path(prefix, l[j].fileId, k)) == Lookup(a, Path(prefix, l[j].fileId, k));
    }
  }

  lemma ExtendedLength(a: seq<Stack>, b: seq<Stack>)
    requires Extended(a, b)
    ensures |a| <= |b|
  {
  }

  lemma AtIs(w: InnerWriter)
    ensures forall k: Suffix :: w.At(k) == Lookup(w.op.objects, Path(w.prefix, w.Log().fileId, k))
  {
    hide Path, Lookup;
  }

  lemma ClosedTold(objects: Objects, later: Objects, prefix: Text, s: Stack, ok: bool)
    requires Told(objects, prefix, s, Held)
    requires forall k: Suffix ::
      var o := Lookup(later, Path(prefix, s.fileId, k));
      o.Some? && o.value.bytes == Full(s, k) && (ok ==> o.value.finished)
    ensures Told(later, prefix, s, if ok then Closed else Abandoned)
  {
    hide Path, Lookup, Full, RawTotal;
  }

  /** What a write leaves of the newest stack, whole or not. */
  lemma WrittenTold(objects: Objects, later: Objects, prefix: Text, s: Stack, r: Rec, f: Faults)
    requires Told(objects, prefix, s, Held) && LeftBy(later, prefix, s, r, f)
    ensures Told(later, prefix, s, Abandoned)
    ensures f == NO_FAULTS && (RawTotal(s.recs) + |r.payload| <= MAX_DATA_BYTES || s.recs == []) ==>
      Told(later, prefix, s.With(r), Held)
  {
    hide Path, Lookup, Full, RawTotal, Reached;
    if f == NO_FAULTS {
      ReachedAll(s, r);
      TotalWith(s, r);
    }
  }

  lemma NewTold(objects: Objects, prefix: Text, s: Stack)
    requires s.recs == [] && s.headerId == s.fileId
    requires forall k: Suffix :: Lookup(objects, Path(prefix, s.fileId, k)) == Some(Object(Full(s, k), false))
    ensures Told(objects, prefix, s, Held)
  {
    hide Path, Lookup, Full;
  }

  lemma StackAside(objects: Objects, later: Objects, prefix: Text, id: u64, s: Stack)
    requires Aside(objects, later, prefix, iset{id}) && s.fileId != id
    ensures forall k: Suffix :: Lookup(later, Path(prefix, s.fileId, k)) == Lookup(objects, Path(prefix, s.fileId, k))
  {
    hide Lookup, Path, Aside;
    forall k: Suffix
      ensures Lookup(later, Path(prefix, s.fileId, k)) == Lookup(objects, Path(prefix, s.fileId, k))
    {
      AsideAt(objects, later, prefix, iset{id}, s.fileId, k);
    }
  }

  lemma BooksAside(objects: Objects, later: Objects, prefix: Text, logs: seq<Stack>, fates: seq<Fate>, id: u64)
    requires Books(objects, prefix, logs, fates) && Aside(objects, later, prefix, iset{id})
    requires forall s :: s in logs ==> s.fileId != id
    ensures Books(later, prefix, logs, fates)
    ensures FailStop(objects, logs, fates, later, logs, fates, prefix)
  {
    hide Path, Full, Lookup, RawTotal, ToldOf, Aside;
    forall j | 0 <= j < |logs|
      ensures Told(later, prefix, logs[j], fates[j])
      ensures forall k: Suffix ::
        Lookup(later, Path(prefix, logs[j].fileId, k)) == Lookup(objects, Path(prefix, logs[j].fileId, k))
    {
      assert logs[j] in logs;
      assert Told(objects, prefix, logs[j], fates[j]);
      StackAside(objects, later, prefix, id, logs[j]);
    }
  }

  lemma BooksNew(objects: Objects, later: Objects, prefix: Text, logs: seq<Stack>, fates: seq<Fate>, s: Stack)
    requires Books(objects, prefix, logs, fates) && !IsHeld(fates) && Aside(objects, later, prefix, iset{s.fileId})
    requires Told(later, prefix, s, Held) && forall t :: t in logs ==> t.fileId != s.fileId
    ensures Books(later, prefix, logs + [s], fates + [Held])
    ensures FailStop(objects, logs, fates, later, logs + [s], fates + [Held], prefix)
  {
    hide Told, Path, Lookup, Aside;
    BooksAside(objects, later, prefix, logs, fates, s.fileId);
    assert forall j :: 0 <= j < |logs| ==> (logs + [s])[j] == logs[j] && (fates + [Held])[j] == fates[j];
  }

  /** One put or close touches only the newest stack; the books stay right if that one is told right. */
  lemma BooksChange(objects: Objects, later: Objects, prefix: Text, logs: seq<Stack>, fates: seq<Fate>, s: Stack,
                    fate: Fate)
    requires Books(objects, prefix, logs, fates) && IsHeld(fates) && Extends(Last(logs), s)
    requires Aside(objects, later, prefix, iset{s.fileId}) && Told(later, prefix, s, fate)
    ensures
      var n := |logs| - 1;
      && Books(later, prefix, logs[n := s], fates[n := fate])
      && FailStop(objects, logs, fates, later, logs[n := s], fates[n := fate], prefix)
  {
    hide Path, Full, Lookup, RawTotal, ToldOf, Aside;
    var n := |logs| - 1;
    forall j | 0 <= j < n
      ensures Told(later, prefix, logs[j], fates[j])
      ensures forall k: Suffix ::
        Lookup(later, Path(prefix, logs[j].fileId, k)) == Lookup(objects, Path(prefix, logs[j].fileId, k))
    {
      assert logs[j].fileId != logs[n].fileId;
      assert Told(objects, prefix, logs[j], fates[j]);
      StackAside(objects, later, prefix, s.fileId, logs[j]);
    }
  }

  lemma NothingKept(id: u64, k: Suffix, was: Option<Object>)
    ensures HeadsLeft(GOOD_OPENING, id, k, was) == HeadsLeft(GOOD_OPENING, id, k, None)
  {
    hide HeaderLine, MagicHeader, Landed;
  }

  /** Objects that hold just their headers are those of a stack without records. */
  lemma HeadersWhole(w: InnerWriter, id: u64)
    requires w.stackId == id && w.recs == [] && w.dataOffset == 4096 && w.metaOffset == AsU64(|HeaderLine(id)|)
    requires forall k: Suffix :: w.At(k) == HeadsLeft(GOOD_OPENING, id, k, None)
    ensures w.Exact()
  {
    hide Path, Full, HeaderLine, MagicHeader, InnerWriter.At, DataBytes, MetaBytes;
    EmptyFull(w.Log());
    EmptyFiles(id);
    forall k: Suffix
      ensures w.At(k) == Some(Object(Full(w.Log(), k), false))
    {
      match k
      case Data =>
      case Idx =>
      case Meta =>
    }
  }

  /** A reader lists, scans and fetches a stack as exactly its records. */
  ghost predicate ReadsAs(store: Store, prefix: Text, s: Stack) {
    && Listed(store, prefix, s.fileId) == Ok(Entries(s, |s.recs|))
    && Opened(store, prefix, s.fileId).Ok?
    && Drain(Opened(store, prefix, s.fileId).value, |s.recs| + 1) == ItemsFrom(s, 0, |s.recs|) + [Nothing]
    && forall k, checkCrc :: 0 <= k < |s.recs| ==> Fetched(store, prefix, IdAt(s, k), checkCrc) == Ok(s.recs[k].payload)
  }

  lemma StoredReads(store: Store, prefix: Text, s: Stack)
    requires Stored(store, prefix, s) && s.headerId == s.fileId && |s.Data()| <= U64
    ensures ReadsAs(store, prefix, s) <==> forall k :: 0 <= k < |s.recs| ==> Sized(s, k)
  {
    hide Path, Listed, Opened, Next, Fetched, Stored, Entries, LineSized, IdAt, DataBytes, Drain, ItemsFrom;
    ListStored(store, prefix, s);
    ScanExact(store, prefix, s);
    if forall k :: 0 <= k < |s.recs| ==> Sized(s, k) {
      forall k, checkCrc | 0 <= k < |s.recs|
        ensures Fetched(store, prefix, IdAt(s, k), checkCrc) == Ok(s.recs[k].payload)
      {
        assert Sized(s, k);
        FetchScanned(store, prefix, s, k, checkCrc);
      }
    }
  }

  /**
   * Every stack closed without error holds whole records only, and reads as them exactly if every
   * payload and every meta line is shorter than 2^32 bytes.
   */
  lemma ClosedReads(w: BytestackOpendalWriter, j: nat)
    requires w.Valid() && j < |w.logs| == |w.fates| && w.fates[j] == Closed && |w.logs[j].Data()| <= U64
    ensures Stored(Visible(w.op.objects), w.prefix, w.logs[j])
    ensures ReadsAs(Visible(w.op.objects), w.prefix, w.logs[j]) <==>
            forall k :: 0 <= k < |w.logs[j].recs| ==> Sized(w.logs[j], k)
  {
    hide Path, Stored, ReadsAs, Sized, DataBytes, BytestackOpendalWriter.Valid;
    ToldHere(w, j);
    ToldStored(w.op.objects, w.prefix, w.logs[j]);
    StoredReads(Visible(w.op.objects), w.prefix, w.logs[j]);
  }

  lemma ToldHere(w: BytestackOpendalWriter, j: nat)
    requires w.Valid() && j < |w.logs|
    ensures |w.fates| == |w.logs| && Told(w.op.objects, w.prefix, w.logs[j], w.fates[j])
    ensures w.logs[j].headerId == w.logs[j].fileId
  {
    hide BytestackOpendalWriter.Ready;
  }

  lemma ToldStored(objects: Objects, prefix: Text, s: Stack)
    requires Told(objects, prefix, s, Closed)
    ensures Stored(Visible(objects), prefix, s)
  {
    hide Path, DataBytes, MetaBytes, IdxBytes, RawTotal;
    assert ToldOf(Lookup(objects, Path(prefix, s.fileId, Data)), Full(s, Data), Closed);
    assert ToldOf(Lookup(objects, Path(prefix, s.fileId, Meta)), Full(s, Meta), Closed);
    assert ToldOf(Lookup(objects, Path(prefix, s.fileId, Idx)), Full(s, Idx), Closed);
  }

  lemma ListStored(store: Store, prefix: Text, s: Stack)
    requires Stored(store, prefix, s) && s.headerId == s.fileId
    ensures Listed(store, prefix, s.fileId) == Ok(Entries(s, |s.recs|))
  {
    hide Path, Listed, Entries, DataBytes, MetaBytes, IdxBytes;
    ListBack(store, prefix, s);
  }
}
