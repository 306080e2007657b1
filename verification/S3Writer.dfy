/**
 * The Rust S3Writer: whole stacks buffered in memory, published as three objects, data before
 * meta before idx. An upload may fail with or without having published its object.
 */
module S3Writer {
  import opened Bytes
  import opened IndexId
  import opened LocalWriter
  import opened MetaJson
  import opened Paths
  import opened Reader
  import opened Records
  import opened StackLog

  /** One put_object call: published; not published, reported failed; published, reported failed. */
  datatype Upload = Arrived | Lost | ArrivedUnheard

  datatype Uploads = Uploads(data: Upload, meta: Upload, idx: Upload) {
    function Of(k: Suffix): Upload {
      match k
      case Data => data
      case Meta => meta
      case Idx => idx
    }
  }

  datatype Writer = Writer(prefix: Text, fileStackId: u64, headerStackId: u64, buffers: Buffers, dataOffset: u64,
                           metaOffset: u64, totalRawBytes: nat, maxDataBytes: nat, closed: bool, client: bool)

  datatype Buffers = Buffers(data: seq<byte>, meta: seq<byte>, idx: seq<byte>) {
    function Of(k: Suffix): seq<byte> {
      match k
      case Data => data
      case Meta => meta
      case Idx => idx
    }
  }

  const EMPTY_BUFFERS := Buffers([], [], [])

  /** Keys join prefix and name with a slash unless there is no prefix. */
  function KeyPrefix(prefix: Text): Text {
    if prefix == [] then [] else prefix + [47]
  }

  function Key(w: Writer, k: Suffix): Text {
    Path(KeyPrefix(w.prefix), w.fileStackId, k)
  }

  // ---- what each call does ----

  function HeaderBuffers(id: u64): Buffers {
    Buffers(MagicHeader(DATA_MAGIC, id) + Zeros(4080), HeaderLine(id), MagicHeader(INDEX_MAGIC, id))
  }

  /** open_stack: nothing changes unless the controller answers. */
  function OpenStack(w: Writer, reply: Option<u64>): Option<Writer> {
    if reply.None? then None else
      Some(w.(fileStackId := reply.value, headerStackId := reply.value, dataOffset := 4096, totalRawBytes := 0,
              buffers := HeaderBuffers(reply.value), metaOffset := AsU64(|HeaderLine(reply.value)|)))
  }

  function Sent(objects: Store, key: Text, body: seq<byte>, o: Upload): Store {
    if o == Lost then objects else objects[key := body]
  }

  /** The store after each object that was sent, and whether all three were heard to arrive. */
  function Sending(w: Writer, objects: Store, o: Uploads): (seq<Store>, bool) {
    var a := Sent(objects, Key(w, Data), w.buffers.data, o.data);
    if o.data != Arrived then ([a], false) else
      var b := Sent(a, Key(w, Meta), w.buffers.meta, o.meta);
      if o.meta != Arrived then ([a, b], false) else
        var c := Sent(b, Key(w, Idx), w.buffers.idx, o.idx);
        ([a, b, c], o.idx == Arrived)
  }

  /** upload_current_stack: the buffers are given up only once all three objects arrived. */
  function Uploaded(w: Writer, objects: Store, o: Uploads): (Writer, seq<Store>, bool) {
    if !w.client then (w, [], false) else
      var (visited, ok) := Sending(w, objects, o);
      (if ok then w.(buffers := EMPTY_BUFFERS) else w, visited, ok)
  }

  function NewMeta(w: Writer, r: Rec): MetaRecord {
    MetaRecord(r.time, w.dataOffset, AsU32(|r.payload|), r.cookie, r.filename, r.extra)
  }

  /** put behind the size guard. */
  function Appended(w: Writer, r: Rec): (Writer, Text) {
    var json := PrintObject(Members(NewMeta(w, r)));
    var ir := IndexRecord(r.cookie, w.dataOffset, AsU32(|r.payload|), w.metaOffset, AsU32(|json| + 1));
    var dr := NewDataRecord(r.cookie, r.payload);
    var buffers := Buffers(w.buffers.data + EncodeData(dr.header) + dr.data + dr.padding,
                           w.buffers.meta + json + [NEWLINE],
                           w.buffers.idx + EncodeIndex(ir));
    ( w.(buffers := buffers, dataOffset := AsU64(w.dataOffset + RecordSize(dr)),
         metaOffset := AsU64(w.metaOffset + |json| + 1), totalRawBytes := w.totalRawBytes + |r.payload|),
      PrintId(IndexID(w.fileStackId, ir.offsetData, ir.cookie)) )
  }

  /** put: the new writer, the stores visited on the way, and the answer. */
  function Putting(w: Writer, objects: Store, r: Rec, o: Uploads, reply: Option<u64>): (Writer, seq<Store>, PutResult) {
    if w.closed then (w, [], StackClosed)
    else if |r.payload| > w.maxDataBytes then (w, [], StackFull)
    else if w.totalRawBytes + |r.payload| <= w.maxDataBytes then
      var (v, id) := Appended(w, r);
      (v, [], PutOk(id))
    else
      var (u, visited, ok) := Uploaded(w, objects, o);
      if !ok then (u, visited, IoFailed) else
        var next := OpenStack(u, reply);
        if next.None? then (u, visited, NoStackId) else
          var (v, id) := Appended(next.value, r);
          (v, visited, PutOk(id))
  }

  /** close: the flag is set before the upload, the client dropped only after it. */
  function Closing(w: Writer, objects: Store, o: Uploads): (Writer, seq<Store>, bool) {
    if w.closed then (w, [], true) else
      var (u, visited, ok) := Uploaded(w.(closed := true), objects, o);
      (if ok then u.(client := false) else u, visited, ok)
  }

  // ---- the writer in place ----

  class Bucket {
    var objects: Store
    /** Every state the store has been in. */
    ghost var seen: seq<Store>

    constructor (objects: Store)
      ensures this.objects == objects && seen == [objects]
    {
      this.objects := objects;
      seen := [objects];
    }

    method PutObject(key: Text, body: seq<byte>, o: Upload) returns (ok: bool)
      modifies this
      ensures objects == Sent(old(objects), key, body, o) && seen == old(seen) + [objects]
      ensures ok <==> o == Arrived
    {
      if o != Lost {
        objects := objects[key := body];
      }
      seen := seen + [objects];
      ok := o == Arrived;
    }
  }

  lemma Cleared(bs: seq<byte>)
    ensures [] + bs == bs
  {
  }

  /** Where a step that visited these stores ends. */
  function LastOf(visited: seq<Store>, objects: Store): Store {
    if visited == [] then objects else Last(visited)
  }

  class S3Writer {
    const prefix: Text
    const bucket: Bucket
    const maxDataBytes: nat
    var fileStackId: u64
    var headerStackId: u64
    var dataBuf: seq<byte>
    var idxBuf: seq<byte>
    var metaBuf: seq<byte>
    var dataOffset: u64
    var metaOffset: u64
    var totalRawBytes: nat
    var closed: bool
    var client: bool

    ghost function State(): Writer
      reads this
    {
      Writer(prefix, fileStackId, headerStackId, Buffers(dataBuf, metaBuf, idxBuf), dataOffset, metaOffset,
             totalRawBytes, maxDataBytes, closed, client)
    }

    constructor (bucket: Bucket, prefix: Text, maxDataBytes: nat)
      ensures this.bucket == bucket
      ensures State() == Writer(prefix, 0, 0, EMPTY_BUFFERS, 4096, 0, 0, maxDataBytes, false, true)
    {
      this.bucket, this.prefix, this.maxDataBytes := bucket, prefix, maxDataBytes;
      fileStackId, headerStackId := 0, 0;
      dataBuf, idxBuf, metaBuf := [], [], [];
      dataOffset, metaOffset, totalRawBytes := 4096, 0, 0;
      closed, client := false, true;
    }

    method Open(reply: Option<u64>) returns (ok: bool)
      modifies this
      ensures ok == OpenStack(old(State()), reply).Some?
      ensures State() == if ok then OpenStack(old(State()), reply).value else old(State())
    {
      hide MagicHeader, HeaderLine, AsU64, Zeros;
      if reply.None? {
        return false;
      }
      Cleared(MagicHeader(DATA_MAGIC, reply.value));
      Cleared(MagicHeader(INDEX_MAGIC, reply.value));
      Cleared(HeaderLine(reply.value));
      fileStackId, headerStackId := reply.value, reply.value;
      dataOffset, totalRawBytes := 4096, 0;
      dataBuf, idxBuf, metaBuf := [], [], [];
      dataBuf := dataBuf + MagicHeader(DATA_MAGIC, reply.value);
      dataBuf := dataBuf + Zeros(4080);
      idxBuf := idxBuf + MagicHeader(INDEX_MAGIC, reply.value);
      metaOffset := AsU64(|HeaderLine(reply.value)|);
      metaBuf := metaBuf + HeaderLine(reply.value);
      return true;
    }

    method UploadCurrentStack(o: Uploads) returns (ok: bool)
      modifies this, bucket
      ensures var (w, visited, done) := Uploaded(old(State()), old(bucket.objects), o);
        && State() == w && ok == done
        && bucket.seen == old(bucket.seen) + visited && bucket.objects == LastOf(visited, old(bucket.objects))
    {
      hide Path;
      if !client {
        return false;
      }
      ghost var w := State();
      var bodies := [(Data, dataBuf), (Meta, metaBuf), (Idx, idxBuf)];
      ghost var sending := Sending(w, bucket.objects, o).0;
      var i := 0;
      while i < 3
        invariant 0 <= i <= 3 && State() == w
        invariant i <= |sending| && bucket.seen == old(bucket.seen) + sending[..i]
        invariant bucket.objects == LastOf(sending[..i], old(bucket.objects))
        invariant i > 0 ==> o.data == Arrived
        invariant i > 1 ==> o.meta == Arrived
        invariant i > 2 ==> o.idx == Arrived
      {
        var (k, body) := bodies[i];
        var heard := bucket.PutObject(Path(KeyPrefix(prefix), fileStackId, k), body, o.Of(k));
        assert sending[..i + 1] == sending[..i] + [sending[i]];
        if !heard {
          assert sending[..i + 1] == sending;
          return false;
        }
        i := i + 1;
      }
      assert sending[..3] == sending;
      dataBuf, metaBuf, idxBuf := [], [], [];
      return true;
    }

    /** put behind the size guard: slot, line and entry go to the three buffers. */
    method Append(r: Rec) returns (id: Text)
      modifies this
      ensures (State(), id) == Appended(old(State()), r)
    {
      hide PrintId, PrintObject, Members, NewDataRecord, EncodeData, EncodeIndex, RecordSize, AsU64, AsU32, Slot;
      var mr := MetaRecord(r.time, dataOffset, AsU32(|r.payload|), r.cookie, r.filename, r.extra);
      var json := PrintObject(Members(mr));
      var ir := IndexRecord(r.cookie, dataOffset, AsU32(|r.payload|), metaOffset, AsU32(|json| + 1));
      id := PrintId(IndexID(fileStackId, ir.offsetData, ir.cookie));
      var dr := NewDataRecord(r.cookie, r.payload);
      dataBuf := dataBuf + EncodeData(dr.header);
      dataBuf := dataBuf + dr.data;
      dataBuf := dataBuf + dr.padding;
      dataOffset := AsU64(dataOffset + RecordSize(dr));
      metaBuf := metaBuf + json;
      metaBuf := metaBuf + [NEWLINE];
      metaOffset := AsU64(metaOffset + |json| + 1);
      idxBuf := idxBuf + EncodeIndex(ir);
      totalRawBytes := totalRawBytes + |r.payload|;
    }

    method Put(data: seq<byte>, filename: Text, extra: Option<seq<byte>>, cookie: u32, now: u64, o: Uploads,
               reply: Option<u64>) returns (r: PutResult)
      modifies this, bucket
      ensures
        var rec := Rec(cookie, data, now, filename, if extra.Some? then extra.value else []);
        var (w, visited, answer) := Putting(old(State()), old(bucket.objects), rec, o, reply);
        && State() == w && r == answer
        && bucket.seen == old(bucket.seen) + visited && bucket.objects == LastOf(visited, old(bucket.objects))
    {
      hide Path, Appended, Sending, HeaderBuffers, HeaderLine, AsU64;
      if closed {
        return StackClosed;
      }
      if |data| > maxDataBytes {
        return StackFull;
      }
      if totalRawBytes + |data| > maxDataBytes {
        var uploaded := UploadCurrentStack(o);
        if !uploaded {
          return IoFailed;
        }
        var renewed := Open(reply);
        if !renewed {
          return NoStackId;
        }
      }
      var id := Append(Rec(cookie, data, now, filename, if extra.Some? then extra.value else []));
      return PutOk(id);
    }

    method Close(o: Uploads) returns (ok: bool)
      modifies this, bucket
      ensures var (w, visited, done) := Closing(old(State()), old(bucket.objects), o);
        && State() == w && ok == done
        && bucket.seen == old(bucket.seen) + visited && bucket.objects == LastOf(visited, old(bucket.objects))
    {
      hide Sending;
      if closed {
        return true;
      }
      closed := true;
      ok := UploadCurrentStack(o);
      if ok {
        client := false;
      }
    }
  }
}
