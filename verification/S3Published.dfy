/** What can be read from the object store while an S3Writer publishes, whatever uploads fail. */
module S3Published {
  import opened Bytes
  import opened Crash
  import opened IndexId
  import opened LocalWriter
  import opened LocalRun
  import opened MetaJson
  import opened Paths
  import opened ReadBack
  import opened Reader
  import opened Records
  import opened S3Writer
  import opened StackLog

  const ALL_ARRIVED := Uploads(Arrived, Arrived, Arrived)

  // ---- versions of a stack's objects ----

  function Upto(s: Stack, v: nat): Stack
    requires v <= |s.recs|
  {
    s.(recs := s.recs[..v])
  }

  /** The object holds the first v records; -1 means there is no object. */
  ghost predicate VersionIs(store: Store, prefix: Text, s: Stack, k: Suffix, v: int) {
    var path := Path(prefix, s.fileId, k);
    if v < 0 then path !in store
    else v <= |s.recs| && path in store && store[path] == Full(Upto(s, v), k)
  }

  ghost predicate Versions(store: Store, prefix: Text, s: Stack, d: int, m: int, i: int) {
    && -1 <= i <= m <= d <= |s.recs|
    && VersionIs(store, prefix, s, Data, d)
    && VersionIs(store, prefix, s, Meta, m)
    && VersionIs(store, prefix, s, Idx, i)
  }

  /** The visible idx is no newer than the visible meta, which is no newer than the visible data. */
  ghost predicate InOrder(store: Store, prefix: Text, s: Stack) {
    exists d, m, i :: Versions(store, prefix, s, d, m, i)
  }

  /** So every visible index record is satisfied by visible bytes. */
  lemma InOrderSatisfied(store: Store, prefix: Text, s: Stack, k: nat)
    requires InOrder(store, prefix, s) && Path(prefix, s.fileId, Idx) in store
    requires 16 + 28 * (k + 1) <= |store[Path(prefix, s.fileId, Idx)]|
    ensures k < |s.recs| && Satisfied(store, prefix, s, k)
  {
    hide Path, EntryAt, SlotOf, Line, DataBytes, MetaBytes, IdxBytes, EncodeIndex, MagicHeader;
    var d, m, i :| Versions(store, prefix, s, d, m, i);
    var id, rs := s.headerId, s.recs;
    assert k < i;
    Within(s, k, d);
    Within(s, k, m);
    Within(s, k, i);
    CodeAt(id, rs, k);
    SliceOfPrefix(IdxBytes(id, rs[..i]), s.Index(), 16 + 28 * k, 16 + 28 * (k + 1));
    SlotAt(id, rs, k);
    SliceOfPrefix(DataBytes(id, rs[..d]), s.Data(), DataOff(id, rs, k), DataOff(id, rs, k + 1));
    LineAt(id, rs, k);
    SliceOfPrefix(MetaBytes(id, rs[..m]), s.Meta(), MetaOff(id, rs, k), MetaOff(id, rs, k + 1));
  }

  /** A version past record k begins like the full file and reaches past it. */
  lemma Within(s: Stack, k: nat, v: nat)
    requires k < v <= |s.recs|
    ensures
      && DataBytes(s.headerId, s.recs[..v]) <= s.Data()
      && DataOff(s.headerId, s.recs, k + 1) <= |DataBytes(s.headerId, s.recs[..v])|
      && MetaBytes(s.headerId, s.recs[..v]) <= s.Meta()
      && MetaOff(s.headerId, s.recs, k + 1) <= |MetaBytes(s.headerId, s.recs[..v])|
      && IdxBytes(s.headerId, s.recs[..v]) <= s.Index() && 16 + 28 * (k + 1) <= |IdxBytes(s.headerId, s.recs[..v])|
  {
    hide DataBytes, MetaBytes, IdxBytes, MagicHeader, SlotOf, Line;
    FilesGrow(s.headerId, s.recs, v);
    FilesGrow(s.headerId, s.recs[..v], k + 1);
    assert s.recs[..v][..k + 1] == s.recs[..k + 1];
  }

  // ---- one upload ----

  lemma SentHere(store: Store, prefix: Text, s: Stack, k: Suffix, o: Upload, v: int)
    requires VersionIs(store, prefix, s, k, v)
    ensures VersionIs(Sent(store, Path(prefix, s.fileId, k), Full(s, k), o), prefix, s, k,
                      if o == Lost then v else |s.recs|)
  {
    hide Path, Full;
    assert Upto(s, |s.recs|) == s;
  }

  lemma SentElsewhere(store: Store, prefix: Text, s: Stack, k: Suffix, body: seq<byte>, o: Upload,
                      t: Stack, l: Suffix, v: int)
    requires VersionIs(store, prefix, t, l, v) && (t.fileId != s.fileId || l != k)
    ensures VersionIs(Sent(store, Path(prefix, s.fileId, k), body, o), prefix, t, l, v)
  {
    hide Path, Full;
    PathInjective(prefix, t.fileId, l, s.fileId, k);
  }

  lemma SentAside(store: Store, prefix: Text, s: Stack, k: Suffix, body: seq<byte>, o: Upload,
                  t: Stack, d: int, m: int, i: int)
    requires Versions(store, prefix, t, d, m, i) && t.fileId != s.fileId
    ensures Versions(Sent(store, Path(prefix, s.fileId, k), body, o), prefix, t, d, m, i)
  {
    hide Path, Full, VersionIs, Sent;
    SentElsewhere(store, prefix, s, k, body, o, t, Data, d);
    SentElsewhere(store, prefix, s, k, body, o, t, Meta, m);
    SentElsewhere(store, prefix, s, k, body, o, t, Idx, i);
  }

  /** The buffers hold a stack in full. */
  ghost predicate Holding(w: Writer, s: Stack) {
    && w.fileStackId == s.fileId && w.headerStackId == s.headerId
    && w.buffers == Buffers(Full(s, Data), Full(s, Meta), Full(s, Idx))
  }

  /** Every store an upload visits is in order, and after a whole one the stack is all there. */
  lemma SendingInOrder(w: Writer, objects: Store, o: Uploads, s: Stack)
    requires Holding(w, s) && InOrder(objects, KeyPrefix(w.prefix), s)
    ensures forall st :: st in Sending(w, objects, o).0 ==> InOrder(st, KeyPrefix(w.prefix), s)
    ensures Sending(w, objects, o).1 ==> Stored(LastOf(Sending(w, objects, o).0, objects), KeyPrefix(w.prefix), s)
  {
    hide Path, Full, VersionIs, Sent, Stored, KeyPrefix;
    var p, n := KeyPrefix(w.prefix), |s.recs|;
    var d, m, i :| Versions(objects, p, s, d, m, i);
    var a := Sent(objects, Key(w, Data), w.buffers.data, o.data);
    SentHere(objects, p, s, Data, o.data, d);
    SentElsewhere(objects, p, s, Data, Full(s, Data), o.data, s, Meta, m);
    SentElsewhere(objects, p, s, Data, Full(s, Data), o.data, s, Idx, i);
    assert Versions(a, p, s, if o.data == Lost then d else n, m, i);
    if o.data == Arrived {
      var b := Sent(a, Key(w, Meta), w.buffers.meta, o.meta);
      SentHere(a, p, s, Meta, o.meta, m);
      SentElsewhere(a, p, s, Meta, Full(s, Meta), o.meta, s, Data, n);
      SentElsewhere(a, p, s, Meta, Full(s, Meta), o.meta, s, Idx, i);
      assert Versions(b, p, s, n, if o.meta == Lost then m else n, i);
      if o.meta == Arrived {
        var c := Sent(b, Key(w, Idx), w.buffers.idx, o.idx);
        SentHere(b, p, s, Idx, o.idx, i);
        SentElsewhere(b, p, s, Idx, Full(s, Idx), o.idx, s, Data, n);
        SentElsewhere(b, p, s, Idx, Full(s, Idx), o.idx, s, Meta, n);
        assert Versions(c, p, s, n, n, if o.idx == Lost then i else n);
        if o.idx == Arrived {
          AllThere(c, p, s);
        }
      }
    }
  }

  lemma AllThere(store: Store, prefix: Text, s: Stack)
    ensures Versions(store, prefix, s, |s.recs|, |s.recs|, |s.recs|) <==> Stored(store, prefix, s)
  {
    hide Path, DataBytes, MetaBytes, IdxBytes;
    assert Upto(s, |s.recs|) == s;
  }

  /** Other stacks' objects stay as they are. */
  lemma SendingAside(w: Writer, objects: Store, o: Uploads, s: Stack, t: Stack, d: int, m: int, i: int)
    requires Holding(w, s) && t.fileId != s.fileId && Versions(objects, KeyPrefix(w.prefix), t, d, m, i)
    ensures forall st :: st in Sending(w, objects, o).0 ==> Versions(st, KeyPrefix(w.prefix), t, d, m, i)
  {
    hide Path, Full, Versions, Sent, KeyPrefix;
    var p := KeyPrefix(w.prefix);
    var a := Sent(objects, Key(w, Data), w.buffers.data, o.data);
    SentAside(objects, p, s, Data, w.buffers.data, o.data, t, d, m, i);
    var b := Sent(a, Key(w, Meta), w.buffers.meta, o.meta);
    SentAside(a, p, s, Meta, w.buffers.meta, o.meta, t, d, m, i);
    SentAside(b, p, s, Idx, w.buffers.idx, o.idx, t, d, m, i);
  }

  // ---- every step of every run ----

  /** A writer with its store, the stores seen so far, and the stacks it means to publish. */
  datatype Run = Run(w: Writer, objects: Store, seen: seq<Store>, logs: seq<Stack>)

  /** The writer's fields are those of a stack. */
  ghost predicate Live(w: Writer, s: Stack) {
    && Holding(w, s)
    && w.dataOffset == AsU64(|s.Data()|) && w.metaOffset == AsU64(|s.Meta()|)
    && w.totalRawBytes == RawTotal(s.recs) <= w.maxDataBytes
  }

  /** Each of the stacks is in order in each of the stores. */
  ghost predicate AllInOrder(stores: seq<Store>, prefix: Text, logs: seq<Stack>) {
    forall st, s :: st in stores && s in logs ==> InOrder(st, prefix, s)
  }

  ghost predicate Inv(run: Run) {
    var w, p := run.w, KeyPrefix(run.w.prefix);
    && run.logs != [] && Distinct(run.logs) && Greedy(run.logs, 0, w.maxDataBytes)
    && (forall s :: s in run.logs ==> s.headerId == s.fileId)
    && AllInOrder(run.seen, p, run.logs) && run.objects in run.seen
    && (forall s :: s in Init(run.logs) ==> Stored(run.objects, p, s))
    && (if w.client then Live(w, Last(run.logs)) else w.closed && Stored(run.objects, p, Last(run.logs)))
  }

  /** A controller's id that names no stack of the run and no object ever seen. */
  ghost predicate FreshId(run: Run, id: u64) {
    && (forall s :: s in run.logs ==> s.fileId != id)
    && forall st, k: Suffix :: st in run.seen ==> Path(KeyPrefix(run.w.prefix), id, k) !in st
  }

  ghost function AfterPut(run: Run, r: Rec, o: Uploads, reply: Option<u64>): (Run, PutResult)
    requires run.logs != []
  {
    var (w, visited, answer) := Putting(run.w, run.objects, r, o, reply);
    var logs :=
      if answer.PutOk? then Accepted(run.logs, r, run.w.maxDataBytes, w.fileStackId, w.fileStackId) else run.logs;
    (Run(w, LastOf(visited, run.objects), run.seen + visited, logs), answer)
  }

  ghost function AfterClose(run: Run, o: Uploads): (Run, bool) {
    var (w, visited, ok) := Closing(run.w, run.objects, o);
    (Run(w, LastOf(visited, run.objects), run.seen + visited, run.logs), ok)
  }

  /** The put would upload, succeed in it, and then get no stack id. */
  predicate Strands(run: Run, r: Rec, o: Uploads, reply: Option<u64>) {
    && !run.w.closed && |r.payload| <= run.w.maxDataBytes < run.w.totalRawBytes + |r.payload|
    && o == ALL_ARRIVED && reply.None?
  }

  // -- what the calls answer, and which objects they touch --

  /** put answers by the first of these that holds: closed, too large, an upload not heard of, no stack id. */
  lemma PutAnswers(w: Writer, objects: Store, r: Rec, o: Uploads, reply: Option<u64>)
    ensures
      var answer := Putting(w, objects, r, o, reply).2;
      var guarded := !w.closed && |r.payload| <= w.maxDataBytes;
      var rotates := guarded && w.totalRawBytes + |r.payload| > w.maxDataBytes;
      && (answer == StackClosed <==> w.closed)
      && (answer == StackFull <==> !w.closed && |r.payload| > w.maxDataBytes)
      && (answer == IoFailed <==> rotates && !(w.client && o == ALL_ARRIVED))
      && (answer == NoStackId <==> rotates && w.client && o == ALL_ARRIVED && reply.None?)
      && (answer.PutOk? <==> guarded && (rotates ==> w.client && o == ALL_ARRIVED && reply.Some?))
  {
    hide Appended, HeaderBuffers, Path;
  }

  /** close is Ok exactly if called again or heard of all three objects, and drops the client only in that case. */
  lemma CloseAnswers(w: Writer, objects: Store, o: Uploads)
    ensures
      var (later, visited, ok) := Closing(w, objects, o);
      && (ok <==> w.closed || (w.client && o == ALL_ARRIVED))
      && (later.client <==> w.client && (w.closed || o != ALL_ARRIVED))
      && later.closed && (w.closed || !w.client ==> visited == [])
  {
    hide Path;
  }

  /** The upload of an object gets under way and does not get lost. */
  predicate Reaches(o: Uploads, k: Suffix) {
    match k
    case Data => o.data != Lost
    case Meta => o.data == Arrived && o.meta != Lost
    case Idx => o.data == Arrived && o.meta == Arrived && o.idx != Lost
  }

  /** An upload leaves each object that reaches the store there in full, and every other as it was. */
  lemma SendingExact(w: Writer, objects: Store, o: Uploads, p: Text)
    ensures
      var (visited, ok) := Sending(w, objects, o);
      && visited != [] && (ok <==> o == ALL_ARRIVED)
      && (forall k :: Reaches(o, k) ==>
            Key(w, k) in Last(visited) && Last(visited)[Key(w, k)] == w.buffers.Of(k))
      && ((forall k :: Reaches(o, k) ==> p != Key(w, k)) ==>
            forall st :: st in visited ==>
              (p in st <==> p in objects) && (p in objects ==> p in st && st[p] == objects[p]))
  {
    hide Path, KeyPrefix;
    PathInjective(KeyPrefix(w.prefix), w.fileStackId, Data, w.fileStackId, Idx);
    PathInjective(KeyPrefix(w.prefix), w.fileStackId, Data, w.fileStackId, Meta);
    PathInjective(KeyPrefix(w.prefix), w.fileStackId, Idx, w.fileStackId, Meta);
    var visited := Sending(w, objects, o).0;
    forall k | Reaches(o, k)
      ensures Key(w, k) in Last(visited) && Last(visited)[Key(w, k)] == w.buffers.Of(k)
    {
      match k
      case Data =>
      case Meta =>
      case Idx =>
    }
    if forall k :: Reaches(o, k) ==> p != Key(w, k) {
      assert Reaches(o, Data) ==> p != Key(w, Data);
      assert Reaches(o, Meta) ==> p != Key(w, Meta);
      assert Reaches(o, Idx) ==> p != Key(w, Idx);
    }
  }

  // -- an upload inside a run --

  lemma SendingKeeps(w: Writer, objects: Store, o: Uploads, s: Stack, t: Stack)
    requires Holding(w, s) && t.fileId != s.fileId && InOrder(objects, KeyPrefix(w.prefix), t)
    ensures forall st :: st in Sending(w, objects, o).0 ==> InOrder(st, KeyPrefix(w.prefix), t)
    ensures Stored(objects, KeyPrefix(w.prefix), t) ==>
      Stored(LastOf(Sending(w, objects, o).0, objects), KeyPrefix(w.prefix), t)
  {
    hide Path, Versions, Sent, KeyPrefix, Stored, Holding;
    var d, m, i :| Versions(objects, KeyPrefix(w.prefix), t, d, m, i);
    SendingAside(w, objects, o, s, t, d, m, i);
    if Stored(objects, KeyPrefix(w.prefix), t) {
      var n := |t.recs|;
      AllThere(objects, KeyPrefix(w.prefix), t);
      SendingAside(w, objects, o, s, t, n, n, n);
      AllThere(LastOf(Sending(w, objects, o).0, objects), KeyPrefix(w.prefix), t);
    }
  }

  /** What an upload of the newest stack leaves of the whole run. */
  lemma UploadKeeps(run: Run, w: Writer, o: Uploads)
    requires run.logs != [] && Distinct(run.logs) && Holding(w, Last(run.logs)) && run.objects in run.seen
    requires AllInOrder(run.seen, KeyPrefix(w.prefix), run.logs)
    requires forall s :: s in Init(run.logs) ==> Stored(run.objects, KeyPrefix(w.prefix), s)
    ensures
      var (visited, ok) := Sending(w, run.objects, o);
      && AllInOrder(run.seen + visited, KeyPrefix(w.prefix), run.logs)
      && (forall s :: s in Init(run.logs) ==> Stored(LastOf(visited, run.objects), KeyPrefix(w.prefix), s))
      && (ok ==> Stored(LastOf(visited, run.objects), KeyPrefix(w.prefix), Last(run.logs)))
      && LastOf(visited, run.objects) in run.seen + visited
  {
    hide Sending, Holding, Stored, InOrder, KeyPrefix;
    var s, n := Last(run.logs), |run.logs| - 1;
    SendingInOrder(w, run.objects, o, s);
    forall t | t in Init(run.logs)
      ensures t in run.logs && t.fileId != s.fileId
      ensures forall st :: st in Sending(w, run.objects, o).0 ==> InOrder(st, KeyPrefix(w.prefix), t)
      ensures Stored(LastOf(Sending(w, run.objects, o).0, run.objects), KeyPrefix(w.prefix), t)
    {
      var j :| 0 <= j < n && Init(run.logs)[j] == t;
      assert run.logs[j] == t;
      SendingKeeps(w, run.objects, o, s, t);
    }
    forall t | t in run.logs
      ensures t == s || t in Init(run.logs)
    {
      var j :| 0 <= j <= n && run.logs[j] == t;
      assert j < n ==> Init(run.logs)[j] == t;
    }
  }

  // -- put and close --

  lemma EmptyLive(w: Writer, id: u64)
    ensures Live(OpenStack(w, Some(id)).value, Stack(id, id, []))
  {
    hide MagicHeader, HeaderLine, DataBytes, MetaBytes, IdxBytes, RawTotal, Full;
    EmptyFull(Stack(id, id, []));
    EmptyFiles(id);
  }

  lemma AppendedLive(w: Writer, s: Stack, r: Rec)
    requires Live(w, s) && w.totalRawBytes + |r.payload| <= w.maxDataBytes
    ensures Live(Appended(w, r).0, s.With(r))
    ensures Appended(w, r).1 == IdAt(s.With(r), |s.recs|)
  {
    hide Full, PrintId, PrintObject, Members, NewDataRecord, EncodeData, EncodeIndex, RecordSize, AsU64, AsU32, Slot,
      SlotOf, SlotSize, Line, MetaOf, EntryOf, IdAt, RawTotal, Stack.Data, Stack.Meta;
    var json, dr := PrintObject(Members(NewMeta(w, r))), NewDataRecord(r.cookie, r.payload);
    BuiltRecords(s, r, json, dr);
    NextOffsets(s, r, json, dr);
    WithSame(s, r);
    DataWith(s, r);
    MetaWith(s, r);
    IndexWith(s, r);
    Pieces(Full(s, Data), EncodeData(dr.header), dr.data, dr.padding);
    Pieces(Full(s, Meta), json, [NEWLINE], []);
  }

  /** Whether the newest stack grows or a fresh one follows it, all stores stay in order. */
  lemma GrownInOrder(stores: seq<Store>, prefix: Text, logs: seq<Stack>, r: Rec)
    requires logs != [] && AllInOrder(stores, prefix, logs)
    ensures AllInOrder(stores, prefix, logs[|logs| - 1 := Last(logs).With(r)])
  {
    hide InOrder;
    var s := Last(logs);
    forall st, t | st in stores && t in logs[|logs| - 1 := s.With(r)]
      ensures InOrder(st, prefix, t)
    {
      assert InOrder(st, prefix, s) by { assert s in logs; }
      if t == s.With(r) {
        WithInOrder(st, prefix, s, r);
      } else {
        assert t in logs;
      }
    }
  }

  lemma WithInOrder(store: Store, prefix: Text, s: Stack, r: Rec)
    requires InOrder(store, prefix, s)
    ensures InOrder(store, prefix, s.With(r))
  {
    hide Path, Full;
    var d, m, i :| Versions(store, prefix, s, d, m, i);
    forall v: nat | v <= |s.recs|
      ensures Upto(s.With(r), v) == Upto(s, v)
    {
      assert s.With(r).recs[..v] == s.recs[..v];
    }
    assert Versions(store, prefix, s.With(r), d, m, i);
  }

  lemma AbsentInOrder(store: Store, prefix: Text, s: Stack)
    requires forall k: Suffix :: Path(prefix, s.fileId, k) !in store
    ensures InOrder(store, prefix, s)
  {
    hide Path;
    assert Versions(store, prefix, s, -1, -1, -1);
  }

  /** A fresh stack is still absent from every store an upload of another visits. */
  lemma SendingSpares(run: Run, w: Writer, o: Uploads, s: Stack, t: Stack)
    requires Holding(w, s) && t.fileId != s.fileId && run.objects in run.seen
    requires forall st, k: Suffix :: st in run.seen ==> Path(KeyPrefix(w.prefix), t.fileId, k) !in st
    ensures forall st :: st in run.seen + Sending(w, run.objects, o).0 ==> InOrder(st, KeyPrefix(w.prefix), t)
  {
    hide Path, Sending, Holding, KeyPrefix;
    forall st | st in run.seen
      ensures InOrder(st, KeyPrefix(w.prefix), t)
    {
      AbsentInOrder(st, KeyPrefix(w.prefix), t);
    }
    SendingKeeps(w, run.objects, o, s, t);
  }

  lemma NewInOrder(stores: seq<Store>, prefix: Text, logs: seq<Stack>, t: Stack)
    requires AllInOrder(stores, prefix, logs)
    requires forall st :: st in stores ==> InOrder(st, prefix, t)
    ensures AllInOrder(stores, prefix, logs + [t])
  {
    hide InOrder;
  }

  /**
   * Close keeps the invariant. When it returns Ok the client has been given up, exactly unless an
   * earlier close failed: then it has done nothing. ClosePublishes says what is published by then.
   */
  lemma CloseKeeps(run: Run, o: Uploads)
    requires Inv(run)
    ensures
      var (later, ok) := AfterClose(run, o);
      && Inv(later) && later.w.closed
      && (ok ==> (!later.w.client <==> !(run.w.closed && run.w.client)))
      && (!ok ==> later.w.client)
      && (run.w.closed ==> ok && later.objects == run.objects)
  {
    hide Distinct, Greedy, AllInOrder, Sending, Full, InOrder, Stored, KeyPrefix;
    if !run.w.closed {
      UploadKeeps(run, run.w.(closed := true), o);
    } else {
      assert run.seen + [] == run.seen;
    }
  }

  // -- what close publishes --

  /** With the idx object whole and in order, everything is there. */
  lemma WholeIndex(store: Store, prefix: Text, s: Stack)
    requires InOrder(store, prefix, s)
    requires Path(prefix, s.fileId, Idx) in store && store[Path(prefix, s.fileId, Idx)] == Full(s, Idx)
    ensures Stored(store, prefix, s)
  {
    hide Path, Full, Upto, Stored;
    var d, m, i :| Versions(store, prefix, s, d, m, i);
    IndexLengths(s, i);
    AllThere(store, prefix, s);
  }

  lemma IndexLengths(s: Stack, v: int)
    requires 0 <= v <= |s.recs| && Full(Upto(s, v), Idx) == Full(s, Idx)
    ensures v == |s.recs|
  {
    hide IdxBytes, DataBytes, MetaBytes;
  }

  lemma IndexOfStored(store: Store, prefix: Text, s: Stack)
    requires Stored(store, prefix, s)
    ensures Path(prefix, s.fileId, Idx) in store && store[Path(prefix, s.fileId, Idx)] == Full(s, Idx)
  {
    hide Path, DataBytes, MetaBytes, IdxBytes;
  }

  /** The idx object goes out only if data and meta were heard to arrive. */
  predicate SendsIndex(o: Uploads) {
    o.data == Arrived && o.meta == Arrived && o.idx != Lost
  }

  lemma SendingIndex(w: Writer, objects: Store, o: Uploads)
    ensures
      var (store, key) := (LastOf(Sending(w, objects, o).0, objects), Key(w, Idx));
      if SendsIndex(o) then key in store && store[key] == w.buffers.idx
      else (key in store <==> key in objects) && (key in store ==> store[key] == objects[key])
  {
    hide Path;
    PathInjective(KeyPrefix(w.prefix), w.fileStackId, Idx, w.fileStackId, Data);
    PathInjective(KeyPrefix(w.prefix), w.fileStackId, Idx, w.fileStackId, Meta);
  }

  lemma SendingVisits(w: Writer, objects: Store, o: Uploads)
    ensures LastOf(Sending(w, objects, o).0, objects) in Sending(w, objects, o).0
  {
    hide Path, Sent;
  }

  /** An upload leaves the newest stack whole in the store if it was, or if its idx object went out. */
  lemma SendingStores(w: Writer, objects: Store, o: Uploads, s: Stack)
    requires Holding(w, s) && InOrder(objects, KeyPrefix(w.prefix), s)
    ensures Stored(LastOf(Sending(w, objects, o).0, objects), KeyPrefix(w.prefix), s) <==>
            Stored(objects, KeyPrefix(w.prefix), s) || SendsIndex(o)
  {
    hide Path, Sending, InOrder, Stored, Full, KeyPrefix;
    var (p, store) := (KeyPrefix(w.prefix), LastOf(Sending(w, objects, o).0, objects));
    SendingVisits(w, objects, o);
    SendingInOrder(w, objects, o, s);
    SendingIndex(w, objects, o);
    if Stored(objects, p, s) {
      IndexOfStored(objects, p, s);
      WholeIndex(store, p, s);
    } else if SendsIndex(o) {
      WholeIndex(store, p, s);
    } else if Stored(store, p, s) {
      IndexOfStored(store, p, s);
      WholeIndex(objects, p, s);
    }
  }

  /**
   * A close and any close after it: the second returns Ok whatever happened, and everything is
   * published then if and only if the newest stack already was, or its idx object went out.
   */
  lemma ClosePublishes(run: Run, o: Uploads, again: Uploads)
    requires Inv(run) && !run.w.closed
    ensures
      var first := AfterClose(run, o).0;
      var (later, ok) := AfterClose(first, again);
      && ok
      && ((forall s :: s in later.logs ==> Stored(later.objects, KeyPrefix(run.w.prefix), s)) <==>
          Stored(run.objects, KeyPrefix(run.w.prefix), Last(run.logs)) || SendsIndex(o))
  {
    hide Inv, Stored, Sending, Live, KeyPrefix;
    OpenLive(run);
    LiveTotal(run.w, Last(run.logs));
    CloseKeeps(run, o);
    CloseKeeps(AfterClose(run, o).0, again);
    NewestInOrder(run);
    SendingStores(run.w.(closed := true), run.objects, o, Last(run.logs));
    OlderStored(AfterClose(run, o).0);
  }

  lemma NewestInOrder(run: Run)
    requires Inv(run)
    ensures run.logs != [] && InOrder(run.objects, KeyPrefix(run.w.prefix), Last(run.logs))
  {
    hide Stored, Live, Greedy, Distinct, InOrder;
    assert Last(run.logs) in run.logs;
  }

  lemma OlderStored(run: Run)
    requires Inv(run)
    ensures run.logs != []
    ensures (forall s :: s in run.logs ==> Stored(run.objects, KeyPrefix(run.w.prefix), s)) <==>
            Stored(run.objects, KeyPrefix(run.w.prefix), Last(run.logs))
  {
    hide Stored, Live, Greedy, Distinct, AllInOrder;
    assert Last(run.logs) in run.logs;
    if Stored(run.objects, KeyPrefix(run.w.prefix), Last(run.logs)) {
      StoredAll(run.objects, KeyPrefix(run.w.prefix), run.logs);
    }
  }

  lemma PutFits(run: Run, r: Rec, o: Uploads, reply: Option<u64>)
    requires Inv(run) && !run.w.closed && run.w.totalRawBytes + |r.payload| <= run.w.maxDataBytes
    ensures
      var (later, answer) := AfterPut(run, r, o, reply);
      && Inv(later) && later.logs == Grown(run.logs, r)
      && answer == PutOk(IdAt(Last(later.logs), |Last(later.logs).recs| - 1))
  {
    hide Inv, Appended, IdAt, Grown, RawTotal, Accepted, Putting, Live;
    PuttingFits(run.w, run.objects, r, o, reply);
    OpenLive(run);
    LiveTotal(run.w, Last(run.logs));
    AppendedLive(run.w, Last(run.logs), r);
    AppendedSame(run.w, r);
    LastGrown(run.logs, r);
    assert run.seen + [] == run.seen;
    InvGrown(run, r);
  }

  lemma PuttingFits(w: Writer, objects: Store, r: Rec, o: Uploads, reply: Option<u64>)
    requires !w.closed && w.totalRawBytes + |r.payload| <= w.maxDataBytes
    ensures Putting(w, objects, r, o, reply) == (Appended(w, r).0, [], PutOk(Appended(w, r).1))
  {
    hide Appended, Uploaded, OpenStack;
  }

  lemma PuttingRotates(w: Writer, objects: Store, r: Rec, o: Uploads, id: u64)
    requires !w.closed && w.client && |r.payload| <= w.maxDataBytes < w.totalRawBytes + |r.payload|
    requires Sending(w, objects, o).1
    ensures
      var v := Appended(OpenStack(w.(buffers := EMPTY_BUFFERS), Some(id)).value, r);
      Putting(w, objects, r, o, Some(id)) == (v.0, Sending(w, objects, o).0, PutOk(v.1))
  {
    hide Appended, Sending;
  }

  function Grown(logs: seq<Stack>, r: Rec): (later: seq<Stack>)
    requires logs != []
    ensures |later| == |logs| && Last(later).recs != []
  {
    logs[|logs| - 1 := Last(logs).With(r)]
  }

  lemma LastGrown(logs: seq<Stack>, r: Rec)
    requires logs != []
    ensures Last(Grown(logs, r)) == Last(logs).With(r) && |Last(logs).With(r).recs| == |Last(logs).recs| + 1
    ensures forall limit, id: u64 :: RawTotal(Last(logs).recs) + |r.payload| <= limit ==>
      Accepted(logs, r, limit, id, id) == Grown(logs, r)
  {
    hide RawTotal;
  }

  lemma OpenLive(run: Run)
    requires Inv(run) && !run.w.closed
    ensures run.w.client && run.logs != [] && Live(run.w, Last(run.logs))
  {
  }

  lemma InvGrown(run: Run, r: Rec)
    requires Inv(run) && !run.w.closed && run.w.totalRawBytes + |r.payload| <= run.w.maxDataBytes
    ensures Inv(Run(Appended(run.w, r).0, run.objects, run.seen, Grown(run.logs, r)))
  {
    hide AllInOrder, Stored, KeyPrefix, Appended, Live, RawTotal, Greedy, Distinct;
    var s := Last(run.logs);
    LiveTotal(run.w, s);
    AppendedLive(run.w, s, r);
    AppendedSame(run.w, r);
    AcceptedKeepsOrder(run.logs, 0, run.w.maxDataBytes, r, 0, 0);
    GrownInOrder(run.seen, KeyPrefix(run.w.prefix), run.logs, r);
    GrownHeaders(run.logs, r);
    assert Init(Grown(run.logs, r)) == Init(run.logs);
  }

  lemma LiveTotal(w: Writer, s: Stack)
    requires Live(w, s)
    ensures w.totalRawBytes == RawTotal(s.recs) && w.fileStackId == s.fileId && Holding(w, s)
  {
  }

  lemma AppendedSame(w: Writer, r: Rec)
    ensures
      var v := Appended(w, r).0;
      && v.prefix == w.prefix && v.maxDataBytes == w.maxDataBytes && v.closed == w.closed && v.client == w.client
      && v.fileStackId == w.fileStackId
  {
  }

  lemma GrownHeaders(logs: seq<Stack>, r: Rec)
    requires logs != [] && Distinct(logs) && forall s :: s in logs ==> s.headerId == s.fileId
    ensures
      var later := logs[|logs| - 1 := Last(logs).With(r)];
      Distinct(later) && forall s :: s in later ==> s.headerId == s.fileId
  {
    var later := logs[|logs| - 1 := Last(logs).With(r)];
    forall s | s in later
      ensures s.headerId == s.fileId
    {
      if s != Last(logs).With(r) {
        assert s in logs;
      } else {
        assert Last(logs) in logs;
      }
    }
  }

  /** A rotation whose upload fails changes no buffer; the same call may be made again. */
  lemma PutRefused(run: Run, r: Rec, o: Uploads, reply: Option<u64>)
    requires Inv(run) && !run.w.closed && |r.payload| <= run.w.maxDataBytes < run.w.totalRawBytes + |r.payload|
    requires o != ALL_ARRIVED
    ensures
      var (later, answer) := AfterPut(run, r, o, reply);
      Inv(later) && later.logs == run.logs && later.w == run.w && answer == IoFailed
  {
    hide Inv, Putting, Sending, Live;
    OpenLive(run);
    PuttingRefuses(run.w, run.objects, r, o, reply);
    InvRefused(run, o);
  }

  lemma PuttingRefuses(w: Writer, objects: Store, r: Rec, o: Uploads, reply: Option<u64>)
    requires !w.closed && w.client && |r.payload| <= w.maxDataBytes < w.totalRawBytes + |r.payload|
    requires o != ALL_ARRIVED
    ensures Putting(w, objects, r, o, reply) == (w, Sending(w, objects, o).0, IoFailed) && !Sending(w, objects, o).1
  {
    hide Appended, OpenStack, Sent, Key;
  }

  lemma InvRefused(run: Run, o: Uploads)
    requires Inv(run) && run.w.client && !Sending(run.w, run.objects, o).1
    ensures
      var visited := Sending(run.w, run.objects, o).0;
      Inv(Run(run.w, LastOf(visited, run.objects), run.seen + visited, run.logs))
  {
    hide AllInOrder, Stored, KeyPrefix, Live, Greedy, Distinct, Sending;
    LiveTotal(run.w, Last(run.logs));
    UploadKeeps(run, run.w, o);
  }

  lemma PutRotates(run: Run, r: Rec, o: Uploads, id: u64)
    requires Inv(run) && !run.w.closed && |r.payload| <= run.w.maxDataBytes < run.w.totalRawBytes + |r.payload|
    requires o == ALL_ARRIVED && FreshId(run, id)
    ensures
      var (later, answer) := AfterPut(run, r, o, Some(id));
      && Inv(later) && later.logs == run.logs + [Stack(id, id, [r])]
      && answer == PutOk(IdAt(Stack(id, id, [r]), 0))
  {
    hide Inv, Appended, IdAt, Sending, OpenStack, RawTotal, FreshId, Live, Putting;
    var u := run.w.(buffers := EMPTY_BUFFERS);
    OpenLive(run);
    LiveTotal(run.w, Last(run.logs));
    SendingAll(run.w, run.objects);
    PuttingRotates(run.w, run.objects, r, o, id);
    EmptyLive(u, id);
    OpenSame(u, id);
    var w := OpenStack(u, Some(id)).value;
    AppendedLive(w, Stack(id, id, []), r);
    AppendedSame(w, r);
    assert Stack(id, id, []).With(r) == Stack(id, id, [r]);
    InvRotated(run, r, id, w, Sending(run.w, run.objects, o).0);
  }

  lemma InvRotated(run: Run, r: Rec, id: u64, w: Writer, visited: seq<Store>)
    requires Inv(run) && run.w.client && |r.payload| <= run.w.maxDataBytes < run.w.totalRawBytes + |r.payload|
    requires FreshId(run, id) && visited == Sending(run.w, run.objects, ALL_ARRIVED).0
    requires w == OpenStack(run.w.(buffers := EMPTY_BUFFERS), Some(id)).value
    ensures
      var logs := run.logs + [Stack(id, id, [r])];
      Inv(Run(Appended(w, r).0, LastOf(visited, run.objects), run.seen + visited, logs))
  {
    hide AllInOrder, InOrder, Stored, KeyPrefix, Appended, Live, Sending, OpenStack, RawTotal, Path, Greedy, Distinct;
    var s, t, p := Last(run.logs), Stack(id, id, [r]), KeyPrefix(run.w.prefix);
    SendingAll(run.w, run.objects);
    LiveTotal(run.w, s);
    UploadKeeps(run, run.w, ALL_ARRIVED);
    assert t.fileId != s.fileId by { assert s in run.logs; }
    SendingSpares(run, run.w, ALL_ARRIVED, s, t);
    NewInOrder(run.seen + visited, p, run.logs, t);
    EmptyLive(run.w.(buffers := EMPTY_BUFFERS), id);
    OpenSame(run.w.(buffers := EMPTY_BUFFERS), id);
    AppendedLive(w, Stack(id, id, []), r);
    AppendedSame(w, r);
    assert Stack(id, id, []).With(r) == t;
    AcceptedKeepsOrder(run.logs, 0, run.w.maxDataBytes, r, id, id);
    StoredAll(LastOf(visited, run.objects), p, run.logs);
    assert Init(run.logs + [t]) == run.logs;
    NewDistinct(run.logs, t);
  }

  lemma NewDistinct(logs: seq<Stack>, t: Stack)
    requires Distinct(logs) && forall s :: s in logs ==> s.fileId != t.fileId
    ensures Distinct(logs + [t])
  {
  }

  lemma SendingAll(w: Writer, objects: Store)
    ensures Sending(w, objects, ALL_ARRIVED).1
  {
    hide Path;
  }

  lemma OpenSame(w: Writer, id: u64)
    ensures
      var next := OpenStack(w, Some(id));
      next.Some? && var v := next.value;
      && v.prefix == w.prefix && v.maxDataBytes == w.maxDataBytes && v.closed == w.closed && v.client == w.client
      && v.fileStackId == id && v.totalRawBytes == 0
  {
  }

  lemma StoredAll(store: Store, prefix: Text, logs: seq<Stack>)
    requires logs != [] && Stored(store, prefix, Last(logs))
    requires forall s :: s in Init(logs) ==> Stored(store, prefix, s)
    ensures forall s :: s in logs ==> Stored(store, prefix, s)
  {
    hide Stored;
    forall s | s in logs
      ensures Stored(store, prefix, s)
    {
      var j :| 0 <= j < |logs| && logs[j] == s;
      assert j < |logs| - 1 ==> Init(logs)[j] == s;
    }
  }

  /**
   * One put, with any uploads failing and any answer: the invariant holds after it unless it
   * strands the writer, and what was accepted is exactly what the answer says.
   */
  lemma PutKeeps(run: Run, r: Rec, o: Uploads, reply: Option<u64>)
    requires Inv(run) && (reply.Some? ==> FreshId(run, reply.value)) && !Strands(run, r, o, reply)
    ensures
      var (later, answer) := AfterPut(run, r, o, reply);
      && Inv(later) && later.w.closed == run.w.closed && Extended(run.logs, later.logs)
      && (answer.PutOk? <==>
            && !run.w.closed && |r.payload| <= run.w.maxDataBytes
            && (run.w.totalRawBytes + |r.payload| > run.w.maxDataBytes ==> o == ALL_ARRIVED))
      && (if answer.PutOk? then Located(later.logs, answer.id, r.payload) else later.logs == run.logs)
  {
    hide Inv, FreshId, Extended, Located, Appended, IdAt, Live;
    OpenThere(run);
    PuttingSame(run.w, run.objects, r, o, reply);
    if run.w.closed || |r.payload| > run.w.maxDataBytes {
      assert run.seen + [] == run.seen;
      SameExtends(run.logs);
    } else if run.w.totalRawBytes + |r.payload| <= run.w.maxDataBytes {
      PutFits(run, r, o, reply);
      GrownExtends(run.logs, r);
    } else if o != ALL_ARRIVED {
      PutRefused(run, r, o, reply);
      SameExtends(run.logs);
    } else {
      PutRotates(run, r, o, reply.value);
      RotatedExtends(run.logs, r, reply.value);
    }
  }

  lemma OpenThere(run: Run)
    requires Inv(run)
    ensures run.logs != []
  {
  }

  lemma PuttingSame(w: Writer, objects: Store, r: Rec, o: Uploads, reply: Option<u64>)
    ensures Putting(w, objects, r, o, reply).0.closed == w.closed
    ensures Putting(w, objects, r, o, reply).0.prefix == w.prefix
  {
    hide Sending;
  }

  lemma GrownExtends(logs: seq<Stack>, r: Rec)
    requires logs != []
    ensures Extended(logs, Grown(logs, r))
    ensures Located(Grown(logs, r), IdAt(Last(Grown(logs, r)), |Last(Grown(logs, r)).recs| - 1), r.payload)
  {
    hide IdAt;
    var later, n := Grown(logs, r), |logs| - 1;
    assert IsIdOf(later[n], |later[n].recs| - 1, IdAt(later[n], |later[n].recs| - 1), r.payload);
  }

  lemma RotatedExtends(logs: seq<Stack>, r: Rec, id: u64)
    ensures Extended(logs, logs + [Stack(id, id, [r])])
    ensures Located(logs + [Stack(id, id, [r])], IdAt(Stack(id, id, [r]), 0), r.payload)
  {
    hide IdAt;
    var later := logs + [Stack(id, id, [r])];
    assert IsIdOf(later[|logs|], 0, IdAt(Stack(id, id, [r]), 0), r.payload);
  }

  // ---- the stranded writer ----

  /** A stranded writer's close overwrites the published data object with nothing. */
  lemma StrandedCloses(run: Run, r: Rec, reply: Option<u64>)
    requires Inv(run) && Strands(run, r, ALL_ARRIVED, reply)
    ensures
      var (later, answer) := AfterPut(run, r, ALL_ARRIVED, reply);
      && answer == NoStackId && later.logs == run.logs
      && var after := AfterClose(later, ALL_ARRIVED).0;
         && Key(run.w, Data) in after.objects && after.objects[Key(run.w, Data)] == []
  {
    hide Inv, Sending, Key, Putting, Closing, Live;
    OpenLive(run);
    var u, objects := run.w.(buffers := EMPTY_BUFFERS), LastOf(Sending(run.w, run.objects, ALL_ARRIVED).0, run.objects);
    SendingAll(run.w, run.objects);
    PuttingStrands(run.w, run.objects, r, reply);
    ClosingOpen(u, objects, ALL_ARRIVED);
    SendingData(u.(closed := true), objects, ALL_ARRIVED);
    SameKey(run.w);
  }

  lemma PuttingStrands(w: Writer, objects: Store, r: Rec, reply: Option<u64>)
    requires !w.closed && w.client && |r.payload| <= w.maxDataBytes < w.totalRawBytes + |r.payload| && reply.None?
    requires Sending(w, objects, ALL_ARRIVED).1
    ensures Putting(w, objects, r, ALL_ARRIVED, reply) ==
            (w.(buffers := EMPTY_BUFFERS), Sending(w, objects, ALL_ARRIVED).0, NoStackId)
  {
    hide Appended, Sending;
  }

  lemma ClosingOpen(w: Writer, objects: Store, o: Uploads)
    requires !w.closed && w.client
    ensures Closing(w, objects, o).1 == Sending(w.(closed := true), objects, o).0
  {
    hide Sending;
  }

  lemma SameKey(w: Writer)
    ensures Key(w.(buffers := EMPTY_BUFFERS, closed := true), Data) == Key(w, Data)
  {
  }

  lemma SendingData(w: Writer, objects: Store, o: Uploads)
    ensures
      var (store, key) := (LastOf(Sending(w, objects, o).0, objects), Key(w, Data));
      if o.data == Lost then (key in store <==> key in objects) && (key in store ==> store[key] == objects[key])
      else key in store && store[key] == w.buffers.data
  {
    hide Path;
    PathInjective(KeyPrefix(w.prefix), w.fileStackId, Data, w.fileStackId, Meta);
    PathInjective(KeyPrefix(w.prefix), w.fileStackId, Data, w.fileStackId, Idx);
  }

  /** A close after any put publishes every stack whole exactly if the put did not strand the writer. */
  lemma RotationNeedsId(run: Run, r: Rec, o: Uploads, reply: Option<u64>)
    requires Inv(run) && !run.w.closed && (reply.Some? ==> FreshId(run, reply.value))
    ensures
      var later := AfterPut(run, r, o, reply).0;
      var after := AfterClose(later, ALL_ARRIVED).0;
      (forall s :: s in after.logs ==> Stored(after.objects, KeyPrefix(run.w.prefix), s)) <==>
      !Strands(run, r, o, reply)
  {
    hide Inv, FreshId, Strands, Stored, Putting, Closing, Extended, Located;
    OpenThere(run);
    PuttingSame(run.w, run.objects, r, o, reply);
    var later := AfterPut(run, r, o, reply).0;
    var after := AfterClose(later, ALL_ARRIVED).0;
    if Strands(run, r, o, reply) {
      OpenLive(run);
      StrandsArrived(run, r, o, reply);
      StrandedCloses(run, r, reply);
      NotStored(run, after.objects);
    } else {
      PutKeeps(run, r, o, reply);
      ClosingAll(later);
      CloseKeeps(later, ALL_ARRIVED);
      ClosedStored(after);
    }
  }

  lemma StrandsArrived(run: Run, r: Rec, o: Uploads, reply: Option<u64>)
    requires Strands(run, r, o, reply)
    ensures o == ALL_ARRIVED
  {
  }

  lemma NotStored(run: Run, store: Store)
    requires run.logs != [] && Live(run.w, Last(run.logs))
    requires Key(run.w, Data) in store && store[Key(run.w, Data)] == []
    ensures Last(run.logs) in run.logs && !Stored(store, KeyPrefix(run.w.prefix), Last(run.logs))
  {
    hide Path, DataBytes, KeyPrefix;
    var s := Last(run.logs);
    StartOfFiles(s);
  }

  lemma ClosingAll(run: Run)
    requires Inv(run)
    ensures AfterClose(run, ALL_ARRIVED).1 && AfterClose(run, ALL_ARRIVED).0.w.prefix == run.w.prefix
    ensures !run.w.closed ==> !AfterClose(run, ALL_ARRIVED).0.w.client
  {
    hide Sending, AllInOrder, Stored, Greedy, Distinct, Live;
    SendingAll(run.w.(closed := true), run.objects);
  }

  lemma ClosedStored(run: Run)
    requires Inv(run) && !run.w.client
    ensures forall s :: s in run.logs ==> Stored(run.objects, KeyPrefix(run.w.prefix), s)
  {
    hide Stored, AllInOrder, Greedy, Distinct;
    StoredAll(run.objects, KeyPrefix(run.w.prefix), run.logs);
  }

  // ---- whole runs ----

  datatype Op = PutOp(r: Rec, o: Uploads, reply: Option<u64>) | CloseOp(o: Uploads)

  ghost function AfterOp(run: Run, op: Op): (Run, Option<Text>)
    requires run.logs != []
  {
    match op
    case PutOp(r, o, reply) =>
      var (later, answer) := AfterPut(run, r, o, reply);
      (later, if answer.PutOk? then Some(answer.id) else None)
    case CloseOp(o) => (AfterClose(run, o).0, None)
  }

  /** Stack ids are new, and no put strands the writer. */
  ghost predicate Clean(run: Run, op: Op) {
    op.PutOp? ==> (op.reply.Some? ==> FreshId(run, op.reply.value)) && !Strands(run, op.r, op.o, op.reply)
  }

  ghost predicate AllClean(run: Run, ops: seq<Op>)
    decreases |ops|
  {
    ops == [] || (Clean(run, ops[0]) && (run.logs != [] ==> AllClean(AfterOp(run, ops[0]).0, ops[1..])))
  }

  ghost function AfterAll(run: Run, ops: seq<Op>): Run
    decreases |ops|
  {
    if ops == [] || run.logs == [] then run else AfterAll(AfterOp(run, ops[0]).0, ops[1..])
  }

  lemma OpKeeps(run: Run, op: Op)
    requires Inv(run) && Clean(run, op)
    ensures run.logs != []
    ensures
      var (later, id) := AfterOp(run, op);
      && Inv(later) && later.w.prefix == run.w.prefix && Extended(run.logs, later.logs) && run.seen <= later.seen
      && (id.Some? ==> op.PutOp? && Located(later.logs, id.value, op.r.payload))
  {
    hide Inv, FreshId, Strands, Stored, Extended, Located, Sending, Appended, Live;
    OpenThere(run);
    match op
    case PutOp(r, o, reply) =>
      PutKeeps(run, r, o, reply);
      PuttingSame(run.w, run.objects, r, o, reply);
    case CloseOp(o) =>
      CloseKeeps(run, o);
      SameExtends(run.logs);
  }

  /**
   * At every step of every run, whatever uploads fail and however often calls are repeated: all
   * stacks in every store seen are in order, and stacks only grow.
   */
  lemma {:induction false} RunKeeps(run: Run, ops: seq<Op>)
    requires Inv(run) && AllClean(run, ops)
    ensures Inv(AfterAll(run, ops)) && AfterAll(run, ops).w.prefix == run.w.prefix
    ensures Extended(run.logs, AfterAll(run, ops).logs) && run.seen <= AfterAll(run, ops).seen
    decreases |ops|
  {
    hide Inv, AfterOp, Clean, Extended;
    OpenThere(run);
    if ops == [] {
      SameExtends(run.logs);
    } else {
      OpKeeps(run, ops[0]);
      var next := AfterOp(run, ops[0]).0;
      RunKeeps(next, ops[1..]);
      ExtendedThrough(run.logs, next.logs, AfterAll(next, ops[1..]).logs);
    }
  }

  /** Every visible index record, in every store of a run, is satisfied by what is visible with it. */
  lemma SeenSatisfied(run: Run, store: Store, s: Stack, k: nat)
    requires Inv(run) && store in run.seen && s in run.logs
    requires Path(KeyPrefix(run.w.prefix), s.fileId, Idx) in store
    requires 16 + 28 * (k + 1) <= |store[Path(KeyPrefix(run.w.prefix), s.fileId, Idx)]|
    ensures k < |s.recs| && Satisfied(store, KeyPrefix(run.w.prefix), s, k)
  {
    hide Path, Stored, Satisfied, InOrder, Greedy, Distinct, Live;
    InOrderSatisfied(store, KeyPrefix(run.w.prefix), s, k);
  }

  /**
   * An id returned anywhere in a run fetches its payload once the client has been given up. The
   * reader needs the writer's prefix with a slash behind it, unless that is empty.
   */
  lemma ReturnedIsPublished(run: Run, op: Op, ops: seq<Op>, checkCrc: bool)
    requires Inv(run) && Clean(run, op) && run.logs != [] && AfterOp(run, op).1.Some?
    requires AllClean(AfterOp(run, op).0, ops)
    requires var last := AfterAll(AfterOp(run, op).0, ops);
      !last.w.client && forall s :: s in last.logs ==> |s.Data()| <= U64
    ensures
      var last := AfterAll(AfterOp(run, op).0, ops);
      var prefix := if run.w.prefix == [] then [] else run.w.prefix + Ascii("/");
      Fetched(last.objects, prefix, AfterOp(run, op).1.value, checkCrc) == Ok(op.r.payload)
      <==> |op.r.payload| < U32
  {
    SlashIs(run.w.prefix);
    hide Inv, Clean, AllClean, AfterOp, AfterAll, Extended, Located, Fetched, Stored, DataBytes, KeyPrefix;
    OpKeeps(run, op);
    var (next, id) := AfterOp(run, op);
    RunKeeps(next, ops);
    var last := AfterAll(next, ops);
    LocatedStays(next.logs, last.logs, id.value, op.r.payload);
    ClosedStored(last);
    LocatedPublished(last.objects, KeyPrefix(run.w.prefix), last.logs, id.value, op.r.payload, checkCrc);
  }

  lemma SlashIs(prefix: Text)
    ensures KeyPrefix(prefix) == if prefix == [] then [] else prefix + Ascii("/")
  {
    assert Ascii("/") == [47];
  }

  lemma LocatedPublished(store: Store, prefix: Text, logs: seq<Stack>, id: Text, payload: seq<byte>, checkCrc: bool)
    requires Located(logs, id, payload)
    requires forall s :: s in logs ==> Stored(store, prefix, s) && |s.Data()| <= U64
    ensures Fetched(store, prefix, id, checkCrc) == Ok(payload) <==> |payload| < U32
  {
    hide Path, SlotOf, DataBytes, MetaBytes, IdxBytes, Fetched, IdAt;
    var j, k :| 0 <= j < |logs| && 0 <= k < |logs[j].recs| && IsIdOf(logs[j], k, id, payload);
    assert logs[j] in logs;
    SlotAt(logs[j].headerId, logs[j].recs, k);
    FetchBack(store, prefix, logs[j], k, checkCrc);
  }

  // ---- from the first call on ----

  function NewWriter(prefix: Text, limit: nat): Writer {
    Writer(prefix, 0, 0, EMPTY_BUFFERS, 4096, 0, 0, limit, false, true)
  }

  /** The run of a writer just opened. */
  function OpenedRun(prefix: Text, limit: nat, id: u64, objects: Store): Run {
    Run(OpenStack(NewWriter(prefix, limit), Some(id)).value, objects, [objects], [Stack(id, id, [])])
  }

  lemma OneInOrder(objects: Store, prefix: Text, s: Stack)
    requires InOrder(objects, prefix, s)
    ensures AllInOrder([objects], prefix, [s])
  {
    hide InOrder;
  }

  lemma OpenedInv(prefix: Text, limit: nat, id: u64, objects: Store)
    requires forall k: Suffix :: Path(KeyPrefix(prefix), id, k) !in objects
    ensures Inv(OpenedRun(prefix, limit, id, objects))
  {
    hide Path, KeyPrefix, Live, Greedy, InOrder, OpenStack, AllInOrder, Stored;
    var s := Stack(id, id, []);
    AbsentInOrder(objects, KeyPrefix(prefix), s);
    OneInOrder(objects, KeyPrefix(prefix), s);
    EmptyLive(NewWriter(prefix, limit), id);
    OpenSame(NewWriter(prefix, limit), id);
    StartsGreedy([], s, limit);
    assert [] + [s] == [s];
    assert Init([s]) == [];
  }

  lemma FetchEmptied(store: Store, prefix: Text, s: Stack, k: nat, checkCrc: bool)
    requires k < |s.recs| && Path(prefix, s.fileId, Data) in store && store[Path(prefix, s.fileId, Data)] == []
    ensures Fetched(store, prefix, IdAt(s, k), checkCrc) == Err(IOError)
  {
    hide FetchAt, PrintId, ParseId, Path, DataOff;
    PrintParse(IndexID(s.fileId, AsU64(DataOff(s.headerId, s.recs, k)), s.recs[k].cookie));
    ShortFetch(AsU64(DataOff(s.headerId, s.recs, k)), s.recs[k].cookie, checkCrc);
  }

  lemma ShortFetch(off: nat, cookie: u32, checkCrc: bool)
    ensures FetchAt([], off, cookie, checkCrc) == Err(IOError)
  {
  }

  /** Every record of the stack was readable between the stranding put and the close, and none is after it. */
  lemma StrandedLoses(run: Run, r: Rec, reply: Option<u64>, k: nat, checkCrc: bool)
    requires Inv(run) && Strands(run, r, ALL_ARRIVED, reply) && run.logs != []
    requires k < |Last(run.logs).recs| && |Last(run.logs).Data()| <= U64 && |Last(run.logs).recs[k].payload| < U32
    ensures
      var (later, id) := (AfterPut(run, r, ALL_ARRIVED, reply).0, IdAt(Last(run.logs), k));
      var after := AfterClose(later, ALL_ARRIVED).0;
      && Fetched(later.objects, KeyPrefix(run.w.prefix), id, checkCrc) == Ok(Last(run.logs).recs[k].payload)
      && Fetched(after.objects, KeyPrefix(run.w.prefix), id, checkCrc) == Err(IOError)
  {
    hide Inv, Live, Stored, Closing, Fetched, IdAt, Path, DataBytes, KeyPrefix, Sending, SlotOf, OpenStack, Appended;
    var s, p := Last(run.logs), KeyPrefix(run.w.prefix);
    OpenLive(run);
    LiveTotal(run.w, s);
    SendingAll(run.w, run.objects);
    StrandedCloses(run, r, reply);
    FetchEmptied(AfterClose(AfterPut(run, r, ALL_ARRIVED, reply).0, ALL_ARRIVED).0.objects, p, s, k, checkCrc);
    UploadedStored(run);
    SlotAt(s.headerId, s.recs, k);
    StoredSlot(AfterPut(run, r, ALL_ARRIVED, reply).0.objects, p, s, k);
    FetchBack(AfterPut(run, r, ALL_ARRIVED, reply).0.objects, p, s, k, checkCrc);
  }

  // -- a stranded writer that goes on --

  lemma StrandedState(run: Run, r: Rec, reply: Option<u64>)
    requires Inv(run) && Strands(run, r, ALL_ARRIVED, reply)
    ensures run.logs != [] && run.w.client && Live(run.w, Last(run.logs))
    ensures
      var visited := Sending(run.w, run.objects, ALL_ARRIVED).0;
      AfterPut(run, r, ALL_ARRIVED, reply) ==
      (Run(run.w.(buffers := EMPTY_BUFFERS), LastOf(visited, run.objects), run.seen + visited, run.logs), NoStackId)
  {
    hide Inv, Sending, Putting, Live;
    OpenLive(run);
    SendingAll(run.w, run.objects);
    PuttingStrands(run.w, run.objects, r, reply);
  }

  /** The id comes from the offsets, the bytes go to the buffers. */
  lemma AppendedEmptied(w: Writer, q: Rec)
    ensures Appended(w.(buffers := EMPTY_BUFFERS), q).1 == Appended(w, q).1
    ensures Appended(w.(buffers := EMPTY_BUFFERS), q).0.buffers.data == SlotOf(q)
  {
    hide PrintId, PrintObject, Members, EncodeData, EncodeIndex, Slot, NewDataRecord;
    var dr := NewDataRecord(q.cookie, q.payload);
    assert [] + EncodeData(dr.header) == EncodeData(dr.header);
  }

  /** No offset a record has is one where a slot at the start of the object would be found. */
  lemma SlotElsewhere(off: nat, q: Rec, checkCrc: bool)
    requires off >= DATA_START
    ensures FetchAt(SlotOf(q), off, q.cookie, checkCrc) != Ok(q.payload)
  {
    hide DecodeData, Slot;
    SlotBounds(|q.payload|);
  }

  lemma FetchMisplaced(store: Store, prefix: Text, s: Stack, q: Rec, checkCrc: bool)
    requires |s.Data()| < U64 && Path(prefix, s.fileId, Data) in store
    requires store[Path(prefix, s.fileId, Data)] == SlotOf(q) || store[Path(prefix, s.fileId, Data)] == s.Data()
    ensures Fetched(store, prefix, IdAt(s.With(q), |s.recs|), checkCrc) != Ok(q.payload)
  {
    hide PrintId, ParseId, Path, FetchAt, DataOff, Stack.Data, SlotOf;
    NewestOffset(s, q);
    DataStarts(s);
    PrintParse(IndexID(s.fileId, AsU64(|s.Data()|), q.cookie));
    SlotElsewhere(|s.Data()|, q, checkCrc);
    PastEnd(s.Data(), q.cookie, checkCrc);
  }

  lemma PastEnd(bytes: seq<byte>, cookie: u32, checkCrc: bool)
    ensures FetchAt(bytes, |bytes|, cookie, checkCrc) == Err(IOError)
  {
  }

  lemma StoredData(store: Store, prefix: Text, s: Stack)
    requires Stored(store, prefix, s)
    ensures Path(prefix, s.fileId, Data) in store && store[Path(prefix, s.fileId, Data)] == s.Data()
  {
    hide Path, DataBytes, MetaBytes, IdxBytes;
  }

  /**
   * A stranded writer still accepts a payload that fits, under the id of the next record of the
   * published stack, but puts its slot at the start of the empty buffer: a close, whichever of its
   * uploads arrive, does not make that id fetch the payload.
   */
  lemma StrandedAccepts(run: Run, r: Rec, reply: Option<u64>, q: Rec, o: Uploads, again: Option<u64>,
                        closing: Uploads, checkCrc: bool)
    requires Inv(run) && Strands(run, r, ALL_ARRIVED, reply) && run.logs != []
    requires run.w.totalRawBytes + |q.payload| <= run.w.maxDataBytes && |Last(run.logs).Data()| < U64
    ensures
      var (s, later) := (Last(run.logs), AfterPut(run, r, ALL_ARRIVED, reply).0);
      && later.logs != [] && var (next, answer) := AfterPut(later, q, o, again);
      && answer == PutOk(IdAt(s.With(q), |s.recs|)) && next.w.buffers.data == SlotOf(q)
      && var after := AfterClose(next, closing).0;
         Fetched(after.objects, KeyPrefix(run.w.prefix), IdAt(s.With(q), |s.recs|), checkCrc) != Ok(q.payload)
  {
    hide Inv, Sending, Putting, Closing, Live, Fetched, IdAt, Path, DataBytes, KeyPrefix, SlotOf, Appended, Accepted;
    var (s, later) := (Last(run.logs), AfterPut(run, r, ALL_ARRIVED, reply).0);
    StrandedState(run, r, reply);
    LiveTotal(run.w, s);
    PuttingFits(later.w, later.objects, q, o, again);
    AppendedLive(run.w, s, q);
    AppendedEmptied(run.w, q);
    AppendedSame(later.w, q);
    var v := Appended(later.w, q).0;
    ClosingOpen(v, later.objects, closing);
    SendingData(v.(closed := true), later.objects, closing);
    UploadedStored(run);
    StoredData(later.objects, KeyPrefix(run.w.prefix), s);
    FetchMisplaced(AfterClose(AfterPut(later, q, o, again).0, closing).0.objects, KeyPrefix(run.w.prefix), s, q,
                   checkCrc);
  }

  /**
   * With a payload that does not fit it publishes the empty objects at once: each record of the
   * published stack is lost, whether or not a stack id comes this time.
   */
  lemma StrandedOverwrites(run: Run, r: Rec, reply: Option<u64>, q: Rec, again: Option<u64>, k: nat, checkCrc: bool)
    requires Inv(run) && Strands(run, r, ALL_ARRIVED, reply) && run.logs != [] && k < |Last(run.logs).recs|
    requires |q.payload| <= run.w.maxDataBytes < run.w.totalRawBytes + |q.payload|
    ensures
      var (s, later) := (Last(run.logs), AfterPut(run, r, ALL_ARRIVED, reply).0);
      && later.logs != [] && var (next, answer) := AfterPut(later, q, ALL_ARRIVED, again);
      && (answer.PutOk? <==> again.Some?)
      && Key(run.w, Data) in next.objects && next.objects[Key(run.w, Data)] == []
      && Fetched(next.objects, KeyPrefix(run.w.prefix), IdAt(s, k), checkCrc) == Err(IOError)
  {
    hide Inv, Sending, Putting, Live, Fetched, IdAt, Path, DataBytes, KeyPrefix, Appended, Accepted, OpenStack;
    var (s, later) := (Last(run.logs), AfterPut(run, r, ALL_ARRIVED, reply).0);
    StrandedState(run, r, reply);
    LiveTotal(run.w, s);
    SendingAll(later.w, later.objects);
    if again.Some? {
      PuttingRotates(later.w, later.objects, q, ALL_ARRIVED, again.value);
    } else {
      PuttingStrands(later.w, later.objects, q, again);
    }
    SendingData(later.w, later.objects, ALL_ARRIVED);
    FetchEmptied(AfterPut(later, q, ALL_ARRIVED, again).0.objects, KeyPrefix(run.w.prefix), s, k, checkCrc);
  }

  lemma UploadedStored(run: Run)
    requires Inv(run) && run.w.client && run.logs != []
    ensures Stored(LastOf(Sending(run.w, run.objects, ALL_ARRIVED).0, run.objects), KeyPrefix(run.w.prefix),
                   Last(run.logs))
  {
    hide Stored, Sending, Greedy, InOrder;
    SendingAll(run.w, run.objects);
    UploadKeeps(run, run.w, ALL_ARRIVED);
  }

  lemma StoredSlot(store: Store, prefix: Text, s: Stack, k: nat)
    requires Stored(store, prefix, s) && k < |s.recs|
    ensures SlotStored(store, prefix, s, k)
  {
    hide Path, SlotOf, DataBytes, MetaBytes, IdxBytes;
    SlotAt(s.headerId, s.recs, k);
  }

  /** It takes two puts of one byte under a limit of one byte, the second without a stack id. */
  lemma StrandedExample()
    ensures
      var r := Rec(0, [7], 0, [], []);
      var run := AfterPut(OpenedRun([], 1, 1, map[]), r, ALL_ARRIVED, None).0;
      Inv(run) && Strands(run, r, ALL_ARRIVED, None)
  {
    hide Inv, AfterPut, OpenStack, Strands;
    OpenedInv([], 1, 1, map[]);
    OpenSame(NewWriter([], 1), 1);
    StrandsNext(OpenedRun([], 1, 1, map[]), Rec(0, [7], 0, [], []));
  }

  lemma StrandsNext(run: Run, r: Rec)
    requires Inv(run) && !run.w.closed && |r.payload| > 0
    requires run.w.totalRawBytes + |r.payload| == run.w.maxDataBytes && run.logs != []
    ensures
      var next := AfterPut(run, r, ALL_ARRIVED, None).0;
      Inv(next) && Strands(next, r, ALL_ARRIVED, None)
  {
    hide Inv, Appended, Putting;
    PuttingFits(run.w, run.objects, r, ALL_ARRIVED, None);
    PutFits(run, r, ALL_ARRIVED, None);
    AppendedTotal(run.w, r);
    AppendedSame(run.w, r);
  }

  lemma AppendedTotal(w: Writer, r: Rec)
    ensures Appended(w, r).0.totalRawBytes == w.totalRawBytes + |r.payload|
  {
  }

  /** A close that fails and a close that returns Ok, and nothing published. */
  lemma CloseTwiceExample()
    ensures
      var (run, first) := AfterClose(OpenedRun([], 1, 1, map[]), Uploads(Lost, Lost, Lost));
      var (later, second) := AfterClose(run, ALL_ARRIVED);
      !first && second && later.objects == map[]
  {
    hide Path, HeaderBuffers, HeaderLine;
    OpenSame(NewWriter([], 1), 1);
  }
}
