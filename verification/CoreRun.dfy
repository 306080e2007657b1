/** Whole runs of the core writer: what any sequence of puts and closes leaves to be read. */
module CoreRun {
  import opened Bytes
  import opened Crash
  import opened CoreWriter
  import opened IndexId
  import opened LocalRun
  import opened Paths
  import opened ReadBack
  import opened Reader
  import opened StackLog

  /** One call: a put with its arguments, its faults and the controller's answer, or a close. */
  datatype Call =
    | PutCall(data: seq<byte>, filename: Text, meta: Option<seq<byte>>, cookie: u32, now: u64, closing: Closing,
              reply: Option<u64>, opening: Opening, faults: Faults)
    | CloseCall(closing: Closing)

  /** The controller answers with ids that are new, and never with one twice. */
  ghost predicate NewIds(logs: seq<Stack>, calls: seq<Call>) {
    && (forall i, s :: 0 <= i < |calls| && s in logs ==> !Gives(calls[i], s.fileId))
    && (forall i, j, id: u64 :: 0 <= i < j < |calls| && Gives(calls[i], id) ==> !Gives(calls[j], id))
  }

  predicate Gives(call: Call, id: u64) {
    call.PutCall? && call.reply == Some(id)
  }

  /** An accepted put's id names its payload in some stack. */
  ghost predicate Named(logs: seq<Stack>, call: Call, answer: Option<Text>) {
    answer.Some? ==> call.PutCall? && Located(logs, answer.value, call.data)
  }

  /** An id names its payload in stack j of the run. */
  ghost predicate InStack(s: Stack, id: Text, payload: seq<byte>) {
    exists k :: 0 <= k < |s.recs| && IsIdOf(s, k, id, payload)
  }

  lemma LocatedIn(logs: seq<Stack>, id: Text, payload: seq<byte>)
    requires Located(logs, id, payload)
    ensures exists j :: 0 <= j < |logs| && InStack(logs[j], id, payload)
  {
    hide IsIdOf;
    var j, k :| 0 <= j < |logs| && 0 <= k < |logs[j].recs| && IsIdOf(logs[j], k, id, payload);
    assert InStack(logs[j], id, payload);
  }

  /** An id in a stack that ended closed fetches its payload. */
  lemma ClosedFetches(w: BytestackOpendalWriter, j: nat, id: Text, payload: seq<byte>, checkCrc: bool)
    requires w.Valid() && j < |w.logs| == |w.fates| && w.fates[j] == Closed && |w.logs[j].Data()| <= U64
    requires InStack(w.logs[j], id, payload)
    ensures Fetched(Visible(w.op.objects), w.prefix, id, checkCrc) == Ok(payload) <==> |payload| < U32
  {
    hide Stored, Fetched, IdAt, DataBytes, BytestackOpendalWriter.Valid;
    ToldHere(w, j);
    ToldStored(w.op.objects, w.prefix, w.logs[j]);
    StoredFetches(Visible(w.op.objects), w.prefix, w.logs[j], id, payload, checkCrc);
  }

  lemma StoredFetches(store: Store, prefix: Text, s: Stack, id: Text, payload: seq<byte>, checkCrc: bool)
    requires Stored(store, prefix, s) && |s.Data()| <= U64 && InStack(s, id, payload)
    ensures Fetched(store, prefix, id, checkCrc) == Ok(payload) <==> |payload| < U32
  {
    hide Fetched, IdAt, DataBytes, MetaBytes, IdxBytes, SlotOf;
    var k :| 0 <= k < |s.recs| && IsIdOf(s, k, id, payload);
    SlotAt(s.headerId, s.recs, k);
    FetchBack(store, prefix, s, k, checkCrc);
  }

  /**
   * Whatever became of its stack, an id fetches its payload from the finished objects if and only
   * if the stack's data object was finished, and the payload is under 2^32 bytes.
   */
  lemma FinishedFetches(w: BytestackOpendalWriter, j: nat, id: Text, payload: seq<byte>, checkCrc: bool)
    requires w.Valid() && j < |w.logs| && |w.logs[j].Data()| <= U64
    requires InStack(w.logs[j], id, payload)
    ensures Fetched(Finished(w.op.objects), w.prefix, id, checkCrc) == Ok(payload) <==>
            DataFinished(w.op.objects, w.prefix, w.logs[j]) && |payload| < U32
    ensures |w.fates| == |w.logs| && (w.fates[j] == Closed ==> DataFinished(w.op.objects, w.prefix, w.logs[j]))
  {
    hide Fetched, IdAt, DataBytes, BytestackOpendalWriter.Valid, Finished, DataFinished, InStack;
    ToldHere(w, j);
    ToldData(w.op.objects, w.prefix, w.logs[j], w.fates[j]);
    PrefixFetches(w.op.objects, w.prefix, w.logs[j], id, payload, checkCrc);
  }

  lemma ToldData(objects: Objects, prefix: Text, s: Stack, fate: Fate)
    requires Told(objects, prefix, s, fate)
    ensures
      var o := Lookup(objects, Path(prefix, s.fileId, Data));
      o.Some? && s.Data() <= o.value.bytes && (fate == Closed ==> DataFinished(objects, prefix, s))
  {
    hide Path, DataBytes, MetaBytes, IdxBytes, RawTotal;
    assert ToldOf(Lookup(objects, Path(prefix, s.fileId, Data)), Full(s, Data), fate);
  }

  lemma PrefixFetches(objects: Objects, prefix: Text, s: Stack, id: Text, payload: seq<byte>, checkCrc: bool)
    requires |s.Data()| <= U64 && InStack(s, id, payload)
    requires
      var o := Lookup(objects, Path(prefix, s.fileId, Data));
      o.Some? && s.Data() <= o.value.bytes
    ensures Fetched(Finished(objects), prefix, id, checkCrc) == Ok(payload) <==>
            DataFinished(objects, prefix, s) && |payload| < U32
  {
    hide Fetched, IdAt, DataBytes, MetaBytes, IdxBytes, SlotOf, Path;
    var k :| 0 <= k < |s.recs| && IsIdOf(s, k, id, payload);
    SlotAt(s.headerId, s.recs, k);
    if DataFinished(objects, prefix, s) {
      var bytes := objects[Path(prefix, s.fileId, Data)].bytes;
      SliceOfPrefix(s.Data(), bytes, DataOff(s.headerId, s.recs, k), DataOff(s.headerId, s.recs, k + 1));
      FetchBack(Finished(objects), prefix, s, k, checkCrc);
    } else {
      FetchMissing(Finished(objects), prefix, s, k, checkCrc);
    }
  }

  lemma FetchMissing(store: Store, prefix: Text, s: Stack, k: nat, checkCrc: bool)
    requires k < |s.recs| && Path(prefix, s.fileId, Data) !in store
    ensures Fetched(store, prefix, IdAt(s, k), checkCrc) == Err(IOError)
  {
    hide FetchAt, PrintId, ParseId, Path, DataOff;
    PrintParse(IndexID(s.fileId, AsU64(DataOff(s.headerId, s.recs, k)), s.recs[k].cookie));
  }

  /** No pending answer of the controller names a stack that is there. */
  ghost predicate StillNew(logs: seq<Stack>, calls: seq<Call>, n: nat)
    requires n <= |calls|
  {
    forall i, s :: n <= i < |calls| && s in logs ==> !Gives(calls[i], s.fileId)
  }

  lemma StaysNew(logs: seq<Stack>, later: seq<Stack>, calls: seq<Call>, n: nat)
    requires n < |calls| && NewIds([], calls) && StillNew(logs, calls, n) && Extended(logs, later)
    requires |later| <= |logs| + 1
    requires |later| == |logs| + 1 ==> Gives(calls[n], Last(later).fileId)
    ensures StillNew(later, calls, n + 1)
  {
    forall i, s | n + 1 <= i < |calls| && s in later
      ensures !Gives(calls[i], s.fileId)
    {
      var j :| 0 <= j < |later| && later[j] == s;
      if j < |logs| {
        assert Extends(logs[j], later[j]);
        assert logs[j] in logs;
      }
    }
  }

  lemma NamedStays(logs: seq<Stack>, later: seq<Stack>, call: Call, answer: Option<Text>)
    requires Named(logs, call, answer) && Extended(logs, later)
    ensures Named(later, call, answer)
  {
    hide Extended, Located;
    if answer.Some? {
      LocatedStays(logs, later, answer.value, call.data);
    }
  }

  lemma NewlyNamed(logs: seq<Stack>, later: seq<Stack>, call: Call, id: Text)
    requires call.PutCall? && later != [] && Last(later).recs != []
    requires Last(Last(later).recs).payload == call.data && id == IdAt(Last(later), |Last(later).recs| - 1)
    ensures Named(later, call, Some(id))
  {
    hide IdAt;
    assert IsIdOf(later[|later| - 1], |Last(later).recs| - 1, id, call.data);
  }

  lemma FailStopExtends(a: Objects, l: seq<Stack>, t: seq<Fate>, b: Objects, m: seq<Stack>, u: seq<Fate>, prefix: Text)
    requires FailStop(a, l, t, b, m, u, prefix)
    ensures Extended(l, m)
  {
  }

  /** All that decides which calls are answered: the raw bytes of the stack held, and the lock. */
  datatype Gauge = Gauge(held: Option<nat>, poisoned: bool)

  function GaugeOf(w: BytestackOpendalWriter): Gauge
    reads w
  {
    Gauge(if w.inner.Some? then Some(w.totalSize) else None, w.poisoned)
  }

  /** Nothing fails but, perhaps, the writes of the record: a new stack is opened where one is needed. */
  predicate Opens(call: Call)
    requires call.PutCall?
  {
    call.reply.Some? && call.opening == Opening.Opening(true, true, true, None, None, None)
  }

  predicate Faultless(f: Faults) {
    f.index.None? && f.meta.None? && f.header.None? && f.payload.None? && f.padding.None?
  }

  /** One call on the gauge alone, with room for 5 GiB, and whether it is a put that answers. */
  function Gauged(g: Gauge, call: Call): (Gauge, bool) {
    if g.poisoned then (g, false)
    else if call.CloseCall? then (g.(held := None), false)
    else if g.held.Some? && g.held.value + |call.data| <= 0x1_4000_0000 then
      if Faultless(call.faults) then (g.(held := Some(g.held.value + |call.data|)), true)
      else (g.(held := None), false)
    else if g.held.Some? && call.closing != Closing.Closing(true, true, true) then (g.(held := None), false)
    else if !Opens(call) then (Gauge(None, call.reply.Some?), false)
    else if Faultless(call.faults) then (g.(held := Some(|call.data|)), true)
    else (g.(held := None), false)
  }

  function GaugeAfter(g: Gauge, calls: seq<Call>): Gauge {
    if calls == [] then g else Gauged(GaugeAfter(g, Init(calls)), Last(calls)).0
  }

  lemma NoCalls(g: Gauge)
    ensures GaugeAfter(g, []) == g
  {
  }

  lemma GaugeNext(g: Gauge, calls: seq<Call>, n: nat)
    requires n < |calls|
    ensures GaugeAfter(g, calls[..n + 1]) == Gauged(GaugeAfter(g, calls[..n]), calls[n]).0
  {
    hide Gauged;
    assert Init(calls[..n + 1]) == calls[..n];
  }

  method Perform(w: BytestackOpendalWriter, call: Call) returns (answer: Option<Text>)
    requires w.Valid() && forall s :: s in w.logs ==> !Gives(call, s.fileId)
    modifies w, w.op, if w.inner.Some? then {w.inner.value} else {}
    ensures w.Valid() && Named(w.logs, call, answer)
    ensures FailStop(old(w.op.objects), old(w.logs), old(w.fates), w.op.objects, w.logs, w.fates, w.prefix)
    ensures w.inner.Some? ==> w.inner == old(w.inner) || fresh(w.inner.value)
    ensures |w.logs| <= |old(w.logs)| + 1
    ensures |w.logs| == |old(w.logs)| + 1 ==> Gives(call, Last(w.logs).fileId)
    ensures (GaugeOf(w), answer.Some?) == Gauged(old(GaugeOf(w)), call)
  {
    hide Books, BytestackOpendalWriter.Ready, FailStop, Located, IdAt, RawTotal, Aside, LeftBy, HeadsThere,
      DataFinished, BytestackOpendalWriter.Touches, BytestackOpendalWriter.Settles;
    answer := None;
    match call
    case PutCall(data, filename, meta, cookie, now, closing, reply, opening, faults) =>
      var r := w.Put(data, filename, meta, cookie, now, closing, reply, opening, faults);
      if r.Accepted? {
        NewlyNamed(old(w.logs), w.logs, call, r.id);
        answer := Some(r.id);
      }
    case CloseCall(closing) =>
      var _ := w.Close(closing);
  }

  /**
   * Any sequence of puts and closes, with any faults: the gauge says which calls answer. A stack
   * once closed or given up never changes, and every id returned names its payload. Where the id's
   * stack ended closed, it fetches exactly its payload, if under 2^32 bytes; from the finished
   * objects it fetches it exactly if the data object of its stack, closed or given up, was finished.
   */
  method PerformAll(w: BytestackOpendalWriter, calls: seq<Call>) returns (answers: seq<Option<Text>>)
    requires w.Valid() && NewIds(w.logs, calls)
    modifies w, w.op, if w.inner.Some? then {w.inner.value} else {}
    ensures w.Valid() && |answers| == |calls|
    ensures GaugeOf(w) == GaugeAfter(old(GaugeOf(w)), calls)
    ensures forall i :: 0 <= i < |calls| ==>
      (answers[i].Some? <==> Gauged(GaugeAfter(old(GaugeOf(w)), calls[..i]), calls[i]).1)
    ensures FailStop(old(w.op.objects), old(w.logs), old(w.fates), w.op.objects, w.logs, w.fates, w.prefix)
    ensures forall i :: 0 <= i < |calls| && answers[i].Some? ==>
      calls[i].PutCall? && exists j :: 0 <= j < |w.logs| && InStack(w.logs[j], answers[i].value, calls[i].data)
    ensures forall i, j, checkCrc ::
      0 <= i < |calls| && answers[i].Some? && 0 <= j < |w.logs| == |w.fates| && w.fates[j] == Closed &&
      |w.logs[j].Data()| <= U64 && calls[i].PutCall? && InStack(w.logs[j], answers[i].value, calls[i].data) ==>
        (Fetched(Visible(w.op.objects), w.prefix, answers[i].value, checkCrc) == Ok(calls[i].data) <==>
         |calls[i].data| < U32)
    ensures forall i, j, checkCrc ::
      0 <= i < |calls| && answers[i].Some? && 0 <= j < |w.logs| &&
      |w.logs[j].Data()| <= U64 && calls[i].PutCall? && InStack(w.logs[j], answers[i].value, calls[i].data) ==>
        (Fetched(Finished(w.op.objects), w.prefix, answers[i].value, checkCrc) == Ok(calls[i].data) <==>
         DataFinished(w.op.objects, w.prefix, w.logs[j]) && |calls[i].data| < U32)
  {
    hide BytestackOpendalWriter.Valid, FailStop, Located, InStack, Fetched, DataBytes, Extended, NewIds, StillNew,
      Finished, DataFinished, Visible, Gauged, GaugeAfter, GaugeOf, Named;
    answers := [];
    ghost var a, l, t, g := w.op.objects, w.logs, w.fates, GaugeOf(w);
    StartNew(l, calls);
    assert calls[..0] == [] && GaugeAfter(g, []) == g by { NoCalls(g); }
    StartFailStop(w);
    while |answers| < |calls|
      invariant |answers| <= |calls| && w.Valid() && StillNew(w.logs, calls, |answers|)
      invariant w.inner.Some? ==> w.inner == old(w.inner) || fresh(w.inner.value)
      invariant GaugeOf(w) == GaugeAfter(g, calls[..|answers|])
      invariant forall i :: 0 <= i < |answers| ==> (answers[i].Some? <==> Gauged(GaugeAfter(g, calls[..i]), calls[i]).1)
      invariant FailStop(a, l, t, w.op.objects, w.logs, w.fates, w.prefix)
      invariant forall i :: 0 <= i < |answers| ==> Named(w.logs, calls[i], answers[i])
    {
      var n := |answers|;
      ghost var b, m, u := w.op.objects, w.logs, w.fates;
      NextNew(m, calls, n);
      var answer := Perform(w, calls[n]);
      FailStopExtends(b, m, u, w.op.objects, w.logs, w.fates, w.prefix);
      FailStopThrough(a, l, t, b, m, u, w.op.objects, w.logs, w.fates, w.prefix);
      StaysNew(m, w.logs, calls, n);
      GaugeNext(g, calls, n);
      forall i | 0 <= i < n
        ensures Named(w.logs, calls[i], answers[i])
      {
        NamedStays(m, w.logs, calls[i], answers[i]);
      }
      answers := answers + [answer];
    }
    assert calls[..|calls|] == calls;
    AllNamed(w, calls, answers);
  }

  lemma StartNew(logs: seq<Stack>, calls: seq<Call>)
    requires NewIds(logs, calls)
    ensures NewIds([], calls) && StillNew(logs, calls, 0)
  {
  }

  lemma NextNew(logs: seq<Stack>, calls: seq<Call>, n: nat)
    requires n < |calls| && StillNew(logs, calls, n)
    ensures forall s :: s in logs ==> !Gives(calls[n], s.fileId)
  {
  }

  lemma StartFailStop(w: BytestackOpendalWriter)
    requires w.Valid()
    ensures FailStop(w.op.objects, w.logs, w.fates, w.op.objects, w.logs, w.fates, w.prefix)
  {
    hide Books, BytestackOpendalWriter.Ready, FailStop;
    NothingChanged(w.op.objects, w.logs, w.fates, w.prefix);
  }

  lemma AllNamed(w: BytestackOpendalWriter, calls: seq<Call>, answers: seq<Option<Text>>)
    requires w.Valid() && |answers| == |calls|
    requires forall i :: 0 <= i < |answers| ==> Named(w.logs, calls[i], answers[i])
    ensures forall i :: 0 <= i < |calls| && answers[i].Some? ==>
      calls[i].PutCall? && exists j :: 0 <= j < |w.logs| && InStack(w.logs[j], answers[i].value, calls[i].data)
    ensures forall i, j, checkCrc ::
      0 <= i < |calls| && answers[i].Some? && 0 <= j < |w.logs| == |w.fates| && w.fates[j] == Closed &&
      |w.logs[j].Data()| <= U64 && calls[i].PutCall? && InStack(w.logs[j], answers[i].value, calls[i].data) ==>
        (Fetched(Visible(w.op.objects), w.prefix, answers[i].value, checkCrc) == Ok(calls[i].data) <==>
         |calls[i].data| < U32)
    ensures forall i, j, checkCrc ::
      0 <= i < |calls| && answers[i].Some? && 0 <= j < |w.logs| &&
      |w.logs[j].Data()| <= U64 && calls[i].PutCall? && InStack(w.logs[j], answers[i].value, calls[i].data) ==>
        (Fetched(Finished(w.op.objects), w.prefix, answers[i].value, checkCrc) == Ok(calls[i].data) <==>
         DataFinished(w.op.objects, w.prefix, w.logs[j]) && |calls[i].data| < U32)
  {
    hide BytestackOpendalWriter.Valid, Located, InStack, Fetched, DataBytes, Finished, DataFinished, Visible;
    forall i | 0 <= i < |calls| && answers[i].Some?
      ensures calls[i].PutCall? && exists j :: 0 <= j < |w.logs| && InStack(w.logs[j], answers[i].value, calls[i].data)
    {
      assert Named(w.logs, calls[i], answers[i]);
      LocatedIn(w.logs, answers[i].value, calls[i].data);
    }
    forall i, j, checkCrc | 0 <= i < |calls| && answers[i].Some? && 0 <= j < |w.logs| == |w.fates| &&
        w.fates[j] == Closed && |w.logs[j].Data()| <= U64 && calls[i].PutCall? &&
        InStack(w.logs[j], answers[i].value, calls[i].data)
      ensures Fetched(Visible(w.op.objects), w.prefix, answers[i].value, checkCrc) == Ok(calls[i].data) <==>
              |calls[i].data| < U32
    {
      ClosedFetches(w, j, answers[i].value, calls[i].data, checkCrc);
    }
    forall i, j, checkCrc | 0 <= i < |calls| && answers[i].Some? && 0 <= j < |w.logs| &&
        |w.logs[j].Data()| <= U64 && calls[i].PutCall? && InStack(w.logs[j], answers[i].value, calls[i].data)
      ensures Fetched(Finished(w.op.objects), w.prefix, answers[i].value, checkCrc) == Ok(calls[i].data) <==>
              DataFinished(w.op.objects, w.prefix, w.logs[j]) && |calls[i].data| < U32
    {
      FinishedFetches(w, j, answers[i].value, calls[i].data, checkCrc);
    }
  }
}
