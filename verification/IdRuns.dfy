/** Runs of the S3 writer as runs of the machine whose ids never repeat. */
module IdRuns {
  import opened Bytes
  import opened ReadBack
  import opened S3Published
  import opened S3Writer
  import opened StackLog
  import Ids = StackIds
  import Writers = LocalWriter

  /** What one call is to the machine: nothing, unless it is a put that returns an id. */
  ghost function StepsFor(n: nat, run: Run, op: Op): seq<Ids.Step>
    requires run.logs != []
  {
    if op.PutOp? && AfterOp(run, op).1.Some? then Ids.StepsOf(n, run.logs, op.r, run.w.maxDataBytes) else []
  }

  /** A put that returns an id and had to open a stack for it. */
  ghost predicate Rotates(run: Run, op: Op)
    requires run.logs != []
  {
    op.PutOp? && AfterOp(run, op).1.Some? && RawTotal(Last(run.logs).recs) + |op.r.payload| > run.w.maxDataBytes
  }

  /** A call that opens a stack gets the counter's answer. */
  ghost predicate Served(w: Ids.World, run: Run, op: Op)
    requires run.logs != []
  {
    Rotates(run, op) ==> op.reply == Some(w.counter)
  }

  lemma AcceptedPut(run: Run, r: Rec, o: Uploads, reply: Option<u64>)
    requires Inv(run) && (reply.Some? ==> FreshId(run, reply.value)) && !Strands(run, r, o, reply) && run.logs != []
    requires AfterPut(run, r, o, reply).1.PutOk?
    ensures IsAccepted(run, r, reply, AfterPut(run, r, o, reply).0, AfterPut(run, r, o, reply).1)
  {
    hide Inv, FreshId, IdAt, Live, RawTotal, AfterPut, Strands, Writers.Accepted, S3Published.Grown;
    AcceptedLogs(run, r, o, reply);
    AcceptedOpen(run, r, o, reply);
    OpenLive(run);
    LiveTotal(run.w, Last(run.logs));
    if run.w.totalRawBytes + |r.payload| <= run.w.maxDataBytes {
      PutFits(run, r, o, reply);
    } else {
      NotStranded(run, r, o, reply);
      PutRotates(run, r, o, reply.value);
      RotatedId(run, r, o, reply.value);
    }
  }

  /** What every accepted put looks like: the stacks as Accepted, the id that of the new record. */
  ghost predicate IsAccepted(run: Run, r: Rec, reply: Option<u64>, later: Run, answer: Writers.PutResult)
    requires run.logs != [] && answer.PutOk?
  {
    && later.logs == Writers.Accepted(run.logs, r, run.w.maxDataBytes, later.w.fileStackId, later.w.fileStackId)
    && later.logs != [] && Last(later.logs).recs != []
    && answer.id == IdAt(Last(later.logs), |Last(later.logs).recs| - 1)
    && (RawTotal(Last(run.logs).recs) + |r.payload| > run.w.maxDataBytes ==> reply == Some(later.w.fileStackId))
  }

  lemma AcceptedLogs(run: Run, r: Rec, o: Uploads, reply: Option<u64>)
    requires run.logs != [] && AfterPut(run, r, o, reply).1.PutOk?
    ensures
      var later := AfterPut(run, r, o, reply).0;
      later.logs == Writers.Accepted(run.logs, r, run.w.maxDataBytes, later.w.fileStackId, later.w.fileStackId)
  {
    hide Putting, Writers.Accepted;
  }

  lemma AcceptedOpen(run: Run, r: Rec, o: Uploads, reply: Option<u64>)
    requires Inv(run) && (reply.Some? ==> FreshId(run, reply.value)) && !Strands(run, r, o, reply) && run.logs != []
    requires AfterPut(run, r, o, reply).1.PutOk?
    ensures !run.w.closed && |r.payload| <= run.w.maxDataBytes
    ensures run.w.totalRawBytes + |r.payload| > run.w.maxDataBytes ==> o == ALL_ARRIVED
  {
    hide Inv, FreshId, Strands, AfterPut;
    PutKeeps(run, r, o, reply);
  }

  lemma NotStranded(run: Run, r: Rec, o: Uploads, reply: Option<u64>)
    requires !run.w.closed && |r.payload| <= run.w.maxDataBytes < run.w.totalRawBytes + |r.payload|
    requires o == ALL_ARRIVED && !Strands(run, r, o, reply)
    ensures reply.Some?
  {
  }

  lemma RotatedId(run: Run, r: Rec, o: Uploads, id: u64)
    requires !run.w.closed && run.w.client && |r.payload| <= run.w.maxDataBytes < run.w.totalRawBytes + |r.payload|
    requires o == ALL_ARRIVED
    ensures run.logs != [] ==> AfterPut(run, r, o, Some(id)).0.w.fileStackId == id
  {
    hide Appended, Sending, OpenStack;
    var u := run.w.(buffers := EMPTY_BUFFERS);
    SendingAll(run.w, run.objects);
    PuttingRotates(run.w, run.objects, r, o, id);
    OpenSame(u, id);
    AppendedSame(OpenStack(u, Some(id)).value, r);
  }

  /** One call of the writer is a run of the machine that grants exactly the id it returns. */
  lemma OpSimulated(w: Ids.World, n: nat, run: Run, op: Op)
    requires Inv(run) && run.logs != [] && Clean(run, op) && Ids.Follows(w, n, run.logs) && Served(w, run, op)
    ensures
      var (next, later, id) := (Ids.Run(w, StepsFor(n, run, op)), AfterOp(run, op).0, AfterOp(run, op).1);
      && later.logs != [] && Ids.Follows(next, n, later.logs)
      && w.grants <= next.grants && |next.grants| == |w.grants| + (if id.Some? then 1 else 0)
      && (id.Some? ==> Ids.TextOf(next.grants[|w.grants|]) == id.value)
      && Ids.OnlyMoves(w, next, n) && next.counter == w.counter + if Rotates(run, op) then 1 else 0
  {
    hide Inv, FreshId, Strands, AfterPut, AfterClose, Ids.Follows, Ids.StepsOf, Ids.TextOf, Ids.Run, Writers.Accepted,
      RawTotal, IdAt;
    if op.PutOp? && AfterOp(run, op).1.Some? {
      AcceptedPut(run, op.r, op.o, op.reply);
      var id := AfterPut(run, op.r, op.o, op.reply).0.w.fileStackId;
      Ids.PutSimulated(w, n, run.logs, op.r, run.w.maxDataBytes, id, id);
    } else {
      SameLogs(run, op);
      RunNone(w);
    }
  }

  lemma RunNone(w: Ids.World)
    ensures Ids.Run(w, []) == w
  {
  }

  lemma SameLogs(run: Run, op: Op)
    requires run.logs != [] && !(op.PutOp? && AfterOp(run, op).1.Some?)
    ensures AfterOp(run, op).0.logs == run.logs && AfterOp(run, op).1.None?
  {
    hide Putting, Closing;
  }

  // ---- whole runs ----

  /** The machine after a run of calls. */
  ghost function WorldAfter(w: Ids.World, n: nat, run: Run, ops: seq<Op>): Ids.World
    decreases |ops|
  {
    if ops == [] || run.logs == [] then w
    else WorldAfter(Ids.Run(w, StepsFor(n, run, ops[0])), n, AfterOp(run, ops[0]).0, ops[1..])
  }

  ghost predicate AllServed(w: Ids.World, n: nat, run: Run, ops: seq<Op>)
    decreases |ops|
  {
    ops == [] || run.logs == [] ||
    (Served(w, run, ops[0]) &&
     AllServed(Ids.Run(w, StepsFor(n, run, ops[0])), n, AfterOp(run, ops[0]).0, ops[1..]))
  }

  /** The ids returned, in order. */
  ghost function Returned(run: Run, ops: seq<Op>): seq<Text>
    decreases |ops|
  {
    if ops == [] || run.logs == [] then [] else
      (if AfterOp(run, ops[0]).1.Some? then [AfterOp(run, ops[0]).1.value] else []) +
      Returned(AfterOp(run, ops[0]).0, ops[1..])
  }

  function Texts(grants: seq<Ids.Grant>): seq<Text> {
    seq(|grants|, i requires 0 <= i < |grants| => Ids.TextOf(grants[i]))
  }

  /** The machine that follows a run of the writer reaches a world whose new grants are the returned ids. */
  lemma {:induction false} RunSimulated(w: Ids.World, n: nat, run: Run, ops: seq<Op>)
    requires Inv(run) && AllClean(run, ops) && Ids.Follows(w, n, run.logs) && AllServed(w, n, run, ops)
    ensures
      var next := WorldAfter(w, n, run, ops);
      && Ids.Follows(next, n, AfterAll(run, ops).logs)
      && w.grants <= next.grants && Texts(next.grants[|w.grants|..]) == Returned(run, ops)
    decreases |ops|
  {
    hide Inv, Clean, Ids.Follows, Ids.TextOf, AfterOp, StepsFor, Served, Ids.Run;
    OpenThere(run);
    if ops == [] {
      assert w.grants[|w.grants|..] == [];
    } else {
      OpKeeps(run, ops[0]);
      OpSimulated(w, n, run, ops[0]);
      var middle := Ids.Run(w, StepsFor(n, run, ops[0]));
      RunSimulated(middle, n, AfterOp(run, ops[0]).0, ops[1..]);
      var last := WorldAfter(middle, n, AfterOp(run, ops[0]).0, ops[1..]);
      TextsSplit(w.grants, middle.grants, last.grants);
      var id := AfterOp(run, ops[0]).1;
      assert Texts(middle.grants[|w.grants|..]) == if id.Some? then [id.value] else [];
    }
  }

  lemma TextsSplit(a: seq<Ids.Grant>, b: seq<Ids.Grant>, c: seq<Ids.Grant>)
    requires a <= b <= c
    ensures Texts(c[|a|..]) == Texts(b[|a|..]) + Texts(c[|b|..])
  {
    hide Ids.TextOf;
  }
}
