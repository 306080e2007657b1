/** The controller's stack id counter, and why no two puts anywhere return the same index id. */
module StackIds {
  import opened Bytes
  import opened IndexId
  import opened MetaJson
  import Writers = LocalWriter
  import opened Records
  import opened ReadBack
  import opened StackLog
  import Torn = TornPuts

  // ---- the counter ----

  /** The stored document {config: "next_stack_id", next_stack_id: n}, if somebody inserted it. */
  class Controller {
    var nextStackId: Option<nat>

    constructor (start: Option<nat>)
      ensures nextStackId == start
    {
      nextStackId := start;
    }

    /** find_one_and_update with $inc answers with the document as it was before. */
    method NextStackId() returns (id: Option<nat>)
      modifies this
      ensures id == old(nextStackId)
      ensures nextStackId == if id.Some? then Some(id.value + 1) else None
    {
      id := nextStackId;
      if nextStackId.Some? {
        nextStackId := Some(nextStackId.value + 1);
      }
    }
  }

  // ---- any number of writers in controller mode ----

  /** A writer with an open stack: its id and the offset of the next slot. */
  datatype Cursor = Cursor(stackId: nat, offset: nat)

  /** What a returned id names. */
  datatype Grant = Grant(stackId: nat, offset: nat, cookie: u32)

  /** The counter, the writers by number, and everything puts have returned. */
  datatype World = World(counter: nat, writers: map<nat, Cursor>, grants: seq<Grant>)

  datatype Step =
    | Open(writer: nat, heard: bool)                                     // ask for a stack id; the answer may be lost
    | Put(writer: nat, cookie: u32, size: nat)                           // a put that returns an id
    | FailedPut(writer: nat, size: nat, dataWritten: bool) // a put that fails before or after its data write
    | Close(writer: nat)

  /** Steps of different writers interleave as they please; a step without an open stack does nothing. */
  function Apply(w: World, step: Step): World {
    match step
    case Open(n, heard) =>
      var id := w.counter;
      World(id + 1, if heard then w.writers[n := Cursor(id, DATA_START)] else w.writers, w.grants)
    case Put(n, cookie, size) =>
      if n !in w.writers then w else
        var c := w.writers[n];
        w.(writers := w.writers[n := c.(offset := c.offset + SlotSize(size))],
           grants := w.grants + [Grant(c.stackId, c.offset, cookie)])
    case FailedPut(n, size, dataWritten) =>
      if n !in w.writers || !dataWritten then w else
        var c := w.writers[n];
        w.(writers := w.writers[n := c.(offset := c.offset + SlotSize(size))])
    case Close(n) => w.(writers := w.writers - {n})
  }

  function Run(w: World, steps: seq<Step>): World
    decreases |steps|
  {
    if steps == [] then w else Run(Apply(w, steps[0]), steps[1..])
  }

  /** Below the counter; no stack is held by two writers; what was granted lies behind its writer's offset. */
  ghost predicate Inv(w: World) {
    && (forall n :: n in w.writers ==> w.writers[n].stackId < w.counter)
    && (forall n, m :: n in w.writers && m in w.writers && n != m ==> w.writers[n].stackId != w.writers[m].stackId)
    && (forall g :: g in w.grants ==> g.stackId < w.counter)
    && (forall g, n :: g in w.grants && n in w.writers && g.stackId == w.writers[n].stackId ==>
          g.offset + ALIGNMENT <= w.writers[n].offset)
    && (forall i, j :: 0 <= i < j < |w.grants| ==> !SamePlace(w.grants[i], w.grants[j]))
  }

  predicate SamePlace(a: Grant, b: Grant) {
    a.stackId == b.stackId && a.offset == b.offset
  }

  lemma SlotAtLeast(size: nat)
    ensures SlotSize(size) >= ALIGNMENT
  {
    hide SlotSize;
    SlotBounds(size);
    Multiple(SlotSize(size));
  }

  lemma Multiple(n: nat)
    requires n % ALIGNMENT == 0 && n > 0
    ensures n >= ALIGNMENT
  {
  }

  /** The writer moves past what it was granted. */
  lemma PutKeeps(w: World, n: nat, cookie: u32, step: nat)
    requires Inv(w) && n in w.writers && step >= ALIGNMENT
    ensures
      var c := w.writers[n];
      Inv(w.(writers := w.writers[n := c.(offset := c.offset + step)],
             grants := w.grants + [Grant(c.stackId, c.offset, cookie)]))
  {
    var c := w.writers[n];
    forall g | g in w.grants
      ensures !SamePlace(g, Grant(c.stackId, c.offset, cookie))
    {
      assert g.stackId == c.stackId ==> g.offset + ALIGNMENT <= c.offset;
    }
  }

  lemma AdvanceKeeps(w: World, n: nat, step: nat)
    requires Inv(w) && n in w.writers
    ensures Inv(w.(writers := w.writers[n := w.writers[n].(offset := w.writers[n].offset + step)]))
  {
  }

  /** A new id is above everything granted, and no other writer's. */
  lemma OpenKeeps(w: World, n: nat, heard: bool)
    requires Inv(w)
    ensures Inv(Apply(w, Open(n, heard)))
  {
  }

  lemma CloseKeeps(w: World, n: nat)
    requires Inv(w)
    ensures Inv(Apply(w, Close(n)))
  {
  }

  lemma ApplyKeeps(w: World, step: Step)
    requires Inv(w)
    ensures Inv(Apply(w, step)) && w.grants <= Apply(w, step).grants
  {
    hide SlotSize, Inv;
    match step
    case Open(n, heard) => OpenKeeps(w, n, heard);
    case Put(n, cookie, size) =>
      SlotAtLeast(size);
      if n in w.writers {
        PutKeeps(w, n, cookie, SlotSize(size));
      }
    case FailedPut(n, size, dataWritten) =>
      if n in w.writers {
        AdvanceKeeps(w, n, SlotSize(size));
      }
    case Close(n) => CloseKeeps(w, n);
  }

  lemma {:induction false} RunKeeps(w: World, steps: seq<Step>)
    requires Inv(w)
    ensures Inv(Run(w, steps)) && w.grants <= Run(w, steps).grants
    decreases |steps|
  {
    hide Inv, Apply;
    if steps != [] {
      ApplyKeeps(w, steps[0]);
      RunKeeps(Apply(w, steps[0]), steps[1..]);
    }
  }

  /** The id text put returns; stack ids and offsets are u64 in the writers. */
  function TextOf(g: Grant): Text {
    PrintId(IndexID(AsU64(g.stackId), AsU64(g.offset), g.cookie))
  }

  /**
   * Over every interleaving of any number of writers, with lost answers and failed puts, no two
   * successful puts return the same id, whatever cookies they drew.
   */
  lemma IdsNeverRepeat(counter: nat, steps: seq<Step>, i: nat, j: nat)
    requires i < j < |Run(World(counter, map[], []), steps).grants|
    requires forall g :: g in Run(World(counter, map[], []), steps).grants ==> g.stackId < U64 && g.offset < U64
    ensures var gs := Run(World(counter, map[], []), steps).grants;
      TextOf(gs[i]) != TextOf(gs[j])
  {
    hide Run, PrintId;
    var start := World(counter, map[], []);
    assert Inv(start);
    RunKeeps(start, steps);
    var gs := Run(start, steps).grants;
    assert gs[i] in gs && gs[j] in gs && !SamePlace(gs[i], gs[j]);
    PrintInjective(IndexID(AsU64(gs[i].stackId), AsU64(gs[i].offset), gs[i].cookie),
                   IndexID(AsU64(gs[j].stackId), AsU64(gs[j].offset), gs[j].cookie));
  }

  /**
   * A writer whose cursor stands at record k of a stack is granted exactly the id the writers of
   * this project return for it, and its cursor moves to the next record.
   */
  lemma WriterStep(s: Stack, k: nat, w: World, n: nat)
    requires k < |s.recs| && n in w.writers && w.writers[n] == Cursor(s.fileId, DataOff(s.headerId, s.recs, k))
    ensures
      var later := Apply(w, Put(n, s.recs[k].cookie, |s.recs[k].payload|));
      && later.writers[n] == Cursor(s.fileId, DataOff(s.headerId, s.recs, k + 1))
      && |later.grants| == |w.grants| + 1 && TextOf(later.grants[|w.grants|]) == IdAt(s, k)
  {
    hide DataBytes, PrintId, Slot;
    SlotAt(s.headerId, s.recs, k);
  }

  /** A writer's cursor stands behind the records of its newest stack. */
  ghost predicate Follows(w: World, n: nat, logs: seq<Stack>) {
    logs != [] && n in w.writers && w.writers[n] == Cursor(Last(logs).fileId, |Last(logs).Data()|)
  }

  /** Every other writer's cursor stands where it stood. */
  ghost predicate OnlyMoves(w: World, later: World, n: nat) {
    forall m :: m != n && m in w.writers ==> m in later.writers && later.writers[m] == w.writers[m]
  }

  /** The steps of a put that accepts a record: a new stack first, if the newest would overflow. */
  function StepsOf(n: nat, logs: seq<Stack>, r: Rec, limit: nat): seq<Step>
    requires logs != []
  {
    if RawTotal(Last(logs).recs) + |r.payload| <= limit then [Put(n, r.cookie, |r.payload|)]
    else [Open(n, true), Put(n, r.cookie, |r.payload|)]
  }

  /**
   * Every put any of the writers accepts is a run of this machine that grants exactly the id it
   * returns, leaves the writer's cursor behind the new record, and moves no other writer: the
   * writers state their new stacks as Accepted, with the counter's answer for a new stack.
   */
  lemma PutSimulated(w: World, n: nat, logs: seq<Stack>, r: Rec, limit: nat, fileId: u64, headerId: u64)
    requires Follows(w, n, logs)
    requires RawTotal(Last(logs).recs) + |r.payload| > limit ==> fileId == w.counter
    ensures
      var (later, next) := (Run(w, StepsOf(n, logs, r, limit)), Writers.Accepted(logs, r, limit, fileId, headerId));
      && Follows(later, n, next)
      && |later.grants| == |w.grants| + 1 && w.grants <= later.grants
      && Last(next).recs != []
      && TextOf(later.grants[|w.grants|]) == IdAt(Last(next), |Last(next).recs| - 1)
      && OnlyMoves(w, later, n)
      && later.counter == w.counter + if RawTotal(Last(logs).recs) + |r.payload| > limit then 1 else 0
  {
    hide RawTotal, Apply, Run, Stack.Data, IdAt, TextOf;
    if RawTotal(Last(logs).recs) + |r.payload| <= limit {
      PutStep(w, n, Last(logs), r);
      RunOne(w, Put(n, r.cookie, |r.payload|));
    } else {
      var s := Stack(fileId, headerId, []);
      var ready := Apply(w, Open(n, true));
      OpenStep(w, n, s);
      PutStep(ready, n, s, r);
      assert s.With(r) == Stack(fileId, headerId, [r]);
      RunTwo(w, Open(n, true), Put(n, r.cookie, |r.payload|));
    }
  }

  /** A put of a local writer with any faults is a step of the machine, with the same id and the same next offset. */
  lemma AttemptSimulated(w: World, n: nat, t: Torn.Tails, s: Stack, a: Torn.Attempt)
    requires n in w.writers && w.writers[n] == Cursor(s.fileId, |s.Data()|) && Torn.InStep(t, s)
    ensures
      var (u, id) := Torn.Appending(t, s.fileId, a.r, a.f);
      var size := |a.r.payload|;
      var later := Apply(w, if id.Some? then Put(n, a.r.cookie, size) else FailedPut(n, size, Torn.SlotWorks(a.f)));
      && n in later.writers && later.writers[n].stackId == s.fileId && AsU64(later.writers[n].offset) == u.dataOffset
      && (if id.Some? then |later.grants| == |w.grants| + 1 && TextOf(later.grants[|w.grants|]) == id.value
          else later.grants == w.grants)
      && OnlyMoves(w, later, n) && later.counter == w.counter
  {
    hide Stack.Data, Stack.With, IdAt, TextOf, Apply, OnlyMoves, AsU64, Torn.Appending, Torn.InStep;
    Torn.AttemptOffset(t, s, a);
    PutStep(w, n, s, a.r);
    FailedStep(w, n, s, a.r, Torn.SlotWorks(a.f));
    Writers.WithSame(s, a.r);
  }

  lemma FailedStep(w: World, n: nat, s: Stack, r: Rec, dataWritten: bool)
    requires n in w.writers && w.writers[n] == Cursor(s.fileId, |s.Data()|)
    ensures
      var later := Apply(w, FailedPut(n, |r.payload|, dataWritten));
      && n in later.writers
      && later.writers[n] == Cursor(s.fileId, if dataWritten then |s.With(r).Data()| else |s.Data()|)
      && later.grants == w.grants && OnlyMoves(w, later, n) && later.counter == w.counter
  {
    hide DataBytes, MetaBytes, IdxBytes, LastEntry, Slot, Line, EntryOf, RawTotal;
    Extend(s.headerId, s.recs, r);
  }

  /** Every request takes a number, heard of or not, and nothing else does. */
  lemma {:induction false} CounterCounts(w: World, steps: seq<Step>)
    ensures Run(w, steps).counter == w.counter + Requests(steps)
    decreases |steps|
  {
    hide SlotSize;
    if steps != [] {
      CounterCounts(Apply(w, steps[0]), steps[1..]);
    }
  }

  function Requests(steps: seq<Step>): nat {
    if steps == [] then 0 else (if steps[0].Open? then 1 else 0) + Requests(steps[1..])
  }

  lemma RunOne(w: World, a: Step)
    ensures Run(w, [a]) == Apply(w, a)
  {
    hide Apply;
    assert Run(Apply(w, a), []) == Apply(w, a);
  }

  lemma RunTwo(w: World, a: Step, b: Step)
    ensures Run(w, [a, b]) == Apply(Apply(w, a), b)
  {
    hide Apply;
    assert [a, b][1..] == [b];
    RunOne(Apply(w, a), b);
  }

  lemma PutStep(w: World, n: nat, s: Stack, r: Rec)
    requires n in w.writers && w.writers[n] == Cursor(s.fileId, |s.Data()|)
    ensures
      var (later, next) := (Apply(w, Put(n, r.cookie, |r.payload|)), s.With(r));
      && n in later.writers && later.writers[n] == Cursor(next.fileId, |next.Data()|)
      && |later.grants| == |w.grants| + 1 && w.grants <= later.grants
      && |next.recs| == |s.recs| + 1 && TextOf(later.grants[|w.grants|]) == IdAt(next, |s.recs|)
      && OnlyMoves(w, later, n) && later.counter == w.counter
  {
    hide DataBytes, MetaBytes, IdxBytes, LastEntry, PrintId, Slot, Line, EntryOf, RawTotal;
    Extend(s.headerId, s.recs, r);
    assert s.With(r).recs[..|s.recs|] == s.recs;
  }

  lemma OpenStep(w: World, n: nat, s: Stack)
    requires s.recs == [] && s.fileId == w.counter
    ensures
      var later := Apply(w, Open(n, true));
      && later.grants == w.grants
      && n in later.writers && later.writers[n] == Cursor(s.fileId, |s.Data()|)
      && OnlyMoves(w, later, n) && later.counter == w.counter + 1
  {
    hide DataBytes, MetaBytes, RawTotal, HeaderLine;
    EmptyFiles(s.headerId);
  }
}
