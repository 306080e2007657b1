/**
 * Any number of S3 writers under one key prefix, with their stack ids from one controller. Their
 * calls interleave as they please; any upload may fail.
 */
module Fleet {
  import opened Bytes
  import opened Crash
  import opened IdRuns
  import opened LocalRun
  import opened Paths
  import opened ReadBack
  import opened Reader
  import opened S3Published
  import opened S3Writer
  import opened StackLog
  import Ids = StackIds
  import Writers = LocalWriter

  /** One of the writers with the stacks it means to publish. */
  datatype Member = Member(w: Writer, logs: seq<Stack>)

  /** The writers, their bucket with the states it has been in, and the machine that hands out ids. */
  datatype Fleet = Fleet(prefix: Text, objects: Store, seen: seq<Store>, members: seq<Member>, world: Ids.World)

  datatype Act =
    | Join(limit: nat, heard: bool) // open one more writer; the controller's answer may be lost
    | Call(n: nat, op: Op)          // one call of writer n

  function RunOf(f: Fleet, n: nat): Run
    requires n < |f.members|
  {
    Run(f.members[n].w, f.objects, f.seen, f.members[n].logs)
  }

  predicate Joins(f: Fleet, act: Act) {
    act.Join? && act.heard && f.world.counter < U64
  }

  predicate Calls(f: Fleet, act: Act) {
    act.Call? && act.n < |f.members| && f.members[act.n].logs != []
  }

  /** What an act is to the machine. */
  ghost function ActSteps(f: Fleet, act: Act): seq<Ids.Step> {
    if Calls(f, act) then StepsFor(act.n, RunOf(f, act.n), act.op)
    else if act.Join? then [Ids.Open(|f.members|, Joins(f, act))]
    else []
  }

  ghost function AfterAct(f: Fleet, act: Act): Fleet {
    var world := Ids.Run(f.world, ActSteps(f, act));
    if Calls(f, act) then
      var later := AfterOp(RunOf(f, act.n), act.op).0;
      Fleet(f.prefix, later.objects, later.seen, f.members[act.n := Member(later.w, later.logs)], world)
    else if Joins(f, act) then
      var run := OpenedRun(f.prefix, act.limit, f.world.counter, f.objects);
      f.(members := f.members + [Member(run.w, run.logs)], world := world)
    else f.(world := world)
  }

  /** The id an act returns, if it is a put that returns one. */
  ghost function IdOf(f: Fleet, act: Act): Option<Text> {
    if Calls(f, act) then AfterOp(RunOf(f, act.n), act.op).1 else None
  }

  /** The controller answers a put with its counter, and no put strands its writer. */
  ghost predicate Fair(f: Fleet, act: Act) {
    Calls(f, act) && act.op.PutOp? ==>
      && (act.op.reply.Some? ==> act.op.reply.value == f.world.counter)
      && !Strands(RunOf(f, act.n), act.op.r, act.op.o, act.op.reply)
  }

  // ---- what every act keeps ----

  ghost predicate Below(logs: seq<Stack>, counter: nat) {
    forall s :: s in logs ==> s.fileId < counter
  }

  ghost predicate Apart(logs: seq<Stack>, others: seq<Stack>) {
    forall s, t :: s in logs && t in others ==> s.fileId != t.fileId
  }

  /** No store holds an object of a stack that is still to be opened. */
  ghost predicate Unused(seen: seq<Store>, prefix: Text, counter: nat) {
    forall st, id: u64, k: Suffix :: st in seen && counter <= id ==> Path(KeyPrefix(prefix), id, k) !in st
  }

  ghost predicate SoundMember(f: Fleet, n: nat)
    requires n < |f.members|
  {
    && Inv(RunOf(f, n)) && f.members[n].w.prefix == f.prefix
    && Ids.Follows(f.world, n, f.members[n].logs) && Below(f.members[n].logs, f.world.counter)
  }

  ghost predicate Sound(f: Fleet) {
    && (forall n :: 0 <= n < |f.members| ==> SoundMember(f, n))
    && (forall n, m :: 0 <= n < |f.members| && 0 <= m < |f.members| && n != m ==>
          Apart(f.members[n].logs, f.members[m].logs))
    && Unused(f.seen, f.prefix, f.world.counter) && f.objects in f.seen
  }

  /** The stores a call visits are those of an upload of the writer's newest stack, if any. */
  ghost function Visited(run: Run, op: Op): seq<Store> {
    match op
    case PutOp(r, o, reply) => Putting(run.w, run.objects, r, o, reply).1
    case CloseOp(o) => Closing(run.w, run.objects, o).1
  }

  lemma OpVisits(run: Run, op: Op)
    requires run.logs != []
    ensures
      var later := AfterOp(run, op).0;
      && later.objects == LastOf(Visited(run, op), run.objects) && later.seen == run.seen + Visited(run, op)
    ensures Visited(run, op) == [] || (run.w.client && Visited(run, op) == Sending(run.w, run.objects, op.o).0)
  {
    hide Path, Appended, Sent, HeaderBuffers, Writers.Accepted;
  }

  /** An upload of one writer's stack leaves a writer of other stacks as it was. */
  lemma Beside(run: Run, w: Writer, s: Stack, o: Uploads)
    requires Inv(run) && w.prefix == run.w.prefix && Holding(w, s) && forall t :: t in run.logs ==> t.fileId != s.fileId
    ensures
      var visited := Sending(w, run.objects, o).0;
      Inv(run.(objects := LastOf(visited, run.objects), seen := run.seen + visited))
  {
    hide Live, Writers.Greedy, Distinct, InOrder, Stored, Sending, KeyPrefix, Holding;
    SendingVisits(w, run.objects, o);
    forall t | t in run.logs
      ensures forall st :: st in Sending(w, run.objects, o).0 ==> InOrder(st, KeyPrefix(w.prefix), t)
      ensures Stored(run.objects, KeyPrefix(w.prefix), t) ==>
        Stored(LastOf(Sending(w, run.objects, o).0, run.objects), KeyPrefix(w.prefix), t)
    {
      SendingKeeps(w, run.objects, o, s, t);
    }
    assert Last(run.logs) in run.logs;
    assert forall t :: t in Init(run.logs) ==> t in run.logs;
  }

  lemma StaysUnused(seen: seq<Store>, w: Writer, objects: Store, o: Uploads, s: Stack, counter: nat)
    requires Unused(seen, w.prefix, counter) && objects in seen && Holding(w, s) && s.fileId < counter
    ensures Unused(seen + Sending(w, objects, o).0, w.prefix, counter)
  {
    hide Path, Sending, KeyPrefix, Holding;
    forall st, id: u64, k: Suffix | st in Sending(w, objects, o).0 && counter <= id
      ensures Path(KeyPrefix(w.prefix), id, k) !in st
    {
      var t := Stack(id, id, []);
      assert Versions(objects, KeyPrefix(w.prefix), t, -1, -1, -1);
      SendingAside(w, objects, o, s, t, -1, -1, -1);
      assert Versions(st, KeyPrefix(w.prefix), t, -1, -1, -1);
      match k
      case Data =>
      case Idx =>
      case Meta =>
    }
  }

  /** A put adds at most a stack with the counter's id. */
  lemma OpBelow(run: Run, op: Op, counter: nat, others: seq<Stack>)
    requires run.logs != [] && Below(run.logs, counter) && Below(others, counter) && Apart(run.logs, others)
    requires Rotates(run, op) ==> AfterOp(run, op).0.w.fileStackId == counter
    ensures
      var (logs, next) := (AfterOp(run, op).0.logs, counter + if Rotates(run, op) then 1 else 0);
      Below(logs, next) && Below(others, next) && Apart(logs, others)
  {
    hide Putting, Closing, RawTotal;
    var later := AfterOp(run, op).0;
    assert Last(run.logs) in run.logs;
    forall s | s in later.logs
      ensures (s.fileId == counter && Rotates(run, op)) || exists t :: t in run.logs && t.fileId == s.fileId
    {
      if s !in run.logs && !Rotates(run, op) {
        assert s.fileId == Last(run.logs).fileId;
      }
    }
  }

  /** A put that opens a stack opens it under the controller's answer. */
  lemma RotatesTo(run: Run, op: Op)
    requires Inv(run) && run.logs != [] && Clean(run, op) && Rotates(run, op)
    ensures op.reply == Some(AfterOp(run, op).0.w.fileStackId)
  {
    hide Inv, FreshId, Strands, AfterPut, Writers.Accepted, RawTotal, IdAt;
    AcceptedPut(run, op.r, op.o, op.reply);
  }

  lemma FairClean(f: Fleet, act: Act)
    requires Sound(f) && Fair(f, act) && Calls(f, act)
    ensures Clean(RunOf(f, act.n), act.op)
    ensures Rotates(RunOf(f, act.n), act.op) ==>
      act.op.reply == Some(f.world.counter) && AfterOp(RunOf(f, act.n), act.op).0.w.fileStackId == f.world.counter
  {
    hide Inv, Ids.Follows, Strands, AfterOp, Path;
    assert SoundMember(f, act.n);
    if Rotates(RunOf(f, act.n), act.op) {
      RotatesTo(RunOf(f, act.n), act.op);
    }
  }

  /** The writer that makes the call. */
  lemma CallerKeeps(f: Fleet, act: Act)
    requires Sound(f) && Fair(f, act) && Calls(f, act)
    ensures SoundMember(AfterAct(f, act), act.n)
    ensures Extended(f.members[act.n].logs, AfterAct(f, act).members[act.n].logs)
  {
    hide Inv, Ids.Follows, AfterOp, Ids.Run, StepsFor, Clean, Fair, Extended, Unused, Rotates;
    var run := RunOf(f, act.n);
    assert SoundMember(f, act.n);
    FairClean(f, act);
    OpKeeps(run, act.op);
    OpSimulated(f.world, act.n, run, act.op);
    OpBelow(run, act.op, f.world.counter, []);
  }

  /** Any other writer. */
  lemma OtherKeeps(f: Fleet, act: Act, m: nat)
    requires Sound(f) && Fair(f, act) && Calls(f, act) && m < |f.members| && m != act.n
    ensures AfterAct(f, act).members[m] == f.members[m] && SoundMember(AfterAct(f, act), m)
    ensures Apart(AfterAct(f, act).members[act.n].logs, f.members[m].logs)
  {
    hide Inv, AfterOp, Ids.Run, StepsFor, Clean, Fair, Unused, Rotates, Sending, Visited;
    var (run, other) := (RunOf(f, act.n), RunOf(f, m));
    assert SoundMember(f, act.n) && SoundMember(f, m);
    FairClean(f, act);
    OpSimulated(f.world, act.n, run, act.op);
    OpBelow(run, act.op, f.world.counter, other.logs);
    OpVisits(run, act.op);
    if Visited(run, act.op) == [] {
      assert f.seen + [] == f.seen;
    } else {
      NewestHeld(run);
      assert Last(run.logs) in run.logs;
      Beside(other, run.w, Last(run.logs), act.op.o);
    }
  }

  lemma NewestHeld(run: Run)
    requires Inv(run) && run.w.client
    ensures run.logs != [] && Holding(run.w, Last(run.logs))
  {
    hide Distinct, Writers.Greedy, AllInOrder, Stored;
  }

  lemma BucketKeeps(f: Fleet, act: Act)
    requires Sound(f) && Fair(f, act) && Calls(f, act)
    ensures
      var later := AfterAct(f, act);
      Unused(later.seen, later.prefix, later.world.counter) && later.objects in later.seen && f.seen <= later.seen
  {
    hide Inv, AfterOp, Ids.Run, StepsFor, Clean, Fair, Apart, Rotates, Sending, Visited, Path, KeyPrefix;
    var run := RunOf(f, act.n);
    assert SoundMember(f, act.n);
    FairClean(f, act);
    OpSimulated(f.world, act.n, run, act.op);
    OpVisits(run, act.op);
    if Visited(run, act.op) == [] {
      assert f.seen + [] == f.seen;
    } else {
      NewestHeld(run);
      assert Last(run.logs) in run.logs;
      SendingVisits(run.w, f.objects, act.op.o);
      StaysUnused(f.seen, run.w, f.objects, act.op.o, Last(run.logs), f.world.counter);
    }
  }

  /** One call of one of the writers. */
  lemma CallKeeps(f: Fleet, act: Act)
    requires Sound(f) && Fair(f, act) && Calls(f, act)
    ensures Sound(AfterAct(f, act)) && Grown(f, AfterAct(f, act))
  {
    hide Inv, AfterOp, Ids.Run, StepsFor, Fair, Apart, Unused, SoundMember, Below;
    var later := AfterAct(f, act);
    CallerKeeps(f, act);
    BucketKeeps(f, act);
    forall m | 0 <= m < |f.members| && m != act.n
      ensures later.members[m] == f.members[m] && SoundMember(later, m)
      ensures Apart(later.members[act.n].logs, f.members[m].logs)
      ensures Apart(f.members[m].logs, later.members[act.n].logs)
      ensures Extended(f.members[m].logs, later.members[m].logs)
    {
      OtherKeeps(f, act, m);
      ApartBack(later.members[act.n].logs, f.members[m].logs);
      SameExtends(f.members[m].logs);
    }
  }

  lemma ApartBack(a: seq<Stack>, b: seq<Stack>)
    requires Apart(a, b)
    ensures Apart(b, a)
  {
  }

  /** No writer leaves, no stack loses a record, and no state of the bucket is forgotten. */
  ghost predicate Grown(f: Fleet, later: Fleet) {
    && later.prefix == f.prefix && |f.members| <= |later.members| && f.seen <= later.seen
    && forall n :: 0 <= n < |f.members| ==> Extended(f.members[n].logs, later.members[n].logs)
  }

  /** A writer that opens a stack no store knows. */
  lemma JoinedInv(prefix: Text, limit: nat, id: u64, objects: Store, seen: seq<Store>)
    requires objects in seen && forall st, k: Suffix :: st in seen ==> Path(KeyPrefix(prefix), id, k) !in st
    ensures
      var run := OpenedRun(prefix, limit, id, objects);
      Inv(run.(seen := seen)) && run.w.prefix == prefix && run.logs == [Stack(id, id, [])]
  {
    hide Path, KeyPrefix, Live, Writers.Greedy, InOrder, OpenStack;
    var s := Stack(id, id, []);
    forall st | st in seen
      ensures InOrder(st, KeyPrefix(prefix), s)
    {
      AbsentInOrder(st, KeyPrefix(prefix), s);
    }
    EmptyLive(NewWriter(prefix, limit), id);
    OpenSame(NewWriter(prefix, limit), id);
    Writers.StartsGreedy([], s, limit);
    assert [] + [s] == [s];
    assert Init([s]) == [];
  }

  lemma JoinerKeeps(f: Fleet, act: Act)
    requires Sound(f) && Joins(f, act)
    ensures SoundMember(AfterAct(f, act), |f.members|)
    ensures forall m :: 0 <= m < |f.members| ==> Apart(AfterAct(f, act).members[|f.members|].logs, f.members[m].logs)
  {
    hide Inv, Path, KeyPrefix, OpenStack, Stack.Data, Ids.Apply, Ids.Run;
    var id := f.world.counter;
    JoinedInv(f.prefix, act.limit, id, f.objects, f.seen);
    Ids.OpenStep(f.world, |f.members|, Stack(id, id, []));
    Ids.RunOne(f.world, Ids.Open(|f.members|, true));
    forall m, s | 0 <= m < |f.members| && s in f.members[m].logs
      ensures s.fileId != id
    {
      assert SoundMember(f, m);
    }
  }

  lemma OpenMoves(w: Ids.World, n: nat, heard: bool)
    ensures
      var later := Ids.Run(w, [Ids.Open(n, heard)]);
      Ids.OnlyMoves(w, later, n) && later.counter == w.counter + 1
  {
    Ids.RunOne(w, Ids.Open(n, heard));
  }

  lemma StandsBy(f: Fleet, act: Act, m: nat)
    requires Sound(f) && act.Join? && m < |f.members|
    ensures AfterAct(f, act).members[m] == f.members[m] && SoundMember(AfterAct(f, act), m)
  {
    hide Inv, OpenStack, Ids.Run, OpenedRun;
    assert SoundMember(f, m);
    OpenMoves(f.world, |f.members|, Joins(f, act));
  }

  /** One more writer, or an answer of the controller that got lost. */
  lemma JoinKeeps(f: Fleet, act: Act)
    requires Sound(f) && act.Join?
    ensures Sound(AfterAct(f, act)) && Grown(f, AfterAct(f, act))
  {
    hide Inv, OpenStack, Ids.Run, OpenedRun, Apart, SoundMember, Extended, Path, KeyPrefix;
    var later := AfterAct(f, act);
    OpenMoves(f.world, |f.members|, Joins(f, act));
    forall m | 0 <= m < |f.members|
      ensures later.members[m] == f.members[m] && SoundMember(later, m)
      ensures Extended(f.members[m].logs, later.members[m].logs)
    {
      StandsBy(f, act, m);
      SameExtends(f.members[m].logs);
    }
    if Joins(f, act) {
      JoinerKeeps(f, act);
      forall m | 0 <= m < |f.members|
        ensures Apart(f.members[m].logs, later.members[|f.members|].logs)
      {
        ApartBack(later.members[|f.members|].logs, f.members[m].logs);
      }
    }
  }

  lemma ActKeeps(f: Fleet, act: Act)
    requires Sound(f) && Fair(f, act)
    ensures Sound(AfterAct(f, act)) && Grown(f, AfterAct(f, act))
  {
    hide Sound, Fair, AfterOp, Ids.Run, StepsFor, Extended;
    if Calls(f, act) {
      CallKeeps(f, act);
    } else if act.Join? {
      JoinKeeps(f, act);
    } else {
      NothingHappens(f, act);
    }
  }

  lemma NothingHappens(f: Fleet, act: Act)
    requires !Calls(f, act) && act.Call?
    ensures AfterAct(f, act) == f && Grown(f, f)
  {
    forall n | 0 <= n < |f.members|
      ensures Extended(f.members[n].logs, f.members[n].logs)
    {
      SameExtends(f.members[n].logs);
    }
  }

  // ---- whole runs ----

  ghost function AfterActs(f: Fleet, acts: seq<Act>): Fleet
    decreases |acts|
  {
    if acts == [] then f else AfterActs(AfterAct(f, acts[0]), acts[1..])
  }

  ghost predicate AllFair(f: Fleet, acts: seq<Act>)
    decreases |acts|
  {
    acts == [] || (Fair(f, acts[0]) && AllFair(AfterAct(f, acts[0]), acts[1..]))
  }

  /** The ids the puts of all writers returned, in order. */
  ghost function IdsOf(f: Fleet, acts: seq<Act>): seq<Text>
    decreases |acts|
  {
    if acts == [] then [] else
      (if IdOf(f, acts[0]).Some? then [IdOf(f, acts[0]).value] else []) + IdsOf(AfterAct(f, acts[0]), acts[1..])
  }

  /** What the acts are to the machine. */
  ghost function AllSteps(f: Fleet, acts: seq<Act>): seq<Ids.Step>
    decreases |acts|
  {
    if acts == [] then [] else ActSteps(f, acts[0]) + AllSteps(AfterAct(f, acts[0]), acts[1..])
  }

  lemma GrownThrough(a: Fleet, b: Fleet, c: Fleet)
    requires Grown(a, b) && Grown(b, c)
    ensures Grown(a, c)
  {
    hide Extended;
    forall n | 0 <= n < |a.members|
      ensures Extended(a.members[n].logs, c.members[n].logs)
    {
      ExtendedThrough(a.members[n].logs, b.members[n].logs, c.members[n].logs);
    }
  }

  lemma GrownSelf(f: Fleet)
    ensures Grown(f, f)
  {
    forall n | 0 <= n < |f.members|
      ensures Extended(f.members[n].logs, f.members[n].logs)
    {
      SameExtends(f.members[n].logs);
    }
  }

  /** Whatever order the calls of all writers come in, every writer stays sound and nothing is taken back. */
  lemma {:induction false} FleetKeeps(f: Fleet, acts: seq<Act>)
    requires Sound(f) && AllFair(f, acts)
    ensures Sound(AfterActs(f, acts)) && Grown(f, AfterActs(f, acts))
    decreases |acts|
  {
    hide Sound, Fair, AfterAct, Grown;
    if acts == [] {
      GrownSelf(f);
    } else {
      ActKeeps(f, acts[0]);
      FleetKeeps(AfterAct(f, acts[0]), acts[1..]);
      GrownThrough(f, AfterAct(f, acts[0]), AfterActs(f, acts));
    }
  }

  lemma {:induction false} RunConcat(w: Ids.World, a: seq<Ids.Step>, b: seq<Ids.Step>)
    ensures Ids.Run(w, a + b) == Ids.Run(Ids.Run(w, a), b)
    decreases |a|
  {
    hide Ids.Apply;
    if a == [] {
      assert a + b == b;
    } else {
      assert (a + b)[0] == a[0] && (a + b)[1..] == a[1..] + b;
      RunConcat(Ids.Apply(w, a[0]), a[1..], b);
    }
  }

  /** An act grants exactly the id it returns. */
  lemma ActGrants(f: Fleet, act: Act)
    requires Sound(f) && Fair(f, act)
    ensures
      var (grants, next, id) := (f.world.grants, AfterAct(f, act).world, IdOf(f, act));
      && next == Ids.Run(f.world, ActSteps(f, act)) && grants <= next.grants
      && Texts(next.grants[|grants|..]) == if id.Some? then [id.value] else []
  {
    hide Inv, AfterOp, StepsFor, Clean, Fair, Rotates, Ids.TextOf, Ids.Follows, OpenedRun, Ids.Run;
    if Calls(f, act) {
      assert SoundMember(f, act.n);
      FairClean(f, act);
      OpSimulated(f.world, act.n, RunOf(f, act.n), act.op);
    } else if act.Join? {
      OpenGrants(f.world, |f.members|, Joins(f, act));
    } else {
      RunNone(f.world);
    }
  }

  lemma OpenGrants(w: Ids.World, n: nat, heard: bool)
    ensures Ids.Run(w, [Ids.Open(n, heard)]).grants == w.grants
  {
    Ids.RunOne(w, Ids.Open(n, heard));
  }

  /** The acts are a run of the machine whose new grants are exactly the ids returned, in order. */
  lemma {:induction false} FleetSimulated(f: Fleet, acts: seq<Act>)
    requires Sound(f) && AllFair(f, acts)
    ensures
      var world := AfterActs(f, acts).world;
      && world == Ids.Run(f.world, AllSteps(f, acts)) && f.world.grants <= world.grants
      && Texts(world.grants[|f.world.grants|..]) == IdsOf(f, acts)
    decreases |acts|
  {
    hide Sound, Fair, AfterAct, ActSteps, IdOf, Ids.Run, Ids.TextOf;
    if acts == [] {
      RunNone(f.world);
      assert f.world.grants[|f.world.grants|..] == [];
    } else {
      var next := AfterAct(f, acts[0]);
      ActKeeps(f, acts[0]);
      ActGrants(f, acts[0]);
      FleetSimulated(next, acts[1..]);
      RunConcat(f.world, ActSteps(f, acts[0]), AllSteps(next, acts[1..]));
      TextsSplit(f.world.grants, next.world.grants, AfterActs(next, acts[1..]).world.grants);
    }
  }

  /** No writer yet, a bucket without objects of stacks to come, and the controller's counter. */
  function Start(prefix: Text, objects: Store, counter: nat): Fleet {
    Fleet(prefix, objects, [objects], [], Ids.World(counter, map[], []))
  }

  lemma StartSound(prefix: Text, objects: Store, counter: nat)
    requires Unused([objects], prefix, counter)
    ensures Sound(Start(prefix, objects, counter))
  {
    hide Path, KeyPrefix;
  }

  /**
   * Over every interleaving of the calls of any number of writers, with answers lost and uploads
   * failing, no two puts return the same id.
   */
  lemma NoIdTwice(prefix: Text, objects: Store, counter: nat, acts: seq<Act>, i: nat, j: nat)
    requires Unused([objects], prefix, counter) && AllFair(Start(prefix, objects, counter), acts)
    requires forall g :: g in AfterActs(Start(prefix, objects, counter), acts).world.grants ==>
      g.stackId < U64 && g.offset < U64
    requires i < j < |IdsOf(Start(prefix, objects, counter), acts)|
    ensures
      var ids := IdsOf(Start(prefix, objects, counter), acts);
      ids[i] != ids[j]
  {
    hide Sound, AllFair, Unused, AfterActs, IdsOf, AllSteps, Ids.Run, Ids.TextOf;
    var f := Start(prefix, objects, counter);
    StartSound(prefix, objects, counter);
    FleetSimulated(f, acts);
    var gs := AfterActs(f, acts).world.grants;
    assert gs[0..] == gs;
    Ids.IdsNeverRepeat(counter, AllSteps(f, acts), i, j);
  }

  /** In every state of the bucket, each visible index record of every writer's stacks is satisfied. */
  lemma FleetSatisfied(f: Fleet, n: nat, store: Store, s: Stack, k: nat)
    requires Sound(f) && n < |f.members| && store in f.seen && s in f.members[n].logs
    requires Path(KeyPrefix(f.prefix), s.fileId, Idx) in store
    requires 16 + 28 * (k + 1) <= |store[Path(KeyPrefix(f.prefix), s.fileId, Idx)]|
    ensures k < |s.recs| && Satisfied(store, KeyPrefix(f.prefix), s, k)
  {
    hide Inv, Path, KeyPrefix, Satisfied, Ids.Follows;
    assert SoundMember(f, n);
    SeenSatisfied(RunOf(f, n), store, s, k);
  }

  /** An id a writer returned fetches its payload once that writer has given its client up, whatever the others do. */
  lemma FleetPublishes(f: Fleet, act: Act, acts: seq<Act>, checkCrc: bool)
    requires Sound(f) && Fair(f, act) && IdOf(f, act).Some? && AllFair(AfterAct(f, act), acts)
    requires var last := AfterActs(AfterAct(f, act), acts);
      && |f.members| <= |last.members| && !last.members[act.n].w.client
      && forall s :: s in last.members[act.n].logs ==> |s.Data()| <= U64
    ensures act.Call? && act.op.PutOp?
    ensures
      var last := AfterActs(AfterAct(f, act), acts);
      var prefix := if f.prefix == [] then [] else f.prefix + Ascii("/");
      Fetched(last.objects, prefix, IdOf(f, act).value, checkCrc) == Ok(act.op.r.payload)
      <==> |act.op.r.payload| < U32
  {
    SlashIs(f.prefix);
    hide Sound, Fair, AllFair, AfterActs, AfterOp, Extended, Located, Fetched, Stored, DataBytes, KeyPrefix, Ids.Run,
      StepsFor;
    var (next, last) := (AfterAct(f, act), AfterActs(AfterAct(f, act), acts));
    ActKeeps(f, act);
    FleetKeeps(next, acts);
    CallLocates(f, act);
    LocatedStays(next.members[act.n].logs, last.members[act.n].logs, IdOf(f, act).value, act.op.r.payload);
    MemberStored(last, act.n);
    LocatedPublished(last.objects, KeyPrefix(f.prefix), last.members[act.n].logs, IdOf(f, act).value,
                     act.op.r.payload, checkCrc);
  }

  lemma CallLocates(f: Fleet, act: Act)
    requires Sound(f) && Fair(f, act) && IdOf(f, act).Some?
    ensures Calls(f, act) && act.op.PutOp?
    ensures Located(AfterAct(f, act).members[act.n].logs, IdOf(f, act).value, act.op.r.payload)
  {
    hide Inv, AfterOp, Ids.Run, StepsFor, Clean, Fair, Located, Ids.Follows, Apart, Unused;
    assert SoundMember(f, act.n);
    FairClean(f, act);
    OpKeeps(RunOf(f, act.n), act.op);
  }

  lemma MemberStored(f: Fleet, n: nat)
    requires Sound(f) && n < |f.members| && !f.members[n].w.client
    ensures forall s :: s in f.members[n].logs ==> Stored(f.objects, KeyPrefix(f.prefix), s)
  {
    hide Inv, Stored, KeyPrefix, Ids.Follows;
    assert SoundMember(f, n);
    ClosedStored(RunOf(f, n));
  }
}
