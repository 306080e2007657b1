/** The controller's replica reconciler, mongo_adjust_preload_replicas, inside one session. */
module Preload {
  import opened Bytes

  const MAX_REPLICAS := 5

  datatype PreLoadState = Init | Pending | Running | Error | Deleting

  /** A preload document; the version stands for everything that a write to it changes. */
  datatype Doc = Doc(stackId: u64, state: PreLoadState, version: nat)

  /** Object ids are drawn by the session that inserts, each once. */
  datatype DocId = DocId(session: nat, serial: nat)

  type Docs = map<DocId, Doc>

  /** The preloads the filter {stack_id, state != DELETING} selects. */
  predicate IsLive(doc: Doc, stackId: u64) {
    doc.stackId == stackId && doc.state != Deleting
  }

  function Live(docs: Docs, stackId: u64): set<DocId> {
    set d | d in docs && IsLive(docs[d], stackId)
  }

  /** pre_load caps the request; it does not raise a negative one. */
  function Clamp(replicas: int): (target: int)
    ensures replicas <= MAX_REPLICAS ==> target == replicas
    ensures replicas > MAX_REPLICAS ==> target == MAX_REPLICAS
  {
    if replicas > MAX_REPLICAS then MAX_REPLICAS else replicas
  }

  // ---- one session ----

  /** A transaction: what it read, what it would leave, and which documents it wrote. */
  datatype Txn = Txn(session: nat, snapshot: Docs, view: Docs, writes: set<DocId>, aborted: bool)

  class Session {
    const number: nat
    const snapshot: Docs
    var view: Docs
    var writes: set<DocId>
    var inserted: nat
    var aborted: bool

    ghost function State(): Txn
      reads this
    {
      Txn(number, snapshot, view, writes, aborted)
    }

    /** What stays true of a transaction on one stack, however many statements it has run. */
    ghost predicate Valid(stackId: u64)
      reads this
    {
      && Confined(State(), stackId)
      && forall d :: d in view && d !in snapshot ==> d.serial < inserted
    }

    constructor (number: nat, docs: Docs)
      requires forall d :: d in docs ==> d.session != number
      ensures State() == Txn(number, docs, docs, {}, false) && inserted == 0
      ensures forall stackId :: Valid(stackId)
    {
      this.number, snapshot, view := number, docs, docs;
      writes, inserted, aborted := {}, 0, false;
    }

    method CountDocuments(stackId: u64) returns (n: nat)
      ensures n == |Live(view, stackId)|
    {
      n := |Live(view, stackId)|;
    }

    /** update_many on the filter: every selected document counts as written. */
    method Lock(stackId: u64)
      requires Valid(stackId)
      modifies this
      ensures Valid(stackId) && writes == old(writes) + Live(old(view), stackId)
      ensures view == old(view) && inserted == old(inserted) && aborted == old(aborted)
    {
      writes := writes + Live(view, stackId);
    }

    method InsertOne(stackId: u64)
      requires Valid(stackId) && !aborted
      modifies this
      ensures Valid(stackId) && !aborted
      ensures view == old(view)[DocId(number, old(inserted)) := Doc(stackId, Init, 0)]
      ensures writes == old(writes) + {DocId(number, old(inserted))}
      ensures |Live(view, stackId)| == |Live(old(view), stackId)| + 1
    {
      var d := DocId(number, inserted);
      assert d !in view;
      view := view[d := Doc(stackId, Init, 0)];
      writes := writes + {d};
      inserted := inserted + 1;
      assert Live(view, stackId) == Live(old(view), stackId) + {d};
    }

    /** delete_one on the filter takes any one of the selected documents. */
    method DeleteOne(stackId: u64) returns (deleted: nat)
      requires Valid(stackId) && !aborted
      modifies this
      ensures Valid(stackId) && !aborted
      ensures deleted == if Live(old(view), stackId) == {} then 0 else 1
      ensures deleted == 0 ==> view == old(view) && writes == old(writes)
      ensures deleted == 1 ==>
        exists d :: d in Live(old(view), stackId) && view == old(view) - {d} && writes == old(writes) + {d}
      ensures |Live(view, stackId)| == |Live(old(view), stackId)| - deleted
    {
      deleted := 0;
      var live := Live(view, stackId);
      if live != {} {
        var d :| d in live;
        view := view - {d};
        writes := writes + {d};
        deleted := 1;
        assert Live(view, stackId) == live - {d};
      }
    }
  }

  /**
   * The transaction touches live documents of its stack only, adds none but its own, in their
   * first state, and writes down all it touches.
   */
  ghost predicate Confined(t: Txn, stackId: u64) {
    && (forall d :: d in t.snapshot ==> d.session != t.session)
    && (forall d :: d in t.snapshot && d !in t.view ==> d in t.writes)
    && (forall d :: d in t.view && d in t.snapshot ==> t.view[d] == t.snapshot[d])
    && (forall d :: d in t.view && d !in t.snapshot ==>
          d.session == t.session && t.view[d] == Doc(stackId, Init, 0) && d in t.writes)
    && (forall d :: d in t.writes ==> d.session == t.session || (d in t.snapshot && IsLive(t.snapshot[d], stackId)))
  }

  /**
   * A finished adjust: aborted with nothing written, or the target met and every live document
   * locked. With too few of them all stay, with too many none comes.
   */
  ghost predicate Adjusted(t: Txn, stackId: u64, target: nat) {
    && Confined(t, stackId)
    && (t.aborted <==> |Live(t.snapshot, stackId)| == target)
    && (t.aborted ==> t.writes == {} && t.view == t.snapshot)
    && (!t.aborted ==> |Live(t.view, stackId)| == target && Live(t.snapshot, stackId) <= t.writes)
    && (|Live(t.snapshot, stackId)| <= target ==> Live(t.snapshot, stackId) <= Live(t.view, stackId))
    && (|Live(t.snapshot, stackId)| >= target ==> Live(t.view, stackId) <= Live(t.snapshot, stackId))
  }

  /** Up to the commit, for targets not below zero. */
  method Adjust(session: Session, stackId: u64, target: nat)
    requires session.Valid(stackId) && session.view == session.snapshot && session.writes == {} && !session.aborted
    modifies session
    ensures Adjusted(session.State(), stackId, target)
    ensures session.State().session == old(session.State()).session
  {
    var current := session.CountDocuments(stackId);
    if current == target {
      session.aborted := true;
      return;
    }
    if current != 0 {
      session.Lock(stackId);
    }
    if current < target {
      var more := target - current;
      while more > 0
        invariant session.Valid(stackId) && !session.aborted
        invariant more >= 0 && |Live(session.view, stackId)| + more == target
        invariant Live(session.snapshot, stackId) <= session.writes
        invariant Live(session.snapshot, stackId) <= Live(session.view, stackId)
        decreases more
      {
        session.InsertOne(stackId);
        more := more - 1;
      }
    } else {
      var less := current - target;
      while less > 0
        invariant session.Valid(stackId) && !session.aborted
        invariant less >= 0 && |Live(session.view, stackId)| == target + less
        invariant Live(session.snapshot, stackId) <= session.writes
        invariant Live(session.view, stackId) <= Live(session.snapshot, stackId)
        decreases less
      {
        var deleted := session.DeleteOne(stackId);
        if deleted == 1 {
          less := less - 1;
        }
      }
    }
  }

  /** How many live preloads are left after some rounds, each of which deletes one while there are too many. */
  function LeftAfter(live: nat, target: int, rounds: nat): nat {
    var floor := if target < 0 then 0 else target;
    if live <= floor then live else if live - rounds < floor then floor else live - rounds
  }

  /**
   * The deletion loop, watched for a number of rounds. Given enough of them it is over if and only
   * if the target is not below zero; below zero it never is.
   */
  method DeleteRounds(session: Session, stackId: u64, target: int, rounds: nat) returns (less: int)
    requires session.Valid(stackId) && !session.aborted
    modifies session
    ensures session.Valid(stackId)
    ensures |Live(session.view, stackId)| == LeftAfter(|Live(old(session.view), stackId)|, target, rounds)
    ensures less == |Live(session.view, stackId)| - target
    ensures rounds >= |Live(old(session.view), stackId)| - target ==> (less <= 0 <==> target >= 0)
    ensures target < 0 ==> less > 0
  {
    less := |Live(session.view, stackId)| - target;
    for i := 0 to rounds
      invariant session.Valid(stackId) && !session.aborted
      invariant less == |Live(session.view, stackId)| - target
      invariant |Live(session.view, stackId)| == LeftAfter(|Live(old(session.view), stackId)|, target, i)
    {
      if less > 0 {
        var deleted := session.DeleteOne(stackId);
        if deleted == 1 {
          less := less - 1;
        }
      }
    }
  }

  /** pre_load: at most five replicas, whatever is asked. */
  method PreLoad(session: Session, stackId: u64, replicas: int)
    requires replicas >= 0
    requires session.Valid(stackId) && session.view == session.snapshot && session.writes == {} && !session.aborted
    modifies session
    ensures Adjusted(session.State(), stackId, if replicas < 5 then replicas else 5)
  {
    Adjust(session, stackId, Clamp(replicas));
  }
}
