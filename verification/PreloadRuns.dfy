/**
 * Any number of reconciling sessions at once, over a store with snapshot isolation and write
 * conflicts: what each commit leaves, and exactly when that is its target.
 */
module PreloadRuns {
  import opened Bytes
  import opened Preload

  /** A session that has run adjust and not committed yet; began counts the commits before its snapshot. */
  datatype Call = Call(t: Txn, stackId: u64, target: nat, began: nat)

  /** One commit in the log: for which stack, and whether its session had seen no live preload there. */
  datatype Entry = Entry(stackId: u64, blind: bool)

  /** The collection, the commits so far, how many sessions there have been, and those yet to commit. */
  datatype World = World(docs: Docs, log: seq<Entry>, sessions: nat, txns: map<nat, Call>)

  /** What one transaction wrote, laid over the collection; written documents get a new version. */
  function Overlay(docs: Docs, t: Txn, version: nat): Docs {
    map d | d in docs.Keys + t.view.Keys && (if d in t.writes then d in t.view else d in docs) ::
      if d in t.writes then t.view[d].(version := version) else docs[d]
  }

  /** A document the transaction wrote has been written by a commit since its snapshot. */
  ghost predicate Conflict(docs: Docs, t: Txn) {
    exists d :: d in t.writes && d in t.snapshot && Differs(docs, t.snapshot, d)
  }

  predicate Differs(docs: Docs, snapshot: Docs, d: DocId)
    requires d in snapshot
  {
    d !in docs || docs[d] != snapshot[d]
  }

  /** The live preloads the transaction saw. If there are any, it holds locks on them. */
  function Seen(p: Call): set<DocId> {
    Live(p.t.snapshot, p.stackId)
  }

  /** One commit: refused on a conflict; an aborted transaction has nothing to commit. */
  ghost function Commit(w: World, n: nat): (World, bool)
    requires n in w.txns
  {
    var p, rest := w.txns[n], w.txns - {n};
    if p.t.aborted || Conflict(w.docs, p.t) then (w.(txns := rest), false)
    else (World(Overlay(w.docs, p.t, |w.log|), w.log + [Entry(p.stackId, Seen(p) == {})], w.sessions, rest), true)
  }

  /** A new session takes its snapshot and runs adjust up to its commit, in any of the ways it may. */
  ghost predicate Begins(w: World, p: Call, later: World) {
    && p.t.session == w.sessions && p.t.snapshot == w.docs && p.began == |w.log|
    && Adjusted(p.t, p.stackId, p.target)
    && later == World(w.docs, w.log, w.sessions + 1, w.txns[w.sessions := p])
  }

  ghost predicate Next(w: World, later: World) {
    || (exists p :: Begins(w, p, later))
    || (exists n :: n in w.txns && later == Commit(w, n).0)
  }

  /** A session that had seen no live preload of the stack committed since this one's snapshot. */
  predicate BlindSince(log: seq<Entry>, p: Call) {
    exists k :: p.began <= k < |log| && log[k] == Entry(p.stackId, true)
  }

  // ---- what one commit leaves ----

  /** What is known of a collection and a pending session, whatever else has committed. */
  ghost predicate Pending(w: World, n: nat, p: Call) {
    && n < w.sessions && p.t.session == n && p.began <= |w.log| && Adjusted(p.t, p.stackId, p.target)
    && (forall d :: d in w.docs ==> d.session != n)
    && (forall d :: d in p.t.snapshot ==>
          p.t.snapshot[d].version < |w.log| && d.session < w.sessions && d.session !in w.txns)
    && (forall d :: d in p.t.snapshot && d in w.docs ==> KeptOrNewer(w.docs, p.t.snapshot, d))
  }

  predicate KeptOrNewer(docs: Docs, snapshot: Docs, d: DocId)
    requires d in snapshot && d in docs
  {
    docs[d] == snapshot[d] || docs[d].version > snapshot[d].version
  }

  /** Document ids are never reused, and no pending session's inserts are visible. */
  ghost predicate Fresh(w: World) {
    && (forall d :: d in w.docs ==> w.docs[d].version < |w.log| && d.session < w.sessions && d.session !in w.txns)
    && (forall n :: n in w.txns ==> Pending(w, n, w.txns[n]))
  }

  /** The live preloads at commit time that the session never saw. */
  function Unseen(docs: Docs, p: Call): set<DocId> {
    Live(docs, p.stackId) - Seen(p)
  }

  /** One live document under a successful commit: the session's own, or one it never saw. */
  lemma OverlayAt(w: World, n: nat, d: DocId)
    requires Fresh(w) && n in w.txns && Commit(w, n).1
    ensures
      var (p, docs) := (w.txns[n], Commit(w, n).0.docs);
      && (d in Live(docs, p.stackId) <==> d in Live(p.t.view, p.stackId) || d in Unseen(w.docs, p))
      && !(d in Live(p.t.view, p.stackId) && d in Unseen(w.docs, p))
  {
    var p := w.txns[n];
    assert Pending(w, n, p);
    if d in p.t.writes && d in p.t.snapshot {
      assert !Differs(w.docs, p.t.snapshot, d);
    }
  }

  /**
   * What a commit leaves of its stack is its target and whatever live preloads it never saw; so it
   * is exactly the target if and only if it had seen all there are. A session that had seen too few
   * leaves every live preload there, one that had seen too many adds none; those that stay keep
   * their state, those that come are in their first. No other stack's document and no deleting one
   * changes, comes or goes.
   */
  lemma CommitLeaves(w: World, n: nat)
    requires Fresh(w) && n in w.txns && Commit(w, n).1
    ensures
      var (p, docs) := (w.txns[n], Commit(w, n).0.docs);
      && |Live(docs, p.stackId)| == p.target + |Unseen(w.docs, p)|
      && (|Live(docs, p.stackId)| == p.target <==> Live(w.docs, p.stackId) <= Seen(p))
      && (|Seen(p)| <= p.target ==> Live(w.docs, p.stackId) <= Live(docs, p.stackId))
      && (|Seen(p)| >= p.target ==> Live(docs, p.stackId) <= Live(w.docs, p.stackId))
      && (forall d :: d in Live(docs, p.stackId) ==>
            docs[d].state == if d in Live(w.docs, p.stackId) then w.docs[d].state else Init)
      && Untouched(w.docs, docs, p.stackId)
  {
    var (p, docs) := (w.txns[n], Commit(w, n).0.docs);
    TargetInView(w, n);
    forall d
      ensures |Seen(p)| <= p.target && d in Live(w.docs, p.stackId) ==> d in Live(docs, p.stackId)
      ensures |Seen(p)| >= p.target && d in Live(docs, p.stackId) ==> d in Live(w.docs, p.stackId)
      ensures d in Live(docs, p.stackId) ==>
        docs[d].state == if d in Live(w.docs, p.stackId) then w.docs[d].state else Init
    {
      StayOrCome(w, n, d);
    }
    hide Fresh, Commit, Live, Seen, Unseen, Untouched;
    forall d
      ensures d in Live(docs, p.stackId) <==> d in Live(p.t.view, p.stackId) + Unseen(w.docs, p)
      ensures !(d in Live(p.t.view, p.stackId) && d in Unseen(w.docs, p))
    {
      OverlayAt(w, n, d);
    }
    Union(Live(p.t.view, p.stackId), Unseen(w.docs, p), Live(docs, p.stackId));
    UnseenNone(w.docs, p);
    OthersUntouched(w, n);
  }

  /** What becomes of one live document in a commit. */
  lemma StayOrCome(w: World, n: nat, d: DocId)
    requires Fresh(w) && n in w.txns && Commit(w, n).1
    ensures
      var (p, docs) := (w.txns[n], Commit(w, n).0.docs);
      && (|Seen(p)| <= p.target && d in Live(w.docs, p.stackId) ==> d in Live(docs, p.stackId))
      && (|Seen(p)| >= p.target && d in Live(docs, p.stackId) ==> d in Live(w.docs, p.stackId))
      && (d in Live(docs, p.stackId) ==>
            docs[d].state == if d in Live(w.docs, p.stackId) then w.docs[d].state else Init)
  {
    var p := w.txns[n];
    assert Pending(w, n, p);
    if d in p.t.snapshot {
      assert d in p.t.writes ==> !Differs(w.docs, p.t.snapshot, d);
      assert d in Live(p.t.snapshot, p.stackId) ==> d in p.t.writes;
      assert |Seen(p)| <= p.target && d in Live(p.t.snapshot, p.stackId) ==> d in Live(p.t.view, p.stackId);
    } else {
      assert |Seen(p)| >= p.target && d in Live(p.t.view, p.stackId) ==> d in Live(p.t.snapshot, p.stackId);
    }
  }

  lemma Union<T>(a: set<T>, b: set<T>, c: set<T>)
    requires forall x :: x in c <==> x in a + b
    requires forall x :: !(x in a && x in b)
    ensures |c| == |a| + |b| && (b == {} <==> |b| == 0)
  {
    assert c == a + b && a !! b;
  }

  lemma UnseenNone(docs: Docs, p: Call)
    ensures Unseen(docs, p) == {} <==> Live(docs, p.stackId) <= Seen(p)
  {
    hide Live, Seen;
    forall d | d in Live(docs, p.stackId) && d !in Seen(p)
      ensures d in Unseen(docs, p)
    {
    }
  }

  lemma TargetInView(w: World, n: nat)
    requires Fresh(w) && n in w.txns && Commit(w, n).1
    ensures |Live(w.txns[n].t.view, w.txns[n].stackId)| == w.txns[n].target
  {
    assert Pending(w, n, w.txns[n]);
  }

  /** Documents that are not live ones of this stack are the same in both. */
  ghost predicate Untouched(docs: Docs, later: Docs, stackId: u64) {
    && (forall d :: d in docs && !IsLive(docs[d], stackId) ==> d in later && later[d] == docs[d])
    && (forall d :: d in later && !IsLive(later[d], stackId) ==> d in docs && docs[d] == later[d])
  }

  lemma OthersUntouched(w: World, n: nat)
    requires Fresh(w) && n in w.txns && Commit(w, n).1
    ensures Untouched(w.docs, Commit(w, n).0.docs, w.txns[n].stackId)
  {
    hide Fresh, Commit, IsLive;
    var (later, stackId) := (Commit(w, n).0.docs, w.txns[n].stackId);
    forall d
      ensures d in w.docs && !IsLive(w.docs[d], stackId) ==> d in later && later[d] == w.docs[d]
      ensures d in later && !IsLive(later[d], stackId) ==> d in w.docs && w.docs[d] == later[d]
    {
      OtherAt(w, n, d);
    }
  }

  lemma OtherAt(w: World, n: nat, d: DocId)
    requires Fresh(w) && n in w.txns && Commit(w, n).1
    ensures
      var (later, stackId) := (Commit(w, n).0.docs, w.txns[n].stackId);
      && (d in w.docs && !IsLive(w.docs[d], stackId) ==> d in later && later[d] == w.docs[d])
      && (d in later && !IsLive(later[d], stackId) ==> d in w.docs && w.docs[d] == later[d])
  {
    var p := w.txns[n];
    assert Pending(w, n, p);
    if d in p.t.writes && d in p.t.snapshot {
      assert !Differs(w.docs, p.t.snapshot, d);
    }
  }

  // ---- what other sessions do meanwhile ----

  predicate IsGone(docs: Docs, snapshot: Docs, d: DocId)
    requires d in snapshot
  {
    d !in docs || docs[d].version > snapshot[d].version
  }

  /** A document the session locked has been written or deleted, for good. */
  ghost predicate Doomed(docs: Docs, p: Call) {
    exists d :: d in Seen(p) && IsGone(docs, p.t.snapshot, d)
  }

  /** The live preloads of the stack are those the session saw, unwritten since. */
  ghost predicate Unchanged(docs: Docs, p: Call) {
    && Live(docs, p.stackId) == Seen(p)
    && forall d :: d in Seen(p) ==> docs[d] == p.t.snapshot[d]
  }

  /** There is a live preload that was not there for the session. */
  ghost predicate Extra(docs: Docs, p: Call) {
    exists d :: d in Live(docs, p.stackId) && d !in p.t.snapshot
  }

  /** Each session is doomed, or sees all there is, or a blind commit has added to its stack. */
  ghost predicate Fate(w: World, p: Call) {
    || Doomed(w.docs, p)
    || (if BlindSince(w.log, p) then Seen(p) == {} || Extra(w.docs, p) else Unchanged(w.docs, p))
  }

  /** A session that began later has seen what the earlier one locked, unless that one is doomed. */
  ghost predicate After(docs: Docs, p: Call, q: Call) {
    && (Doomed(docs, p) || forall d :: d in Seen(p) ==> d in q.t.snapshot && q.t.snapshot[d] == p.t.snapshot[d])
    && (forall d :: d in p.t.snapshot ==> d in q.t.snapshot || d !in docs)
  }

  ghost predicate Inv(w: World) {
    && Fresh(w)
    && (forall n :: n in w.txns ==> Fate(w, w.txns[n]))
    && (forall n, m :: n in w.txns && m in w.txns && n < m ==> After(w.docs, w.txns[n], w.txns[m]))
  }

  lemma DoomedConflicts(docs: Docs, p: Call)
    requires Adjusted(p.t, p.stackId, p.target) && !p.t.aborted && Doomed(docs, p)
    ensures Conflict(docs, p.t)
  {
    var d :| d in Seen(p) && IsGone(docs, p.t.snapshot, d);
    assert d in p.t.writes && Differs(docs, p.t.snapshot, d);
  }

  /** What a successful commit had locked is there as it saw it, and is overwritten. */
  lemma LockedByCommit(w: World, n: nat, d: DocId)
    requires Fresh(w) && n in w.txns && Commit(w, n).1 && d in Seen(w.txns[n])
    ensures d in w.txns[n].t.writes && d in w.docs && w.docs[d] == w.txns[n].t.snapshot[d]
  {
    var p := w.txns[n];
    assert Pending(w, n, p);
    assert d in p.t.writes;
    assert !Differs(w.docs, p.t.snapshot, d);
  }

  /** A document the commit wrote is gone for whoever else saw it. */
  lemma WrittenIsGone(w: World, n: nat, p: Call, d: DocId)
    requires Fresh(w) && n in w.txns && Commit(w, n).1
    requires d in p.t.snapshot && p.t.snapshot[d].version < |w.log| && d in w.txns[n].t.writes
    ensures IsGone(Commit(w, n).0.docs, p.t.snapshot, d)
  {
    hide Fresh, Live, Confined;
  }

  /** Versions only rise, and a deleted document never comes back. */
  lemma StaysGone(w: World, n: nat, m: nat, d: DocId)
    requires Fresh(w) && n in w.txns && m in w.txns && Commit(w, n).1
    requires d in w.txns[m].t.snapshot && IsGone(w.docs, w.txns[m].t.snapshot, d)
    ensures IsGone(Commit(w, n).0.docs, w.txns[m].t.snapshot, d)
  {
    assert Pending(w, m, w.txns[m]) && Pending(w, n, w.txns[n]);
    if d in w.txns[n].t.writes && d in w.txns[n].t.snapshot {
      assert !Differs(w.docs, w.txns[n].t.snapshot, d);
    }
  }

  lemma StaysDoomed(w: World, n: nat, m: nat)
    requires Fresh(w) && n in w.txns && m in w.txns && Commit(w, n).1 && Doomed(w.docs, w.txns[m])
    ensures Doomed(Commit(w, n).0.docs, w.txns[m])
  {
    hide Fresh, Commit;
    var q := w.txns[m];
    var d :| d in Seen(q) && IsGone(w.docs, q.t.snapshot, d);
    StaysGone(w, n, m, d);
  }

  /** Two sessions that locked a document in common: when one commits, the other is doomed. */
  lemma SharedDooms(w: World, n: nat, m: nat, d: DocId)
    requires Fresh(w) && n in w.txns && m in w.txns && Commit(w, n).1
    requires d in Seen(w.txns[n]) && d in Seen(w.txns[m])
    ensures Doomed(Commit(w, n).0.docs, w.txns[m])
  {
    assert Pending(w, m, w.txns[m]);
    hide Commit, Fresh, Pending;
    LockedByCommit(w, n, d);
    WrittenIsGone(w, n, w.txns[m], d);
  }

  lemma PendingOf(w: World, n: nat)
    requires Fresh(w) && n in w.txns
    ensures Pending(w, n, w.txns[n])
  {
  }

  lemma NewInView(p: Call, d: DocId)
    requires Adjusted(p.t, p.stackId, p.target) && Seen(p) == {} && d in Live(p.t.view, p.stackId)
    ensures d.session == p.t.session
  {
    assert d !in Seen(p);
  }

  /** What a session that commits without a lock adds is extra for every other session of the stack. */
  lemma BlindAdds(w: World, n: nat, m: nat)
    requires Fresh(w) && n in w.txns && m in w.txns && m != n && Commit(w, n).1
    requires w.txns[m].stackId == w.txns[n].stackId && Seen(w.txns[n]) == {}
    ensures Extra(Commit(w, n).0.docs, w.txns[m])
  {
    var (p, q) := (w.txns[n], w.txns[m]);
    PendingOf(w, n);
    PendingOf(w, m);
    TargetInView(w, n);
    assert p.target != |Seen(p)|;
    var d :| d in Live(p.t.view, p.stackId);
    OverlayAt(w, n, d);
    NewInView(p, d);
  }

  /** While a session sees all there is, a locking commit on its stack dooms it. */
  lemma LockDooms(w: World, n: nat, m: nat)
    requires Fresh(w) && n in w.txns && m in w.txns && Commit(w, n).1
    requires w.txns[m].stackId == w.txns[n].stackId && Seen(w.txns[n]) != {} && Unchanged(w.docs, w.txns[m])
    ensures Doomed(Commit(w, n).0.docs, w.txns[m])
  {
    hide Fresh, Commit;
    var d :| d in Seen(w.txns[n]);
    LockedByCommit(w, n, d);
    assert d in Live(w.docs, w.txns[m].stackId);
    SharedDooms(w, n, m, d);
  }

  /** An extra preload stays, or the commit that takes it away dooms the session, if it holds a lock. */
  lemma ExtraStays(w: World, n: nat, m: nat)
    requires Inv(w) && n in w.txns && m in w.txns && m != n && Commit(w, n).1
    requires w.txns[m].stackId == w.txns[n].stackId && Seen(w.txns[m]) != {} && Extra(w.docs, w.txns[m])
    ensures Extra(Commit(w, n).0.docs, w.txns[m]) || Doomed(Commit(w, n).0.docs, w.txns[m])
  {
    var (p, q) := (w.txns[n], w.txns[m]);
    PendingOf(w, n);
    PendingOf(w, m);
    var d :| d in Live(w.docs, q.stackId) && d !in q.t.snapshot;
    OverlayAt(w, n, d);
    if d !in Live(Commit(w, n).0.docs, q.stackId) {
      assert d in Seen(p);
      ExtraTaken(w, n, m, d);
    }
  }

  lemma ExtraTaken(w: World, n: nat, m: nat, d: DocId)
    requires Inv(w) && n in w.txns && m in w.txns && m != n && Commit(w, n).1
    requires w.txns[m].stackId == w.txns[n].stackId && Seen(w.txns[m]) != {}
    requires d in w.docs && d in Seen(w.txns[n]) && d !in w.txns[m].t.snapshot
    ensures Doomed(Commit(w, n).0.docs, w.txns[m])
  {
    hide Fresh, Commit;
    var (p, q) := (w.txns[n], w.txns[m]);
    assert n < m ==> After(w.docs, p, q);
    assert m < n && After(w.docs, q, p);
    if Doomed(w.docs, q) {
      StaysDoomed(w, n, m);
    } else {
      var e :| e in Seen(q);
      assert e in Seen(p);
      SharedDooms(w, n, m, e);
    }
  }

  /** A commit on another stack changes nothing for a session. */
  lemma AsideStays(w: World, n: nat, m: nat)
    requires Fresh(w) && n in w.txns && m in w.txns && Commit(w, n).1 && w.txns[m].stackId != w.txns[n].stackId
    ensures Unchanged(w.docs, w.txns[m]) ==> Unchanged(Commit(w, n).0.docs, w.txns[m])
    ensures Extra(w.docs, w.txns[m]) ==> Extra(Commit(w, n).0.docs, w.txns[m])
    ensures BlindSince(Commit(w, n).0.log, w.txns[m]) <==> BlindSince(w.log, w.txns[m])
  {
    hide Commit, Fresh, Seen, BlindSince;
    OthersUntouched(w, n);
    LogGrows(w, n, m);
    var (q, docs) := (w.txns[m], Commit(w, n).0.docs);
    forall d
      ensures d in Live(docs, q.stackId) <==> d in Live(w.docs, q.stackId)
      ensures d in Live(docs, q.stackId) ==> docs[d] == w.docs[d]
    {
    }
  }

  /** Which sessions a commit makes a blind one for. */
  lemma LogGrows(w: World, n: nat, m: nat)
    requires Fresh(w) && n in w.txns && m in w.txns && Commit(w, n).1
    ensures BlindSince(Commit(w, n).0.log, w.txns[m]) <==>
            BlindSince(w.log, w.txns[m]) || (w.txns[m].stackId == w.txns[n].stackId && Seen(w.txns[n]) == {})
  {
    PendingOf(w, m);
    LastEntry(w.log, Entry(w.txns[n].stackId, Seen(w.txns[n]) == {}), w.txns[m]);
  }

  lemma LastEntry(log: seq<Entry>, e: Entry, p: Call)
    requires p.began <= |log|
    ensures BlindSince(log + [e], p) <==> BlindSince(log, p) || e == Entry(p.stackId, true)
  {
    assert (log + [e])[|log|] == e;
    assert forall k :: 0 <= k < |log| ==> (log + [e])[k] == log[k];
    if k :| p.began <= k < |log| && log[k] == Entry(p.stackId, true) {
      assert (log + [e])[k] == Entry(p.stackId, true);
    }
  }

  lemma FateStays(w: World, n: nat, m: nat)
    requires Inv(w) && n in w.txns && m in w.txns && m != n && Commit(w, n).1
    ensures Fate(Commit(w, n).0, w.txns[m])
  {
    hide Commit, Fresh, Seen, Extra, Unchanged, Doomed, BlindSince, After;
    var (p, q) := (w.txns[n], w.txns[m]);
    assert Fate(w, q);
    LogGrows(w, n, m);
    if Doomed(w.docs, q) {
      StaysDoomed(w, n, m);
    } else if q.stackId != p.stackId {
      AsideStays(w, n, m);
    } else if Seen(p) == {} {
      BlindAdds(w, n, m);
    } else if !BlindSince(w.log, q) {
      LockDooms(w, n, m);
    } else if Seen(q) != {} {
      ExtraStays(w, n, m);
    }
  }

  lemma AfterStays(w: World, n: nat, m: nat, l: nat)
    requires Inv(w) && n in w.txns && m in w.txns && l in w.txns && Commit(w, n).1 && m < l
    ensures After(Commit(w, n).0.docs, w.txns[m], w.txns[l])
  {
    hide Commit, Fresh;
    var (p, q) := (w.txns[m], w.txns[l]);
    assert After(w.docs, p, q);
    if Doomed(w.docs, p) {
      StaysDoomed(w, n, m);
    }
    forall d | d in p.t.snapshot && d !in q.t.snapshot
      ensures d !in Commit(w, n).0.docs
    {
      assert d !in w.docs;
      StaysAway(w, n, m, d);
    }
  }

  lemma StaysAway(w: World, n: nat, m: nat, d: DocId)
    requires Fresh(w) && n in w.txns && m in w.txns && Commit(w, n).1 && d in w.txns[m].t.snapshot && d !in w.docs
    ensures d !in Commit(w, n).0.docs
  {
    PendingOf(w, n);
    PendingOf(w, m);
    assert d in w.txns[n].t.snapshot ==> Differs(w.docs, w.txns[n].t.snapshot, d);
  }

  /** Where a document comes from that is there after a commit. */
  lemma OverlayFrom(w: World, n: nat, d: DocId)
    requires Fresh(w) && n in w.txns && Commit(w, n).1 && d in Commit(w, n).0.docs
    ensures d.session == n || (d in w.docs && (Commit(w, n).0.docs[d] == w.docs[d] || d in w.txns[n].t.writes))
    ensures Commit(w, n).0.docs[d].version <= |w.log|
    ensures d in w.txns[n].t.writes ==> Commit(w, n).0.docs[d].version == |w.log|
  {
    PendingOf(w, n);
    if d in w.txns[n].t.writes && d in w.txns[n].t.snapshot {
      assert !Differs(w.docs, w.txns[n].t.snapshot, d);
    }
  }

  lemma PendingStays(w: World, n: nat, m: nat)
    requires Fresh(w) && n in w.txns && m in w.txns && m != n && Commit(w, n).1
    ensures Pending(Commit(w, n).0, m, w.txns[m])
  {
    hide Adjusted, Overlay, Conflict, Fresh, KeptOrNewer;
    PendingOf(w, m);
    var later := Commit(w, n).0;
    forall d | d in later.docs
      ensures d.session != m
      ensures d in w.txns[m].t.snapshot ==> KeptOrNewer(later.docs, w.txns[m].t.snapshot, d)
    {
      KeptAt(w, n, m, d);
    }
  }

  lemma KeptAt(w: World, n: nat, m: nat, d: DocId)
    requires Fresh(w) && n in w.txns && m in w.txns && m != n && Commit(w, n).1 && d in Commit(w, n).0.docs
    ensures d.session != m
    ensures d in w.txns[m].t.snapshot ==> KeptOrNewer(Commit(w, n).0.docs, w.txns[m].t.snapshot, d)
  {
    hide Commit, Adjusted, Fresh;
    PendingOf(w, m);
    OverlayFrom(w, n, d);
  }

  lemma FreshStays(w: World, n: nat)
    requires Fresh(w) && n in w.txns && Commit(w, n).1
    ensures Fresh(Commit(w, n).0)
  {
    hide Pending, Overlay, Conflict;
    var later := Commit(w, n).0;
    PendingBelow(w, n);
    forall d | d in later.docs
      ensures later.docs[d].version < |later.log| && d.session < w.sessions && d.session !in later.txns
    {
      OverlayFrom(w, n, d);
    }
    forall m | m in later.txns
      ensures Pending(later, m, later.txns[m])
    {
      PendingStays(w, n, m);
    }
  }

  lemma CommittedKeeps(w: World, n: nat)
    requires Inv(w) && n in w.txns && Commit(w, n).1
    ensures Inv(Commit(w, n).0)
  {
    hide Fresh, Overlay, Conflict, Fate, After, Seen;
    var later := Commit(w, n).0;
    FreshStays(w, n);
    forall m | m in later.txns
      ensures Fate(later, later.txns[m])
    {
      FateStays(w, n, m);
    }
    forall m, l | m in later.txns && l in later.txns && m < l
      ensures After(later.docs, later.txns[m], later.txns[l])
    {
      AfterStays(w, n, m, l);
    }
  }

  lemma PendingBelow(w: World, n: nat)
    requires Fresh(w) && n in w.txns
    ensures n < w.sessions
  {
    PendingOf(w, n);
  }

  /** A refused commit changes nothing but the list of sessions. */
  lemma RefusedKeeps(w: World, n: nat)
    requires Inv(w) && n in w.txns && !Commit(w, n).1
    ensures Inv(Commit(w, n).0) && Commit(w, n).0.docs == w.docs
  {
    hide Adjusted, Conflict, Fate, After, Doomed;
    var later := Commit(w, n).0;
    forall m | m in later.txns
      ensures Pending(later, m, later.txns[m]) && Fate(later, later.txns[m])
    {
      PendingOf(w, m);
      assert Fate(w, w.txns[m]);
      SameFate(w, later, w.txns[m]);
    }
  }

  lemma SameFate(w: World, later: World, p: Call)
    requires Fate(w, p) && later.docs == w.docs && later.log == w.log
    ensures Fate(later, p)
  {
  }

  lemma BeginKeeps(w: World, p: Call, later: World)
    requires Inv(w) && Begins(w, p, later)
    ensures Inv(later)
  {
    hide Adjusted, Fate, After;
    forall n | n in later.txns
      ensures Pending(later, n, later.txns[n]) && Fate(later, later.txns[n])
    {
      if n == w.sessions {
        NewFate(later, p);
      } else {
        PendingOf(w, n);
        assert Fate(w, w.txns[n]);
        SameFate(w, later, w.txns[n]);
      }
    }
    forall m, l | m in later.txns && l in later.txns && m < l
      ensures After(later.docs, later.txns[m], later.txns[l])
    {
      if l == w.sessions {
        NewAfter(w, m, p);
      } else if m == w.sessions {
        PendingBelow(w, l);
        assert false;
      }
    }
    forall n | n in w.txns
      ensures n < w.sessions
    {
      PendingBelow(w, n);
    }
  }

  lemma NewFate(w: World, p: Call)
    requires p.t.snapshot == w.docs && p.began == |w.log|
    ensures Fate(w, p)
  {
  }

  lemma NewAfter(w: World, m: nat, p: Call)
    requires Fresh(w) && m in w.txns && p.t.snapshot == w.docs
    ensures After(w.docs, w.txns[m], p)
  {
    PendingOf(w, m);
    var q := w.txns[m];
    if !Doomed(w.docs, q) {
      forall d | d in Seen(q)
        ensures d in w.docs && w.docs[d] == q.t.snapshot[d]
      {
        assert !IsGone(w.docs, q.t.snapshot, d);
        assert KeptOrNewer(w.docs, q.t.snapshot, d);
      }
    }
  }

  lemma NextKeeps(w: World, later: World)
    requires Inv(w) && Next(w, later)
    ensures Inv(later)
  {
    hide Inv, Commit, Begins;
    if p :| Begins(w, p, later) {
      BeginKeeps(w, p, later);
    } else {
      var n :| n in w.txns && later == Commit(w, n).0;
      if Commit(w, n).1 {
        CommittedKeeps(w, n);
      } else {
        RefusedKeeps(w, n);
      }
    }
  }

  // ---- the theorems ----

  /** A run: sessions begin and commit, interleaved at will. */
  ghost predicate IsRun(ws: seq<World>) {
    && ws != [] && ws[0].txns == map[]
    && (forall d :: d in ws[0].docs ==> ws[0].docs[d].version < |ws[0].log| && d.session < ws[0].sessions)
    && forall i :: 0 <= i < |ws| - 1 ==> Next(ws[i], ws[i + 1])
  }

  lemma {:induction false} RunInv(ws: seq<World>, i: nat)
    requires IsRun(ws) && i < |ws|
    ensures Inv(ws[i])
  {
    hide Inv, Next;
    if i == 0 {
      StartInv(ws[0]);
    } else {
      RunInv(ws, i - 1);
      assert Next(ws[i - 1], ws[i - 1 + 1]);
      NextKeeps(ws[i - 1], ws[i]);
    }
  }

  lemma StartInv(w: World)
    requires w.txns == map[]
    requires forall d :: d in w.docs ==> w.docs[d].version < |w.log| && d.session < w.sessions
    ensures Inv(w)
  {
  }

  /**
   * In every interleaving, an adjust that commits leaves its target of live preloads for its stack
   * plus those it never saw: exactly the target if and only if there are none of these. No document
   * of another stack and no deleting one changes, comes or goes.
   */
  lemma CommitCounts(ws: seq<World>, i: nat, n: nat)
    requires IsRun(ws) && i < |ws| && n in ws[i].txns && Commit(ws[i], n).1
    ensures
      var (p, docs) := (ws[i].txns[n], Commit(ws[i], n).0.docs);
      && |Live(docs, p.stackId)| == p.target + |Unseen(ws[i].docs, p)|
      && (|Live(docs, p.stackId)| == p.target <==> Live(ws[i].docs, p.stackId) <= Seen(p))
      && (|Seen(p)| <= p.target ==> Live(ws[i].docs, p.stackId) <= Live(docs, p.stackId))
      && (|Seen(p)| >= p.target ==> Live(docs, p.stackId) <= Live(ws[i].docs, p.stackId))
      && Untouched(ws[i].docs, docs, p.stackId)
  {
    hide IsRun, Commit, Fresh, Live, Seen, Unseen, Untouched;
    RunInv(ws, i);
    CommitLeaves(ws[i], n);
  }

  /**
   * A session that held a lock commits to exactly its target if and only if no session that had
   * seen no live preload of the stack committed since its snapshot. A session that held none does
   * if and only if there is no live preload at its commit. Without such a commit every session does.
   */
  lemma CommitIsExact(ws: seq<World>, i: nat, n: nat)
    requires IsRun(ws) && i < |ws| && n in ws[i].txns && Commit(ws[i], n).1
    ensures
      var (p, docs) := (ws[i].txns[n], Commit(ws[i], n).0.docs);
      && (Seen(p) != {} ==> (|Live(docs, p.stackId)| == p.target <==> !BlindSince(ws[i].log, p)))
      && (Seen(p) == {} ==> (|Live(docs, p.stackId)| == p.target <==> Live(ws[i].docs, p.stackId) == {}))
      && (!BlindSince(ws[i].log, p) ==> |Live(docs, p.stackId)| == p.target)
  {
    hide IsRun, Fresh, Live, Seen, Unseen, Untouched, BlindSince, Overlay;
    RunInv(ws, i);
    CommitCounts(ws, i, n);
    var p := ws[i].txns[n];
    PendingOf(ws[i], n);
    assert Fate(ws[i], p);
    if Doomed(ws[i].docs, p) {
      DoomedConflicts(ws[i].docs, p);
      assert false;
    }
    ExtraUnseen(ws[i].docs, p);
  }

  lemma ExtraUnseen(docs: Docs, p: Call)
    ensures Extra(docs, p) ==> !(Live(docs, p.stackId) <= Seen(p))
  {
    if d :| d in Live(docs, p.stackId) && d !in p.t.snapshot {
      assert d !in Seen(p);
    }
  }

  // ---- starting from nothing ----

  /** Two sessions take the same snapshot, run adjust to targets other than what is there, and commit in turn. */
  ghost predicate Race(docs: Docs, p: Call, q: Call) {
    && p.stackId == q.stackId && p.t.session != q.t.session
    && p.t.snapshot == docs && q.t.snapshot == docs
    && Adjusted(p.t, p.stackId, p.target) && Adjusted(q.t, q.stackId, q.target)
    && !p.t.aborted && !q.t.aborted
  }

  /**
   * With one snapshot between them, the second commit is refused exactly if there was a live
   * preload to lock. Otherwise both go through and the stack ends up with the sum of the targets.
   */
  lemma RaceNeedsLock(docs: Docs, p: Call, q: Call, version: nat)
    requires Race(docs, p, q) && forall d :: d in docs ==> docs[d].version < version
    ensures !Conflict(docs, p.t)
    ensures
      var once := Overlay(docs, p.t, version);
      && (Conflict(once, q.t) <==> Live(docs, p.stackId) != {})
      && (Live(docs, p.stackId) == {} ==>
            |Live(Overlay(once, q.t, version + 1), p.stackId)| == p.target + q.target)
  {
    var once := Overlay(docs, p.t, version);
    if d :| d in Live(docs, p.stackId) {
      assert d in p.t.writes && d in q.t.writes && Differs(once, docs, d);
    } else {
      assert Live(docs, p.stackId) == {};
      NoneLocked(docs, p, q, version);
    }
  }

  lemma NoneLocked(docs: Docs, p: Call, q: Call, version: nat)
    requires Race(docs, p, q) && Live(docs, p.stackId) == {}
    ensures
      var once := Overlay(docs, p.t, version);
      && !Conflict(once, q.t)
      && |Live(Overlay(once, q.t, version + 1), p.stackId)| == p.target + q.target
  {
    hide Adjusted, Confined, Live;
    RaceConfined(docs, p, q);
    var once := Overlay(docs, p.t, version);
    var twice := Overlay(once, q.t, version + 1);
    var (a, b) := (Live(p.t.view, p.stackId), Live(q.t.view, p.stackId));
    forall d
      ensures d in Live(twice, p.stackId) <==> d in a + b
      ensures !(d in a && d in b)
      ensures d in q.t.writes ==> d !in docs
    {
      NewAt(docs, p, d);
      NewAt(docs, q, d);
      TwiceAt(docs, p, q, version, d);
    }
    assert Live(twice, p.stackId) == a + b && a !! b;
  }

  lemma RaceConfined(docs: Docs, p: Call, q: Call)
    requires Race(docs, p, q)
    ensures Confined(p.t, p.stackId) && Confined(q.t, q.stackId)
    ensures |Live(p.t.view, p.stackId)| == p.target && |Live(q.t.view, q.stackId)| == q.target
  {
  }

  lemma TwiceAt(docs: Docs, p: Call, q: Call, version: nat, d: DocId)
    requires Race(docs, p, q) && Live(docs, p.stackId) == {}
    ensures d in Live(Overlay(Overlay(docs, p.t, version), q.t, version + 1), p.stackId) <==>
            d in Live(p.t.view, p.stackId) || d in Live(q.t.view, p.stackId)
  {
    NewAt(docs, p, d);
    NewAt(docs, q, d);
    assert d in Live(docs, p.stackId) <==> d in docs && IsLive(docs[d], p.stackId);
  }

  lemma NewAt(docs: Docs, p: Call, d: DocId)
    requires p.t.snapshot == docs && Confined(p.t, p.stackId) && Live(docs, p.stackId) == {}
    ensures d in Live(p.t.view, p.stackId) <==> d in p.t.view && d !in docs
    ensures d in p.t.writes ==> d !in docs
    ensures d in p.t.view && d !in docs ==> d.session == p.t.session && d in p.t.writes
  {
    assert d in Live(docs, p.stackId) <==> d in docs && IsLive(docs[d], p.stackId);
  }

  /** One replica asked for twice at once, for a stack that has none: two replicas. */
  lemma DoubledExample()
    ensures
      var (d, e, doc) := (DocId(0, 0), DocId(1, 0), Doc(7, Init, 0));
      var p := Call(Txn(0, map[], map[d := doc], {d}, false), 7, 1, 0);
      var q := Call(Txn(1, map[], map[e := doc], {e}, false), 7, 1, 0);
      && Race(map[], p, q)
      && |Live(Overlay(Overlay(map[], p.t, 0), q.t, 1), 7)| == 2
  {
    var (d, e, doc) := (DocId(0, 0), DocId(1, 0), Doc(7, Init, 0));
    var p := Call(Txn(0, map[], map[d := doc], {d}, false), 7, 1, 0);
    var q := Call(Txn(1, map[], map[e := doc], {e}, false), 7, 1, 0);
    assert Live(map[d := doc], 7) == {d} && Live(map[e := doc], 7) == {e} && Live(map[], 7) == {};
    assert Race(map[], p, q);
    RaceNeedsLock(map[], p, q, 0);
  }

  // One stack, 7, and three sessions that insert a, b and c into it.
  const DOC_A := DocId(0, 0)
  const DOC_B := DocId(1, 0)
  const DOC_C := DocId(2, 0)

  function Version(n: nat): Doc { Doc(7, Init, n) }

  const CALL_A := Call(Txn(0, map[], map[DOC_A := Version(0)], {DOC_A}, false), 7, 1, 0)
  const CALL_B := Call(Txn(1, map[], map[DOC_B := Version(0)], {DOC_B}, false), 7, 1, 0)
  const CALL_C :=
    Call(Txn(2, map[DOC_A := Version(0)], map[DOC_A := Version(0), DOC_C := Version(0)], {DOC_A, DOC_C}, false),
         7, 2, 1)

  lemma CallsAdjusted()
    ensures Adjusted(CALL_A.t, 7, 1) && Adjusted(CALL_B.t, 7, 1) && Adjusted(CALL_C.t, 7, 2)
    ensures Seen(CALL_A) == {} && Seen(CALL_B) == {} && Seen(CALL_C) == {DOC_A}
  {
    assert Live(map[], 7) == {} && Live(map[DOC_A := Version(0)], 7) == {DOC_A};
    assert Live(map[DOC_B := Version(0)], 7) == {DOC_B};
    assert Live(map[DOC_A := Version(0), DOC_C := Version(0)], 7) == {DOC_A, DOC_C};
  }

  lemma CallsOverlaid()
    ensures Overlay(map[], CALL_A.t, 0) == map[DOC_A := Version(0)]
    ensures Overlay(map[DOC_A := Version(0)], CALL_B.t, 1) == map[DOC_A := Version(0), DOC_B := Version(1)]
  {
  }

  lemma LastOverlaid()
    ensures
      var docs := Overlay(map[DOC_A := Version(0), DOC_B := Version(1)], CALL_C.t, 2);
      |Live(docs, 7)| == 3
  {
    var docs := Overlay(map[DOC_A := Version(0), DOC_B := Version(1)], CALL_C.t, 2);
    assert docs == map[DOC_A := Version(2), DOC_B := Version(1), DOC_C := Version(2)];
    assert Live(docs, 7) == {DOC_A, DOC_B, DOC_C};
  }

  /**
   * A lock does not help beside a session without one: a and b find nothing and want one replica
   * each, a commits, c sees and locks that replica and wants two, b commits, c commits: three.
   */
  lemma BesideLockExample()
    ensures
      var w1 := World(map[], [], 2, map[0 := CALL_A, 1 := CALL_B]);
      var w2 := Commit(w1, 0).0;
      var w3 := World(w2.docs, w2.log, 3, w2.txns[2 := CALL_C]);
      var w4 := Commit(w3, 1).0;
      && Begins(World(map[], [], 0, map[]), CALL_A, World(map[], [], 1, map[0 := CALL_A]))
      && Begins(World(map[], [], 1, map[0 := CALL_A]), CALL_B, w1)
      && Commit(w1, 0).1 && Begins(w2, CALL_C, w3) && Commit(w3, 1).1 && Commit(w4, 2).1
      && Seen(CALL_C) == {DOC_A} && CALL_C.target == 2 && |Live(Commit(w4, 2).0.docs, 7)| == 3
  {
    hide Adjusted, Overlay, Live;
    CallsAdjusted();
    CallsOverlaid();
    LastOverlaid();
  }
}
