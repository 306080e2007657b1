/** The Rust LocalWriter over a directory that records every instant a crash could strike. */
module LocalWriter {
  import opened Bytes
  import opened Crash
  import opened IndexId
  import opened MetaJson
  import opened Paths
  import opened ReadBack
  import opened Records
  import opened StackLog

  const LOCAL_STACK_ID: u64 := U64 - 1
  const DEFAULT_MAX_DATA_BYTES: nat := 5 * 1024 * 1024 * 1024

  /**
   * A directory. The ghost fields hold the stacks its writers mean to write, the stacks as far as
   * put has returned their ids, and the disk after every single file operation.
   */
  class Dir {
    const prefix: Text
    var files: Files
    ghost var logs: seq<Stack>
    ghost var acked: seq<Stack>
    ghost var history: seq<Snapshot>

    /** Whatever was in the directory before; nothing of it is vouched for. */
    constructor (prefix: Text, files: Files)
      ensures Valid() && this.prefix == prefix && this.files == files && logs == []
    {
      this.prefix := prefix;
      this.files := files;
      logs, acked := [], [];
      history := [Snapshot(files, [])];
    }

    /** A crash at any instant of the run so far was harmless. */
    ghost predicate Valid()
      reads this
    {
      && Distinct(logs)
      && history != [] && Last(history) == Snapshot(files, acked) && Chain(history)
      && (forall h :: h in history ==> Safe(h, prefix, logs) && h.files.Keys <= files.Keys)
      && (forall j, k: Suffix :: 0 <= j < |logs| ==> Path(prefix, logs[j].fileId, k) in files)
    }

    /** The state of one file of the newest stack. */
    ghost function Tail(k: Suffix): DiskFile
      requires logs != []
      reads this
    {
      FileOf(files, prefix, Last(logs), k)
    }

    /** One file of the newest stack is written and synced in full. */
    ghost predicate OnDisk(k: Suffix)
      reads this
    {
      logs != [] && Tail(k) == DiskFile(Full(Last(logs), k), |Full(Last(logs), k)|)
    }

    /** All stacks but the newest are complete. */
    ghost predicate Building()
      reads this
    {
      && Valid()
      && logs != []
      && AllWritten(files, prefix, Init(logs))
      && AllDurable(files, prefix, Init(logs))
    }

    /** Everything planned is written in full, and everything returned. */
    ghost predicate Settled()
      reads this
    {
      && Valid()
      && acked == logs
      && AllWritten(files, prefix, logs)
    }

    /** OpenOptions::create_new: refuses an existing name, and may fail for other reasons. */
    method CreateNew(path: Text, works: bool) returns (ok: bool)
      modifies this
      ensures ok <==> works && path !in old(files)
      ensures files == if ok then old(files)[path := EMPTY] else old(files)
      ensures logs == old(logs) && acked == old(acked)
      ensures history == old(history) + [Snapshot(files, acked)]
    {
      ok := works && path !in files;
      if ok {
        files := files[path := EMPTY];
      }
      history := history + [Snapshot(files, acked)];
    }

    method Write(path: Text, bytes: seq<byte>)
      modifies this
      ensures files == Written(old(files), path, bytes)
      ensures logs == old(logs) && acked == old(acked)
      ensures history == old(history) + [Snapshot(files, acked)]
    {
      files := Written(files, path, bytes);
      history := history + [Snapshot(files, acked)];
    }

    method SyncAll(path: Text)
      modifies this
      ensures files == Synced(old(files), path)
      ensures logs == old(logs) && acked == old(acked)
      ensures history == old(history) + [Snapshot(files, acked)]
    {
      files := Synced(files, path);
      history := history + [Snapshot(files, acked)];
    }

    lemma ReturnMore(h: Snapshot)
      requires Acked(h, prefix, logs)
      ensures Extended(h.acked, logs)
    {
      hide Chain, Durable;
    }

    /** Everything planned so far has been returned to the caller. */
    ghost method Acknowledge()
      requires Valid()
      requires AllDurable(files, prefix, logs)
      modifies this
      ensures Valid() && acked == logs == old(logs) && files == old(files)
      ensures old(history) <= history
    {
      hide Chain, Ordered, Durable, Path;
      assert Safe(Snapshot(files, logs), prefix, logs);
      ReturnMore(Last(history));
      ChainGrows(history, Snapshot(files, logs));
      acked := logs;
      history := history + [Snapshot(files, acked)];
    }
  }

  // ---- probing for a local id ----

  /** The data files of the ids from a up to b. */
  ghost function Names(prefix: Text, a: nat, b: nat): set<Text>
    requires a <= b
    decreases b - a
  {
    if a == b then {} else Names(prefix, a, b - 1) + {Path(prefix, b - 1, Data)}
  }

  lemma {:induction false} NamesCount(prefix: Text, a: nat, b: nat)
    requires a <= b
    ensures |Names(prefix, a, b)| == b - a
    ensures forall p :: p in Names(prefix, a, b) ==> exists t :: a <= t < b && p == Path(prefix, t, Data)
    decreases b - a
  {
    hide Chain, Path;
    if a < b {
      NamesCount(prefix, a, b - 1);
      if Path(prefix, b - 1, Data) in Names(prefix, a, b - 1) {
        var t :| a <= t < b - 1 && Path(prefix, b - 1, Data) == Path(prefix, t, Data);
        PathInjective(prefix, b - 1, Data, t, Data);
        assert false;
      }
    }
  }

  /** Distinct ids have distinct names, so a run of taken ids is no longer than the directory. */
  lemma TakenRun(files: Files, prefix: Text, a: nat, b: nat)
    requires a <= b && forall t :: a <= t < b ==> Path(prefix, t, Data) in files
    ensures b - a <= |files|
  {
    NamesCount(prefix, a, b);
    assert Names(prefix, a, b) <= files.Keys;
    SubsetSize(Names(prefix, a, b), files.Keys);
  }

  lemma {:induction false} SubsetSize<T>(a: set<T>, b: set<T>)
    requires a <= b
    ensures |a| <= |b|
    decreases a
  {
    if x :| x in a {
      SubsetSize(a - {x}, b - {x});
    }
  }

  /** The probe stops after at most one name per file, at the least free id not before the clock. */
  method Probe(files: Files, prefix: Text, clock: nat) returns (ts: nat)
    ensures clock <= ts <= clock + |files|
    ensures Path(prefix, ts, Data) !in files
    ensures forall t :: clock <= t < ts ==> Path(prefix, t, Data) in files
  {
    ts := clock;
    TakenRun(files, prefix, clock, ts);
    while Path(prefix, ts, Data) in files
      invariant clock <= ts <= clock + |files|
      invariant forall t :: clock <= t < ts ==> Path(prefix, t, Data) in files
      decreases clock + |files| - ts
    {
      TakenRun(files, prefix, clock, ts + 1);
      ts := ts + 1;
    }
  }

  /** None of the files of a stack is there. */
  ghost predicate AllFree(files: Files, prefix: Text, id: u64) {
    forall k: Suffix :: Path(prefix, id, k) !in files
  }

  /** The least id at or after the clock whose data file is not there. */
  ghost predicate FirstFree(files: Files, prefix: Text, clock: u64, id: u64) {
    && clock <= id && Path(prefix, id, Data) !in files
    && forall t: u64 :: clock <= t < id ==> Path(prefix, t, Data) in files
  }

  lemma OneFirstFree(files: Files, prefix: Text, clock: u64, id: u64, other: u64)
    requires FirstFree(files, prefix, clock, id) && FirstFree(files, prefix, clock, other)
    ensures id == other
  {
    hide Path;
  }

  // ---- what a call leaves alone ----

  /** Nothing but files of these stacks differs. */
  ghost predicate Spares(files: Files, later: Files, prefix: Text, ids: iset<u64>) {
    forall p :: !OfStacks(prefix, ids, p) ==> (p in later <==> p in files) && At(later, p) == At(files, p)
  }

  lemma SparesOne(files: Files, later: Files, prefix: Text, id: u64, k: Suffix)
    requires forall p :: p != Path(prefix, id, k) ==> (p in later <==> p in files) && At(later, p) == At(files, p)
    ensures Spares(files, later, prefix, iset{id})
  {
    hide Path, At;
    assert OfStacks(prefix, iset{id}, Path(prefix, id, k));
  }

  lemma SparesThrough(a: Files, b: Files, c: Files, prefix: Text, ids: iset<u64>)
    requires Spares(a, b, prefix, ids) && Spares(b, c, prefix, ids)
    ensures Spares(a, c, prefix, ids)
  {
    hide At, OfStacks;
    forall p | !OfStacks(prefix, ids, p)
      ensures (p in c <==> p in a) && At(c, p) == At(a, p)
    {
      assert (p in b <==> p in a) && At(b, p) == At(a, p);
    }
  }

  lemma SparesMore(files: Files, later: Files, prefix: Text, ids: iset<u64>, more: iset<u64>)
    requires Spares(files, later, prefix, ids) && ids <= more
    ensures Spares(files, later, prefix, more)
  {
    hide At, Path;
    forall p | !OfStacks(prefix, more, p)
      ensures !OfStacks(prefix, ids, p)
    {
    }
  }

  lemma SparesAll(files: Files, prefix: Text, ids: iset<u64>)
    ensures Spares(files, files, prefix, ids)
  {
  }

  // ---- the writer ----

  /** Which header writes fail while a stack is opened. */
  datatype Heads = Heads(magic: Fault, zeros: Fault, index: Fault, meta: Fault)

  /** Which creates would work on a free name. */
  datatype Creates = Creates(data: bool, index: bool, meta: bool)

  /** Which other calls of the file system work: the existence test, and flush and sync of each file. */
  datatype Disk = Disk(probe: bool, data: bool, meta: bool, index: bool, creates: Creates, heads: Heads)

  const GOOD_DISK := Disk(true, true, true, true, Creates(true, true, true), Heads(None, None, None, None))

  /** create gets as far as this file of a stack, in the order data, idx, meta, and makes it. */
  predicate Creating(files: Files, prefix: Text, id: u64, creates: Creates, k: Suffix) {
    var data := creates.data && Path(prefix, id, Data) !in files;
    var index := data && creates.index && Path(prefix, id, Idx) !in files;
    match k
    case Data => data
    case Idx => index
    case Meta => index && creates.meta && Path(prefix, id, Meta) !in files
  }

  function CreatedOne(files: Files, path: Text, made: bool): Files {
    if made then files[path := EMPTY] else files
  }

  /** What the three creates leave of the directory. */
  function Created(files: Files, prefix: Text, id: u64, creates: Creates): (later: Files)
    ensures forall p :: p in files ==> p in later && later[p] == files[p]
    ensures forall p :: p in later && p !in files ==>
      later[p] == EMPTY && exists k: Suffix :: p == Path(prefix, id, k) && Creating(files, prefix, id, creates, k)
  {
    var data := CreatedOne(files, Path(prefix, id, Data), Creating(files, prefix, id, creates, Data));
    var index := CreatedOne(data, Path(prefix, id, Idx), Creating(files, prefix, id, creates, Idx));
    CreatedOne(index, Path(prefix, id, Meta), Creating(files, prefix, id, creates, Meta))
  }

  lemma CreatedEmpty(files: Files, prefix: Text, id: u64, creates: Creates)
    ensures forall k :: Creating(files, prefix, id, creates, k) ==>
      At(Created(files, prefix, id, creates), Path(prefix, id, k)) == EMPTY
    ensures forall k ::
      Path(prefix, id, k) in Created(files, prefix, id, creates) <==>
      Path(prefix, id, k) in files || Creating(files, prefix, id, creates, k)
  {
    hide Path;
    PathInjective(prefix, id, Data, id, Idx);
    PathInjective(prefix, id, Data, id, Meta);
    PathInjective(prefix, id, Idx, id, Meta);
    forall k
      ensures Path(prefix, id, k) in Created(files, prefix, id, creates) <==>
              Path(prefix, id, k) in files || Creating(files, prefix, id, creates, k)
      ensures Creating(files, prefix, id, creates, k) ==>
        At(Created(files, prefix, id, creates), Path(prefix, id, k)) == EMPTY
    {
      match k
      case Data =>
      case Idx =>
      case Meta =>
    }
  }

  lemma CreatedSpares(files: Files, prefix: Text, id: u64, creates: Creates)
    ensures Spares(files, Created(files, prefix, id, creates), prefix, iset{id})
  {
    hide Path, Created, Creating;
    forall p | p in Created(files, prefix, id, creates) && p !in files
      ensures OfStacks(prefix, iset{id}, p)
    {
    }
  }

  /** What the header writes, data, idx, meta in this order, leave of each file. */
  function HeadLeft(heads: Heads, id: u64, k: Suffix): seq<byte> {
    match k
    case Data =>
      if heads.magic.Some? then Landed(MagicHeader(DATA_MAGIC, id), heads.magic)
      else MagicHeader(DATA_MAGIC, id) + Landed(Zeros(4080), heads.zeros)
    case Idx =>
      if heads.magic.Some? || heads.zeros.Some? then [] else Landed(MagicHeader(INDEX_MAGIC, id), heads.index)
    case Meta =>
      if heads.magic.Some? || heads.zeros.Some? || heads.index.Some? then [] else Landed(HeaderLine(id), heads.meta)
  }

  function Rank(k: Suffix): nat {
    match k
    case Data => 0
    case Idx => 1
    case Meta => 2
  }

  /** The first file that is refused: data, idx, meta; 3 is none. */
  function FirstRefused(files: Files, prefix: Text, id: u64, creates: Creates): nat {
    if !creates.data || Path(prefix, id, Data) in files then 0
    else if !creates.index || Path(prefix, id, Idx) in files then 1
    else if !creates.meta || Path(prefix, id, Meta) in files then 2
    else 3
  }

  /** The header write that fails: magic and zeros of the data file, idx, meta; 4 is none. */
  function FirstFault(heads: Heads): nat {
    if heads.magic.Some? then 0
    else if heads.zeros.Some? then 1
    else if heads.index.Some? then 2
    else if heads.meta.Some? then 3
    else 4
  }

  /** Every create and every write before the first that fails is done in full, none behind it is begun. */
  lemma OpeningStops(files: Files, prefix: Text, id: u64, creates: Creates, heads: Heads, k: Suffix)
    ensures Creating(files, prefix, id, creates, k) <==> Rank(k) < FirstRefused(files, prefix, id, creates)
    ensures creates == GOOD_DISK.creates && AllFree(files, prefix, id) <==>
            FirstRefused(files, prefix, id, creates) == 3
    ensures heads == GOOD_DISK.heads <==> FirstFault(heads) == 4
    ensures
      var stop := FirstFault(heads);
      && HeadLeft(heads, id, Data) ==
           WrittenBy(0, stop, MagicHeader(DATA_MAGIC, id), heads.magic) + WrittenBy(1, stop, Zeros(4080), heads.zeros)
      && HeadLeft(heads, id, Idx) == WrittenBy(2, stop, MagicHeader(INDEX_MAGIC, id), heads.index)
      && HeadLeft(heads, id, Meta) == WrittenBy(3, stop, HeaderLine(id), heads.meta)
  {
    hide MagicHeader, HeaderLine, Path, Zeros;
    if Path(prefix, id, Data) !in files && Path(prefix, id, Idx) !in files && Path(prefix, id, Meta) !in files {
      forall l: Suffix
        ensures Path(prefix, id, l) !in files
      {
        match l
        case Data =>
        case Idx =>
        case Meta =>
      }
    }
    if heads.magic.Some? {
      assert Landed(MagicHeader(DATA_MAGIC, id), heads.magic) + [] == Landed(MagicHeader(DATA_MAGIC, id), heads.magic);
    }
  }

  /** Nothing keeps a stack from being opened: an id whose names are free, and no failing call. */
  ghost predicate Opens(files: Files, prefix: Text, controller: bool, reply: Option<u64>, clock: u64, disk: Disk) {
    && disk.creates == GOOD_DISK.creates && disk.heads == GOOD_DISK.heads
    && if controller then reply.Some? && AllFree(files, prefix, reply.value)
       else disk.probe && exists t :: FirstFree(files, prefix, clock, t) && AllFree(files, prefix, t)
  }

  /** The file id and header id a new stack gets: the controller's twice, or the first free one and u64::MAX. */
  ghost predicate OpensAs(files: Files, prefix: Text, controller: bool, reply: Option<u64>, clock: u64, fileId: u64,
                          headerId: u64) {
    if controller then reply == Some(fileId) && headerId == fileId
    else FirstFree(files, prefix, clock, fileId) && headerId == 0xFFFF_FFFF_FFFF_FFFF
  }

  ghost predicate MayOpen(files: Files, prefix: Text, controller: bool, reply: Option<u64>, clock: u64, id: u64) {
    exists headerId: u64 :: OpensAs(files, prefix, controller, reply, clock, id, headerId)
  }

  /** The stacks whose files opening may create. */
  ghost function NewStacks(files: Files, prefix: Text, controller: bool, reply: Option<u64>, clock: u64): iset<u64> {
    iset id: u64 | MayOpen(files, prefix, controller, reply, clock, id)
  }

  /** The files there are once opening is over, whether it worked or not, and what the new ones hold. */
  ghost predicate OpeningLeaves(files: Files, later: Files, prefix: Text, controller: bool, reply: Option<u64>,
                                clock: u64, disk: Disk) {
    if if controller then reply.None? else !disk.probe then later.Keys == files.Keys
    else forall id: u64, headerId: u64 :: OpensAs(files, prefix, controller, reply, clock, id, headerId) ==>
           && later.Keys == Created(files, prefix, id, disk.creates).Keys
           && forall k: Suffix :: Creating(files, prefix, id, disk.creates, k) ==>
                At(later, Path(prefix, id, k)).bytes ==
                if disk.creates == GOOD_DISK.creates && AllFree(files, prefix, id)
                then HeadLeft(disk.heads, headerId, k) else []
  }

  lemma CreatedNames(files: Files, later: Files, prefix: Text, id: u64, creates: Creates)
    requires files.Keys == later.Keys
    ensures Created(files, prefix, id, creates).Keys == Created(later, prefix, id, creates).Keys
    ensures forall k :: Creating(files, prefix, id, creates, k) <==> Creating(later, prefix, id, creates, k)
    ensures AllFree(files, prefix, id) <==> AllFree(later, prefix, id)
  {
    hide Path;
    assert forall p :: p in files <==> p in later;
  }

  /** What opening leaves depends on the names that were there only. */
  lemma SameLeaves(files: Files, same: Files, later: Files, prefix: Text, controller: bool, reply: Option<u64>,
                   clock: u64, disk: Disk)
    requires files.Keys == same.Keys && OpeningLeaves(same, later, prefix, controller, reply, clock, disk)
    ensures OpeningLeaves(files, later, prefix, controller, reply, clock, disk)
    ensures NewStacks(files, prefix, controller, reply, clock) == NewStacks(same, prefix, controller, reply, clock)
  {
    hide Path, Created, Creating, AllFree, OpensAs, HeadLeft;
    SameNames(files, same, prefix, controller, reply, clock, disk);
    if !if controller then reply.None? else !disk.probe {
      forall id: u64, headerId: u64 | OpensAs(files, prefix, controller, reply, clock, id, headerId)
        ensures later.Keys == Created(files, prefix, id, disk.creates).Keys
        ensures forall k: Suffix :: Creating(files, prefix, id, disk.creates, k) ==>
                At(later, Path(prefix, id, k)).bytes ==
                if disk.creates == GOOD_DISK.creates && AllFree(files, prefix, id)
                then HeadLeft(disk.heads, headerId, k) else []
      {
        CreatedNames(files, same, prefix, id, disk.creates);
        assert OpensAs(same, prefix, controller, reply, clock, id, headerId);
      }
    }
  }

  /** Both depend on the names only. */
  lemma SameNames(files: Files, later: Files, prefix: Text, controller: bool, reply: Option<u64>, clock: u64,
                  disk: Disk)
    requires files.Keys == later.Keys
    ensures Opens(files, prefix, controller, reply, clock, disk) <==>
            Opens(later, prefix, controller, reply, clock, disk)
    ensures forall fileId, headerId ::
      OpensAs(files, prefix, controller, reply, clock, fileId, headerId) <==>
      OpensAs(later, prefix, controller, reply, clock, fileId, headerId)
  {
    hide Path;
    assert forall p :: p in files <==> p in later;
    assert forall t :: FirstFree(files, prefix, clock, t) <==> FirstFree(later, prefix, clock, t);
    assert forall t :: AllFree(files, prefix, t) <==> AllFree(later, prefix, t);
  }

  datatype OpenResult = OpenOk | OpenIoFailed | OpenNoStackId

  datatype PutResult = PutOk(id: Text) | StackClosed | StackFull | IoFailed | NoStackId

  /** The records of the stacks from base on, in order. */
  function Gather(logs: seq<Stack>, base: nat): seq<Rec> {
    if |logs| <= base then [] else Gather(Init(logs), base) + Last(logs).recs
  }

  /** Every stack is within the limit, and each ends only where the next payload would overflow it. */
  ghost predicate Greedy(logs: seq<Stack>, base: nat, limit: nat) {
    && (forall j :: base <= j < |logs| ==> RawTotal(logs[j].recs) <= limit)
    && (forall j :: base < j < |logs| ==>
          logs[j].recs != [] && RawTotal(logs[j - 1].recs) + |logs[j].recs[0].payload| > limit)
  }

  /** The stacks after one more record under the greedy rule; ids are those of a new stack, if one is needed. */
  function Accepted(logs: seq<Stack>, r: Rec, limit: nat, fileId: u64, headerId: u64): seq<Stack>
    requires logs != []
  {
    if RawTotal(Last(logs).recs) + |r.payload| <= limit then logs[|logs| - 1 := Last(logs).With(r)]
    else logs + [Stack(fileId, headerId, [r])]
  }

  lemma GatherWith(logs: seq<Stack>, base: nat, r: Rec)
    requires base < |logs|
    ensures Gather(logs[|logs| - 1 := Last(logs).With(r)], base) == Gather(logs, base) + [r]
  {
    var later := logs[|logs| - 1 := Last(logs).With(r)];
    assert Init(later) == Init(logs);
    assert Gather(Init(logs), base) + (Last(logs).recs + [r]) == Gather(Init(logs), base) + Last(logs).recs + [r];
  }

  lemma GatherNew(logs: seq<Stack>, base: nat, s: Stack)
    requires base <= |logs|
    ensures Gather(logs + [s], base) == Gather(logs, base) + s.recs
  {
    assert Init(logs + [s]) == logs;
  }

  lemma TotalWith(s: Stack, r: Rec)
    ensures RawTotal(s.With(r).recs) == RawTotal(s.recs) + |r.payload|
  {
    hide DataBytes, MetaBytes, IdxBytes, SlotOf, Line, EncodeIndex, EntryOf, LastEntry;
    Extend(s.headerId, s.recs, r);
  }

  /** Greedy rotation partitions what was accepted, in order, whichever way a record went. */
  lemma AcceptedKeepsOrder(logs: seq<Stack>, base: nat, limit: nat, r: Rec, fileId: u64, headerId: u64)
    requires base < |logs| && Greedy(logs, base, limit) && |r.payload| <= limit
    ensures Greedy(Accepted(logs, r, limit, fileId, headerId), base, limit)
    ensures Gather(Accepted(logs, r, limit, fileId, headerId), base) == Gather(logs, base) + [r]
  {
    hide Gather, RawTotal;
    var n := |logs| - 1;
    GatherWith(logs, base, r);
    GatherNew(logs, base, Stack(fileId, headerId, [r]));
    TotalWith(Last(logs), r);
    TotalWith(Stack(fileId, headerId, []), r);
    NoTotal();
    assert [] + [r] == [r];
    assert Greedy(logs, base, limit);
  }

  lemma StartsGreedy(logs: seq<Stack>, s: Stack, limit: nat)
    requires s.recs == []
    ensures Greedy(logs + [s], |logs|, limit) && Gather(logs + [s], |logs|) == []
  {
    GatherNew(logs, |logs|, s);
  }

  lemma AcceptedIs(logs: seq<Stack>, r: Rec, limit: nat, fileId: u64, headerId: u64)
    requires logs != []
    ensures
      RawTotal(Last(logs).recs) + |r.payload| <= limit ==>
        Accepted(logs, r, limit, fileId, headerId) == logs[|logs| - 1 := Last(logs).With(r)]
    ensures
      RawTotal(Last(logs).recs) + |r.payload| > limit ==>
        Accepted(logs, r, limit, fileId, headerId) ==
        (logs + [Stack(fileId, headerId, [])])[|logs| := Stack(fileId, headerId, [r])]
  {
    hide RawTotal;
    var t := Stack(fileId, headerId, []);
    assert (logs + [t])[|logs| := Stack(fileId, headerId, [r])] == logs + [Stack(fileId, headerId, [r])];
  }

  lemma NoTotal()
    ensures RawTotal([]) == 0
  {
  }

  class LocalWriter {
    const dir: Dir
    const controller: bool
    const maxDataBytes: nat
    var fileStackId: u64
    var headerStackId: u64
    var dataFile: Option<Text>
    var idxFile: Option<Text>
    var metaFile: Option<Text>
    var dataOffset: u64
    var metaOffset: u64
    var totalRawBytes: nat
    /** The first of this writer's stacks in dir.logs, and what put has accepted since. */
    ghost const base: nat
    ghost var accepted: seq<Rec>

    ghost predicate Closed()
      reads this
    {
      dataFile.None? && idxFile.None? && metaFile.None?
    }

    /** The handles, offsets and total are those of a stack. */
    ghost predicate Shows(s: Stack)
      reads `fileStackId, `headerStackId, `dataFile, `idxFile, `metaFile, `dataOffset, `metaOffset, `totalRawBytes
    {
      && fileStackId == s.fileId && headerStackId == s.headerId
      && dataFile == Some(Path(dir.prefix, s.fileId, Data))
      && idxFile == Some(Path(dir.prefix, s.fileId, Idx))
      && metaFile == Some(Path(dir.prefix, s.fileId, Meta))
      && dataOffset == AsU64(|s.Data()|) && metaOffset == AsU64(|s.Meta()|)
      && totalRawBytes == RawTotal(s.recs) <= maxDataBytes
    }

    /** The newest stack is this writer's, and open. */
    ghost predicate OpenOn()
      reads this, dir
    {
      base < |dir.logs| && Shows(Last(dir.logs))
    }

    ghost predicate Writable()
      reads this
    {
      dataFile.Some? && idxFile.Some? && metaFile.Some?
    }

    /** A handle is taken, or that of the newest stack's file. */
    ghost predicate Handle(f: Option<Text>, k: Suffix)
      reads dir
    {
      f.Some? ==> base < |dir.logs| && f.value == Path(dir.prefix, Last(dir.logs).fileId, k)
    }

    /** A close that failed leaves some handles; only with all three there is the writer open. */
    ghost predicate Valid()
      reads this, dir
    {
      && dir.Settled()
      && base <= |dir.logs|
      && Handle(dataFile, Data) && Handle(metaFile, Meta) && Handle(idxFile, Idx)
      && (Writable() ==> OpenOn())
      && Greedy(dir.logs, base, maxDataBytes)
      && Gather(dir.logs, base) == accepted
    }

    /** The newest stack of the directory, if there is one. */
    ghost function Newest(): iset<u64>
      reads dir
    {
      if dir.logs == [] then iset{} else iset{Last(dir.logs).fileId}
    }

    ghost function News(reply: Option<u64>, clock: u64): iset<u64>
      reads dir
    {
      NewStacks(dir.files, dir.prefix, controller, reply, clock)
    }

    // ---- file operations on the newest stack ----

    method WriteAll(f: Text, bytes: seq<byte>, ghost k: Suffix)
      requires dir.Building() && f == Path(dir.prefix, Last(dir.logs).fileId, k)
      requires dir.Tail(k).bytes + bytes <= Full(Last(dir.logs), k)
      requires k != Data && Last(dir.logs).recs != [] ==> |Last(dir.logs).Data()| <= dir.Tail(Data).synced
      requires k == Idx && Last(dir.logs).recs != [] ==> |Last(dir.logs).Meta()| <= dir.Tail(Meta).synced
      modifies dir
      ensures dir.Building() && dir.logs == old(dir.logs) && dir.acked == old(dir.acked)
      ensures old(dir.history) <= dir.history
      ensures dir.Tail(k) == DiskFile(old(dir.Tail(k)).bytes + bytes, old(dir.Tail(k)).synced)
      ensures dir.files.Keys == old(dir.files.Keys)
      ensures Spares(old(dir.files), dir.files, dir.prefix, iset{Last(dir.logs).fileId})
      ensures forall l: Suffix :: l != k ==> dir.Tail(l) == old(dir.Tail(l))
    {
      hide Chain, Ordered, Path, Full, Durable, Kept, AllWritten, AllDurable, Spares;
      ghost var h, s, later := Snapshot(dir.files, dir.acked), Last(dir.logs), Written(dir.files, f, bytes);
      WriteOrdered(dir.files, dir.prefix, s, k, bytes);
      OnlyTail(dir.files, later, k);
      SparesOne(dir.files, later, dir.prefix, s.fileId, k);
      StepKeepsSafe(h, later, dir.prefix, dir.logs, |dir.logs| - 1);
      KeptWritten(dir.files, later, dir.prefix, Init(dir.logs));
      SameExtends(dir.acked);
      ChainGrows(dir.history, Snapshot(later, dir.acked));
      dir.Write(f, bytes);
    }

    method SyncAll(f: Text, ghost k: Suffix)
      requires dir.Building() && f == Path(dir.prefix, Last(dir.logs).fileId, k)
      modifies dir
      ensures dir.Building() && dir.logs == old(dir.logs) && dir.acked == old(dir.acked)
      ensures old(dir.history) <= dir.history
      ensures dir.Tail(k) == DiskFile(old(dir.Tail(k)).bytes, |old(dir.Tail(k)).bytes|)
      ensures dir.files.Keys == old(dir.files.Keys)
      ensures Spares(old(dir.files), dir.files, dir.prefix, iset{Last(dir.logs).fileId})
      ensures forall l: Suffix :: l != k ==> dir.Tail(l) == old(dir.Tail(l))
    {
      hide Chain, Ordered, Path, Full, Durable, Kept, AllWritten, AllDurable, Spares;
      ghost var h, s, later := Snapshot(dir.files, dir.acked), Last(dir.logs), Synced(dir.files, f);
      SyncOrdered(dir.files, dir.prefix, s, k);
      OnlyTail(dir.files, later, k);
      SparesOne(dir.files, later, dir.prefix, s.fileId, k);
      StepKeepsSafe(h, later, dir.prefix, dir.logs, |dir.logs| - 1);
      KeptWritten(dir.files, later, dir.prefix, Init(dir.logs));
      SameExtends(dir.acked);
      ChainGrows(dir.history, Snapshot(later, dir.acked));
      dir.SyncAll(f);
    }

    /** A step on one file of the newest stack leaves its other files and the other stacks alone. */
    lemma OnlyTail(files: Files, later: Files, k: Suffix)
      requires dir.logs != [] && Distinct(dir.logs)
      requires forall p :: p != Path(dir.prefix, Last(dir.logs).fileId, k) ==> At(later, p) == At(files, p)
      ensures Kept(files, later, dir.prefix, Init(dir.logs))
      ensures forall l: Suffix :: l != k ==>
        FileOf(later, dir.prefix, Last(dir.logs), l) == FileOf(files, dir.prefix, Last(dir.logs), l)
      ensures forall i, l: Suffix :: 0 <= i < |dir.logs| && i != |dir.logs| - 1 ==>
        FileOf(later, dir.prefix, dir.logs[i], l) == FileOf(files, dir.prefix, dir.logs[i], l)
    {
      hide Chain, Path, FileOf;
      OthersSame(files, later, dir.prefix, Last(dir.logs).fileId, k);
    }

    // ---- opening ----

    constructor (dir: Dir, controller: bool, maxDataBytes: nat)
      requires dir.Settled()
      ensures this.dir == dir && this.controller == controller && this.maxDataBytes == maxDataBytes
      ensures base == |dir.logs| && accepted == []
      ensures Valid() && Closed()
    {
      this.dir, this.controller, this.maxDataBytes := dir, controller, maxDataBytes;
      fileStackId, headerStackId := 0, 0;
      dataFile, idxFile, metaFile := None, None, None;
      dataOffset, metaOffset, totalRawBytes := 4096, 0, 0;
      base, accepted := |dir.logs|, [];
    }

    /** The file id and the header id: equal under a controller, a free timestamp and u64::MAX without. */
    method ResolveStackIds(reply: Option<u64>, clock: u64, disk: Disk) returns (ids: Option<(u64, u64)>)
      requires clock + |dir.files| < U64
      ensures controller ==> ids == if reply.Some? then Some((reply.value, reply.value)) else None
      ensures !controller ==> (ids.Some? <==> disk.probe)
      ensures !controller && ids.Some? ==>
        && ids.value.1 == LOCAL_STACK_ID && ids.value.0 <= clock + |dir.files|
        && FirstFree(dir.files, dir.prefix, clock, ids.value.0)
    {
      if controller {
        if reply.None? {
          return None;
        }
        return Some((reply.value, reply.value));
      }
      if !disk.probe {
        return None;
      }
      var ts := Probe(dir.files, dir.prefix, clock);
      return Some((ts, LOCAL_STACK_ID));
    }

    /** The file is there, and at no instant so far has it held anything. */
    ghost predicate Blank(path: Text)
      reads dir
    {
      path in dir.files && forall h :: h in dir.history ==> At(h.files, path) == EMPTY
    }

    /** Create the three files of a stack; all of them must be new. */
    method CreateFiles(id: u64, creates: Creates) returns (ok: bool)
      requires dir.Settled()
      modifies dir
      ensures dir.Settled() && dir.logs == old(dir.logs)
      ensures old(dir.history) <= dir.history && |dir.files| <= |old(dir.files)| + 3
      ensures ok <==> creates == GOOD_DISK.creates && AllFree(old(dir.files), dir.prefix, id)
      ensures ok ==> forall k: Suffix :: Blank(Path(dir.prefix, id, k))
      ensures dir.files == Created(old(dir.files), dir.prefix, id, creates)
    {
      hide Chain, Path, Dir.Settled, Blank;
      var data, idx, meta := Path(dir.prefix, id, Data), Path(dir.prefix, id, Idx), Path(dir.prefix, id, Meta);
      PathInjective(dir.prefix, id, Data, id, Idx);
      PathInjective(dir.prefix, id, Data, id, Meta);
      PathInjective(dir.prefix, id, Idx, id, Meta);
      ok := CreateFile(data, creates.data);
      if ok {
        ok := CreateFile(idx, creates.index);
      }
      if ok {
        ok := CreateFile(meta, creates.meta);
      }
      forall k: Suffix
        ensures ok ==> Path(dir.prefix, id, k) !in old(dir.files) && Blank(Path(dir.prefix, id, k))
      {
        match k
        case Data =>
        case Idx =>
        case Meta =>
      }
    }

    method CreateFile(path: Text, works: bool) returns (ok: bool)
      requires dir.Settled()
      modifies dir
      ensures dir.Settled() && dir.logs == old(dir.logs)
      ensures old(dir.history) <= dir.history
      ensures ok <==> works && path !in old(dir.files)
      ensures dir.files == if ok then old(dir.files)[path := EMPTY] else old(dir.files)
      ensures ok ==> Blank(path)
      ensures forall p :: p != path && old(Blank(p)) ==> Blank(p)
    {
      hide Chain, Path, Safe, Full;
      ghost var h := Snapshot(dir.files, dir.acked);
      assert Safe(h, dir.prefix, dir.logs);
      SameExtends(dir.acked);
      ghost var was := dir.history;
      ok := dir.CreateNew(path, works);
      ChainGrows(was, Snapshot(dir.files, dir.acked));
      forall j, k: Suffix | 0 <= j < |dir.logs|
        ensures FileOf(dir.files, dir.prefix, dir.logs[j], k) == FileOf(h.files, dir.prefix, dir.logs[j], k)
      {
        assert Path(dir.prefix, dir.logs[j].fileId, k) in h.files;
      }
      ElsewhereKeepsSafe(h, dir.files, dir.prefix, dir.logs);
      assert was[|was| - 1] == h;
    }

    /** Three blank files are those of a stack to come. */
    lemma BlankUnplanned(s: Stack)
      requires dir.Settled() && s.recs == []
      requires forall k: Suffix :: Blank(Path(dir.prefix, s.fileId, k))
      requires forall j :: 0 <= j < |dir.logs| ==> dir.logs[j].fileId != s.fileId
      ensures Unplanned(s)
      ensures forall k: Suffix :: FileOf(dir.files, dir.prefix, s, k) == EMPTY
    {
      hide Chain, Path, Safe, Full, AllWritten, Distinct;
      assert Last(dir.history) in dir.history;
      forall h, k: Suffix | h in dir.history
        ensures Begun(FileOf(h.files, dir.prefix, s, k), Full(s, k))
      {
        assert Blank(Path(dir.prefix, s.fileId, k));
      }
      forall k: Suffix
        ensures FileOf(dir.files, dir.prefix, s, k) == EMPTY
      {
        assert Blank(Path(dir.prefix, s.fileId, k));
      }
    }

    lemma StacksThere()
      requires dir.Settled()
      ensures forall j :: 0 <= j < |dir.logs| ==> Path(dir.prefix, dir.logs[j].fileId, Data) in dir.files
    {
      hide Chain, Path, Safe, Full, AllWritten, Distinct;
    }

    /** Every handle that is left can be synced. */
    predicate Closes(disk: Disk)
      reads this
    {
      (dataFile.None? || disk.data) && (metaFile.None? || disk.meta) && (idxFile.None? || disk.index)
    }

    /** The handles close leaves: data, then meta, then idx is dropped, up to the first that cannot be synced. */
    function HandlesLeft(disk: Disk): (Option<Text>, Option<Text>, Option<Text>)
      reads this
    {
      var data := if disk.data then None else dataFile;
      var meta := if disk.meta && data.None? then None else metaFile;
      (data, meta, if disk.index && data.None? && meta.None? then None else idxFile)
    }

    /** The first handle that is there and cannot be synced: data, meta, idx; 3 is none. */
    function FirstUnsynced(disk: Disk): nat
      reads this
    {
      if dataFile.Some? && !disk.data then 0
      else if metaFile.Some? && !disk.meta then 1
      else if idxFile.Some? && !disk.index then 2
      else 3
    }

    lemma CloseStops(disk: Disk)
      ensures
        var stop := FirstUnsynced(disk);
        && HandlesLeft(disk) ==
             (if stop > 0 then None else dataFile, if stop > 1 then None else metaFile,
              if stop > 2 then None else idxFile)
        && (Closes(disk) <==> stop == 3)
    {
    }

    /** Nothing keeps the newest stack from being closed and another opened. */
    ghost predicate Rotates(reply: Option<u64>, clock: u64, disk: Disk)
      reads this, dir
    {
      && Closes(disk)
      && Opens(dir.files, dir.prefix, controller, reply, clock, disk)
    }

    /** open_stack: a fresh triple of files with their headers; on a failure no stack, whatever files are left. */
    method OpenStack(reply: Option<u64>, clock: u64, disk: Disk) returns (r: OpenResult)
      requires Valid() && Closed() && clock + |dir.files| < U64
      modifies this, dir
      ensures dir.Settled() && base <= |dir.logs| && accepted == old(accepted)
      ensures old(dir.history) <= dir.history && |dir.files| <= |old(dir.files)| + 3
      ensures r == OpenOk ==> OpenOn() && dir.logs == old(dir.logs) + [Stack(fileStackId, headerStackId, [])]
      ensures r == OpenOk ==>
        OpensAs(old(dir.files), dir.prefix, controller, reply, clock, fileStackId, headerStackId)
      ensures r == OpenOk <==> Opens(old(dir.files), dir.prefix, controller, reply, clock, disk)
      ensures r != OpenOk ==> Valid() && Closed() && dir.logs == old(dir.logs)
      ensures r == OpenNoStackId <==> controller && reply.None?
      ensures Spares(old(dir.files), dir.files, dir.prefix,
                     NewStacks(old(dir.files), dir.prefix, controller, reply, clock))
      ensures OpeningLeaves(old(dir.files), dir.files, dir.prefix, controller, reply, clock, disk)
    {
      hide Chain, Path, Greedy, Gather, Dir.Settled, RawTotal, DataBytes, MetaBytes, FirstFree, Created, HeadLeft,
        FileOf, Spares, OpeningLeaves, NewStacks, Creating;
      ghost var a, news := dir.files, NewStacks(dir.files, dir.prefix, controller, reply, clock);
      SparesAll(a, dir.prefix, news);
      var ids := ResolveStackIds(reply, clock, disk);
      if ids.None? {
        NothingOpened(a, reply, clock, disk);
        return if controller then OpenNoStackId else OpenIoFailed;
      }
      var (fileId, headerId) := ids.value;
      SameFree(a, clock, fileId);
      OnlyNew(a, reply, clock, fileId, headerId);
      StacksThere();
      var made := CreateFiles(fileId, disk.creates);
      ghost var b := dir.files;
      CreatedSpares(a, dir.prefix, fileId, disk.creates);
      SparesMore(a, b, dir.prefix, iset{fileId}, news);
      if !made {
        LeavesCreated(a, reply, clock, disk, fileId, headerId);
        return OpenIoFailed;
      }
      BlankUnplanned(Stack(fileId, headerId, []));
      var begun := WriteHeaders(fileId, headerId, disk.heads);
      SparesMore(b, dir.files, dir.prefix, iset{fileId}, news);
      SparesThrough(a, b, dir.files, dir.prefix, news);
      LeavesHeads(a, reply, clock, disk, fileId, headerId, dir.files);
      assert |dir.files| == |b.Keys|;
      if !begun {
        return OpenIoFailed;
      }
      TakeHandles(fileId, headerId);
      return OpenOk;
    }

    lemma SameFree(files: Files, clock: u64, id: u64)
      ensures FirstFree(files, dir.prefix, clock, id) ==>
        (AllFree(files, dir.prefix, id) <==>
         exists t :: FirstFree(files, dir.prefix, clock, t) && AllFree(files, dir.prefix, t))
    {
      hide AllFree, FirstFree;
      if t :| FirstFree(files, dir.prefix, clock, id) && FirstFree(files, dir.prefix, clock, t) &&
              AllFree(files, dir.prefix, t) {
        OneFirstFree(files, dir.prefix, clock, id, t);
      }
    }

    lemma NothingOpened(files: Files, reply: Option<u64>, clock: u64, disk: Disk)
      requires if controller then reply.None? else !disk.probe
      ensures OpeningLeaves(files, files, dir.prefix, controller, reply, clock, disk)
    {
    }

    /** There is one way to open. */
    lemma OnlyNew(files: Files, reply: Option<u64>, clock: u64, id: u64, headerId: u64)
      requires OpensAs(files, dir.prefix, controller, reply, clock, id, headerId)
      ensures id in NewStacks(files, dir.prefix, controller, reply, clock)
      ensures forall i: u64, h: u64 ::
        OpensAs(files, dir.prefix, controller, reply, clock, i, h) ==> i == id && h == headerId
    {
      hide FirstFree;
      forall i: u64, h: u64 | OpensAs(files, dir.prefix, controller, reply, clock, i, h)
        ensures i == id && h == headerId
      {
        if !controller {
          OneFirstFree(files, dir.prefix, clock, id, i);
        }
      }
    }

    lemma LeavesCreated(files: Files, reply: Option<u64>, clock: u64, disk: Disk, id: u64, headerId: u64)
      requires OpensAs(files, dir.prefix, controller, reply, clock, id, headerId) && (controller || disk.probe)
      requires disk.creates != GOOD_DISK.creates || !AllFree(files, dir.prefix, id)
      ensures
        OpeningLeaves(files, Created(files, dir.prefix, id, disk.creates), dir.prefix, controller, reply, clock, disk)
    {
      hide Path, AllFree, FirstFree, Created;
      OnlyNew(files, reply, clock, id, headerId);
      CreatedEmpty(files, dir.prefix, id, disk.creates);
    }

    lemma LeavesHeads(files: Files, reply: Option<u64>, clock: u64, disk: Disk, id: u64, headerId: u64, later: Files)
      requires OpensAs(files, dir.prefix, controller, reply, clock, id, headerId) && (controller || disk.probe)
      requires disk.creates == GOOD_DISK.creates && AllFree(files, dir.prefix, id)
      requires later.Keys == Created(files, dir.prefix, id, disk.creates).Keys
      requires forall k: Suffix ::
        FileOf(later, dir.prefix, Stack(id, headerId, []), k).bytes == HeadLeft(disk.heads, headerId, k)
      ensures OpeningLeaves(files, later, dir.prefix, controller, reply, clock, disk)
    {
      hide Path, AllFree, FirstFree, Created, HeadLeft, Creating;
      OnlyNew(files, reply, clock, id, headerId);
      forall k: Suffix
        ensures At(later, Path(dir.prefix, id, k)).bytes == HeadLeft(disk.heads, headerId, k)
      {
        assert FileOf(later, dir.prefix, Stack(id, headerId, []), k) == At(later, Path(dir.prefix, id, k));
      }
    }

    method TakeHandles(fileId: u64, headerId: u64)
      requires base < |dir.logs| && Last(dir.logs) == Stack(fileId, headerId, [])
      modifies this
      ensures OpenOn() && accepted == old(accepted)
    {
      hide Chain, Path, DataBytes, MetaBytes, IdxBytes, HeaderLine, RawTotal;
      EmptyFiles(headerId);
      fileStackId, headerStackId := fileId, headerId;
      dataFile := Some(Path(dir.prefix, fileId, Data));
      idxFile := Some(Path(dir.prefix, fileId, Idx));
      metaFile := Some(Path(dir.prefix, fileId, Meta));
      dataOffset := 4096;
      metaOffset := AsU64(|HeaderLine(headerId)|);
      totalRawBytes := 0;
    }

    lemma SettledDurable()
      requires dir.Settled()
      ensures AllDurable(dir.files, dir.prefix, dir.logs)
    {
      hide Chain, Durable, Ordered;
      assert Safe(Snapshot(dir.files, dir.acked), dir.prefix, dir.logs);
    }

    /** The files of a stack to come: new, and at every instant so far a beginning of its headers. */
    ghost predicate Unplanned(s: Stack)
      reads dir
    {
      && dir.Settled() && s.recs == []
      && (forall k: Suffix :: Path(dir.prefix, s.fileId, k) in dir.files)
      && (forall j :: 0 <= j < |dir.logs| ==> dir.logs[j].fileId != s.fileId)
      && forall h, k: Suffix :: h in dir.history ==> Begun(FileOf(h.files, dir.prefix, s, k), Full(s, k))
    }

    /** One write of header bytes, whole or up to its fault. */
    method WriteHead(f: Text, bytes: seq<byte>, fault: Fault, ghost k: Suffix, ghost s: Stack) returns (ok: bool)
      requires Unplanned(s) && f == Path(dir.prefix, s.fileId, k)
      requires FileOf(dir.files, dir.prefix, s, k).bytes + bytes <= Full(s, k)
      modifies dir
      ensures ok <==> fault.None?
      ensures Unplanned(s) && dir.logs == old(dir.logs)
      ensures old(dir.history) <= dir.history && dir.files.Keys == old(dir.files.Keys)
      ensures Spares(old(dir.files), dir.files, dir.prefix, iset{s.fileId})
      ensures FileOf(dir.files, dir.prefix, s, k).bytes ==
              FileOf(old(dir.files), dir.prefix, s, k).bytes + Landed(bytes, fault)
      ensures fault.None? ==> Landed(bytes, fault) == bytes
      ensures forall l: Suffix :: l != k ==>
        FileOf(dir.files, dir.prefix, s, l) == FileOf(old(dir.files), dir.prefix, s, l)
    {
      hide Path, Full, Safe, AllWritten, Durable, Chain, Distinct, Landed, Spares;
      ghost var h, later := Snapshot(dir.files, dir.acked), Written(dir.files, f, Landed(bytes, fault));
      OthersSame(dir.files, later, dir.prefix, s.fileId, k);
      SparesOne(dir.files, later, dir.prefix, s.fileId, k);
      ElsewhereSettled(later, s.fileId);
      SameExtends(dir.acked);
      ChainGrows(dir.history, Snapshot(later, dir.acked));
      StillBegun(FileOf(dir.files, dir.prefix, s, k), bytes, fault, Full(s, k));
      dir.Write(f, Landed(bytes, fault));
      ok := fault.None?;
    }

    /** Writing files of no stack leaves all stacks safe and written. */
    lemma ElsewhereSettled(later: Files, id: u64)
      requires dir.Settled() && forall j :: 0 <= j < |dir.logs| ==> dir.logs[j].fileId != id
      requires forall t: Stack, l: Suffix :: t.fileId != id ==>
        FileOf(later, dir.prefix, t, l) == FileOf(dir.files, dir.prefix, t, l)
      ensures Safe(Snapshot(later, dir.acked), dir.prefix, dir.logs) && AllWritten(later, dir.prefix, dir.logs)
    {
      hide Path, Full, FileOf, Ordered, Acked, Chain;
      ElsewhereKeepsSafe(Snapshot(dir.files, dir.acked), later, dir.prefix, dir.logs);
    }

    /** Only the plan changes: the stack whose headers are written has no record yet. */
    ghost method PlanStack(s: Stack)
      requires Unplanned(s)
      requires forall k: Suffix :: FileOf(dir.files, dir.prefix, s, k).bytes == Full(s, k)
      modifies dir
      ensures dir.Settled() && dir.logs == old(dir.logs) + [s]
      ensures dir.files == old(dir.files) && old(dir.history) <= dir.history
    {
      hide Chain, Path, Safe, Full, AllWritten, AllDurable, Begun;
      SettledDurable();
      forall h | h in dir.history
        ensures Safe(h, dir.prefix, dir.logs + [s])
      {
        NewStackKeepsSafe(h, dir.prefix, dir.logs, s);
      }
      assert Init(dir.logs + [s]) == dir.logs;
      dir.logs := dir.logs + [s];
      Complete();
    }

    lemma UnplannedSettled(s: Stack)
      requires Unplanned(s)
      ensures dir.Settled()
    {
      hide Path, Full, Begun, FileOf;
    }

    /** The four writes, up to the first that fails. */
    method WriteHeads(fileId: u64, headerId: u64, heads: Heads) returns (ok: bool)
      requires Unplanned(Stack(fileId, headerId, []))
      requires forall k: Suffix :: FileOf(dir.files, dir.prefix, Stack(fileId, headerId, []), k) == EMPTY
      modifies dir
      ensures ok <==> heads == GOOD_DISK.heads
      ensures Spares(old(dir.files), dir.files, dir.prefix, iset{fileId})
      ensures Unplanned(Stack(fileId, headerId, [])) && dir.logs == old(dir.logs)
      ensures old(dir.history) <= dir.history && dir.files.Keys == old(dir.files.Keys)
      ensures forall k: Suffix ::
        FileOf(dir.files, dir.prefix, Stack(fileId, headerId, []), k).bytes == HeadLeft(heads, headerId, k)
    {
      hide Chain, Path, Full, MagicHeader, HeaderLine, FileOf, Dir.Settled, Begun, Landed, Spares,
        LocalWriter.Unplanned;
      ghost var s, a, ids := Stack(fileId, headerId, []), dir.files, iset{fileId};
      EmptyFull(s);
      assert FileOf(dir.files, dir.prefix, s, Data) == EMPTY && FileOf(dir.files, dir.prefix, s, Idx) == EMPTY;
      assert FileOf(dir.files, dir.prefix, s, Meta) == EMPTY;
      Parts(MagicHeader(DATA_MAGIC, headerId), Zeros(4080));
      Parts(MagicHeader(INDEX_MAGIC, headerId), []);
      Parts(HeaderLine(headerId), []);
      var data, idx := Path(dir.prefix, fileId, Data), Path(dir.prefix, fileId, Idx);
      var meta := Path(dir.prefix, fileId, Meta);
      ok := WriteHead(data, MagicHeader(DATA_MAGIC, headerId), heads.magic, Data, s);
      ghost var b := dir.files;
      if ok {
        ok := WriteHead(data, Zeros(4080), heads.zeros, Data, s);
        SparesThrough(a, b, dir.files, dir.prefix, ids);
      }
      ghost var c := dir.files;
      if ok {
        ok := WriteHead(idx, MagicHeader(INDEX_MAGIC, headerId), heads.index, Idx, s);
        SparesThrough(a, c, dir.files, dir.prefix, ids);
      }
      ghost var d := dir.files;
      if ok {
        ok := WriteHead(meta, HeaderLine(headerId), heads.meta, Meta, s);
        SparesThrough(a, d, dir.files, dir.prefix, ids);
      }
    }

    method WriteHeaders(fileId: u64, headerId: u64, heads: Heads) returns (ok: bool)
      requires Unplanned(Stack(fileId, headerId, []))
      requires forall k: Suffix :: FileOf(dir.files, dir.prefix, Stack(fileId, headerId, []), k) == EMPTY
      modifies dir
      ensures ok <==> heads == GOOD_DISK.heads
      ensures Spares(old(dir.files), dir.files, dir.prefix, iset{fileId})
      ensures dir.Settled() && dir.logs == if ok then old(dir.logs) + [Stack(fileId, headerId, [])] else old(dir.logs)
      ensures old(dir.history) <= dir.history && dir.files.Keys == old(dir.files.Keys)
      ensures forall k: Suffix ::
        FileOf(dir.files, dir.prefix, Stack(fileId, headerId, []), k).bytes == HeadLeft(heads, headerId, k)
    {
      hide Chain, Path, Full, FileOf, Dir.Settled, HeadLeft, Spares, LocalWriter.Unplanned;
      ghost var s := Stack(fileId, headerId, []);
      ok := WriteHeads(fileId, headerId, heads);
      UnplannedSettled(s);
      if ok {
        HeadsFull(s);
        PlanStack(s);
      }
    }

    /** The newest stack has caught up; its ids are returned. */
    ghost method Complete()
      requires dir.Building()
      requires dir.Tail(Data).bytes == Full(Last(dir.logs), Data)
      requires dir.Tail(Idx).bytes == Full(Last(dir.logs), Idx)
      requires dir.Tail(Meta).bytes == Full(Last(dir.logs), Meta)
      requires Last(dir.logs).recs != [] ==> |Full(Last(dir.logs), Idx)| <= dir.Tail(Idx).synced
      modifies dir
      ensures dir.Settled() && dir.logs == old(dir.logs) && dir.files == old(dir.files)
      ensures old(dir.history) <= dir.history && forall k: Suffix :: dir.Tail(k) == old(dir.Tail(k))
    {
      hide AllWritten, AllDurable, FileOf, Safe, IdxBytes, DataBytes, MetaBytes, Distinct, Path;
      forall k: Suffix
        ensures dir.Tail(k).bytes == Full(Last(dir.logs), k)
      {
        match k
        case Data =>
        case Idx =>
        case Meta =>
      }
      LastWritten(dir.files, dir.prefix, dir.logs);
      dir.Acknowledge();
    }

    // ---- appending ----

    /** Only the plan changes: the newest stack is to hold one more record. */
    ghost method PlanRecord(r: Rec)
      requires dir.Settled() && dir.logs != []
      modifies dir
      ensures dir.Building() && dir.logs == old(dir.logs)[|old(dir.logs)| - 1 := Last(old(dir.logs)).With(r)]
      ensures dir.files == old(dir.files) && dir.history == old(dir.history)
      ensures forall k: Suffix :: dir.Tail(k) == old(dir.Tail(k)) && dir.Tail(k).bytes == Full(Last(old(dir.logs)), k)
    {
      hide Chain, Path, Safe, Full, AllWritten, AllDurable;
      SettledDurable();
      ghost var n, logs := |dir.logs| - 1, dir.logs;
      ghost var later := logs[n := logs[n].With(r)];
      FirstWritten(dir.files, dir.prefix, logs);
      forall h | h in dir.history
        ensures Safe(h, dir.prefix, later)
      {
        PlanKeepsSafe(h, dir.prefix, logs, n, r);
      }
      TailsWritten();
      assert Init(later) == Init(logs);
      dir.logs := later;
    }

    lemma TailsWritten()
      requires dir.Settled() && dir.logs != []
      ensures forall k: Suffix :: dir.Tail(k).bytes == Full(Last(dir.logs), k)
    {
      hide Chain, Path, Full, Safe;
    }

    method WriteSlot(f: Text, dr: DataRecord, ghost was: Stack, ghost r: Rec)
      requires dir.Building() && dir.logs != [] && Last(dir.logs) == was.With(r)
      requires f == Path(dir.prefix, Last(dir.logs).fileId, Data)
      requires dir.Tail(Data).bytes == Full(was, Data)
      requires EncodeData(dr.header) + dr.data + dr.padding == SlotOf(r)
      modifies dir
      ensures dir.Building() && dir.logs == old(dir.logs) && dir.acked == old(dir.acked)
      ensures old(dir.history) <= dir.history && dir.files.Keys == old(dir.files.Keys)
      ensures Spares(old(dir.files), dir.files, dir.prefix, iset{was.fileId})
      ensures dir.Tail(Data) == DiskFile(Full(was.With(r), Data), |Full(was.With(r), Data)|)
      ensures dir.Tail(Meta) == old(dir.Tail(Meta)) && dir.Tail(Idx) == old(dir.Tail(Idx))
    {
      hide Chain, Path, Full, SlotOf, EncodeData, Dir.Building, Dir.Tail, Spares;
      var head := EncodeData(dr.header);
      ghost var a, ids := dir.files, iset{was.fileId};
      DataWith(was, r);
      Pieces(Full(was, Data), head, dr.data, dr.padding);
      WriteAll(f, head, Data);
      ghost var b := dir.files;
      WriteAll(f, dr.data, Data);
      ghost var c := dir.files;
      SparesThrough(a, b, c, dir.prefix, ids);
      WriteAll(f, dr.padding, Data);
      ghost var d := dir.files;
      SparesThrough(a, c, d, dir.prefix, ids);
      SyncAll(f, Data);
      SparesThrough(a, d, dir.files, dir.prefix, ids);
    }

    method WriteLine(f: Text, json: Text, ghost was: Stack, ghost r: Rec)
      requires dir.Building() && dir.logs != [] && Last(dir.logs) == was.With(r)
      requires f == Path(dir.prefix, Last(dir.logs).fileId, Meta)
      requires dir.Tail(Meta).bytes == Full(was, Meta)
      requires dir.Tail(Data).synced == |Full(was.With(r), Data)|
      requires json + [NEWLINE] == Line(r, |was.Data()|)
      modifies dir
      ensures dir.Building() && dir.logs == old(dir.logs) && dir.acked == old(dir.acked)
      ensures old(dir.history) <= dir.history && dir.files.Keys == old(dir.files.Keys)
      ensures Spares(old(dir.files), dir.files, dir.prefix, iset{was.fileId})
      ensures dir.Tail(Meta) == DiskFile(Full(was.With(r), Meta), |Full(was.With(r), Meta)|)
      ensures dir.Tail(Data) == old(dir.Tail(Data)) && dir.Tail(Idx) == old(dir.Tail(Idx))
    {
      FullIs(was.With(r));
      hide Chain, Path, Full, Line, Dir.Building, Dir.Tail, DataBytes, Spares;
      ghost var a, ids := dir.files, iset{was.fileId};
      MetaWith(was, r);
      Pieces(Full(was, Meta), json, [NEWLINE], []);
      WriteAll(f, json, Meta);
      ghost var b := dir.files;
      WriteAll(f, [NEWLINE], Meta);
      ghost var c := dir.files;
      SparesThrough(a, b, c, dir.prefix, ids);
      SyncAll(f, Meta);
      SparesThrough(a, c, dir.files, dir.prefix, ids);
    }

    method WriteEntry(f: Text, ir: IndexRecord, ghost was: Stack, ghost r: Rec)
      requires dir.Building() && dir.logs != [] && Last(dir.logs) == was.With(r)
      requires f == Path(dir.prefix, Last(dir.logs).fileId, Idx)
      requires dir.Tail(Idx).bytes == Full(was, Idx)
      requires dir.Tail(Data).synced == |Full(was.With(r), Data)|
      requires dir.Tail(Meta).synced == |Full(was.With(r), Meta)|
      requires ir == EntryOf(r, |was.Data()|, |was.Meta()|)
      modifies dir
      ensures dir.Building() && dir.logs == old(dir.logs) && dir.acked == old(dir.acked)
      ensures old(dir.history) <= dir.history && dir.files.Keys == old(dir.files.Keys)
      ensures Spares(old(dir.files), dir.files, dir.prefix, iset{was.fileId})
      ensures dir.Tail(Idx) == DiskFile(Full(was.With(r), Idx), |Full(was.With(r), Idx)|)
      ensures dir.Tail(Data) == old(dir.Tail(Data)) && dir.Tail(Meta) == old(dir.Tail(Meta))
    {
      hide Chain, Path, EncodeIndex, EntryOf, Dir.Building, Dir.Tail, DataBytes, MetaBytes, IdxBytes, LastEntry, Spares;
      ghost var a := dir.files;
      IndexWith(was, r);
      WriteAll(f, EncodeIndex(ir), Idx);
      ghost var b := dir.files;
      SyncAll(f, Idx);
      SparesThrough(a, b, dir.files, dir.prefix, iset{was.fileId});
    }

    /** Slot, line and entry, each synced before the next, and the offsets behind them. */
    method WriteRecord(dr: DataRecord, json: Text, ir: IndexRecord, ghost was: Stack, ghost r: Rec)
      requires dir.Building() && dir.logs != [] && Last(dir.logs) == was.With(r)
      requires dataFile == Some(Path(dir.prefix, Last(dir.logs).fileId, Data))
      requires idxFile == Some(Path(dir.prefix, Last(dir.logs).fileId, Idx))
      requires metaFile == Some(Path(dir.prefix, Last(dir.logs).fileId, Meta))
      requires forall k: Suffix :: dir.Tail(k).bytes == Full(was, k)
      requires EncodeData(dr.header) + dr.data + dr.padding == SlotOf(r)
      requires json + [NEWLINE] == Line(r, |was.Data()|)
      requires ir == EntryOf(r, |was.Data()|, |was.Meta()|)
      modifies this`dataOffset, this`metaOffset, dir
      ensures dir.Settled() && dir.logs == old(dir.logs)
      ensures old(dir.history) <= dir.history && dir.files.Keys == old(dir.files.Keys)
      ensures Spares(old(dir.files), dir.files, dir.prefix, iset{was.fileId})
      ensures dataOffset == AsU64(old(dataOffset) + RecordSize(dr))
      ensures metaOffset == AsU64(old(metaOffset) + |json| + 1)
    {
      hide Chain, Path, SlotOf, EncodeData, EntryOf, Line, Dir.Building, Dir.Settled, Dir.Tail, Full, AsU64, RecordSize,
        Stack.With, Stack.Data, Stack.Meta, Spares;
      WithSame(was, r);
      ghost var a, ids := dir.files, iset{was.fileId};
      assert dir.Tail(Data).bytes == Full(was, Data) && dir.Tail(Meta).bytes == Full(was, Meta);
      assert dir.Tail(Idx).bytes == Full(was, Idx);
      WriteSlot(dataFile.value, dr, was, r);
      dataOffset := AsU64(dataOffset + RecordSize(dr));
      ghost var b := dir.files;
      WriteLine(metaFile.value, json, was, r);
      ghost var c := dir.files;
      SparesThrough(a, b, c, dir.prefix, ids);
      metaOffset := AsU64(metaOffset + |json| + 1);
      WriteEntry(idxFile.value, ir, was, r);
      SparesThrough(a, c, dir.files, dir.prefix, ids);
      Complete();
    }

    /** The part of put behind the size guard. */
    method AppendRecord(r: Rec) returns (id: Text)
      requires dir.Settled() && OpenOn() && totalRawBytes + |r.payload| <= maxDataBytes
      modifies this, dir
      ensures dir.Settled() && OpenOn() && accepted == old(accepted)
      ensures dir.logs == old(dir.logs)[|old(dir.logs)| - 1 := Last(old(dir.logs)).With(r)]
      ensures old(dir.history) <= dir.history && dir.files.Keys == old(dir.files.Keys)
      ensures Spares(old(dir.files), dir.files, dir.prefix, iset{Last(old(dir.logs)).fileId})
      ensures id == IdAt(Last(dir.logs), |Last(dir.logs).recs| - 1)
    {
      hide Chain, Path, PrintId, SlotSize, EncodeData, PrintObject, Members, DataBytes, MetaBytes, IdxBytes, RawTotal,
        Dir.Building, Dir.Settled, Dir.Tail, Full, AsU64, AsU32, MetaOf, Line, SlotOf, RecordSize, EntryOf, IdAt,
        Stack.With, Stack.Data, Stack.Meta, NewDataRecord, Slot, Spares;
      ghost var was := Last(dir.logs);
      var mr := MetaRecord(r.time, dataOffset, AsU32(|r.payload|), r.cookie, r.filename, r.extra);
      var json := PrintObject(Members(mr));
      var ir := IndexRecord(r.cookie, dataOffset, AsU32(|r.payload|), metaOffset, AsU32(|json| + 1));
      var dr := NewDataRecord(r.cookie, r.payload);
      id := PrintId(IndexID(fileStackId, ir.offsetData, ir.cookie));
      BuiltRecords(was, r, json, dr);
      NextOffsets(was, r, json, dr);
      WithSame(was, r);
      PlanRecord(r);
      WriteRecord(dr, json, ir, was, r);
      totalRawBytes := totalRawBytes + |r.payload|;
      assert Last(dir.logs) == was.With(r);
      assert Shows(was.With(r));
    }

    // ---- rotating and closing ----

    /** A settled directory is complete up to its newest stack, whose entries are durable too. */
    lemma Reopen()
      requires dir.Settled() && dir.logs != []
      ensures dir.Building()
      ensures Last(dir.logs).recs != [] ==> |Full(Last(dir.logs), Idx)| <= dir.Tail(Idx).synced
    {
      hide Chain, Path, Safe, AllWritten, IdxBytes;
      SettledDurable();
      FirstWritten(dir.files, dir.prefix, dir.logs);
      assert Durable(dir.files, dir.prefix, dir.logs[|dir.logs| - 1]);
    }

    /** flush_and_close, for one handle: taken once its file is synced; a handle already taken is left alone. */
    method FlushAndClose(f: Option<Text>, works: bool, ghost k: Suffix) returns (left: Option<Text>)
      requires dir.Settled()
      requires f.Some? ==> dir.logs != [] && f.value == Path(dir.prefix, Last(dir.logs).fileId, k)
      modifies dir
      ensures dir.Settled() && dir.logs == old(dir.logs) && old(dir.history) <= dir.history
      ensures dir.files.Keys == old(dir.files.Keys)
      ensures f.None? || !works ==> left == f && unchanged(dir)
      ensures Spares(old(dir.files), dir.files, dir.prefix, Newest())
      ensures f.Some? && works ==> left.None? && dir.OnDisk(k)
      ensures forall l: Suffix :: l != k && old(dir.OnDisk(l)) ==> dir.OnDisk(l)
    {
      hide Chain, Path, Safe, Full, AllWritten, AllDurable, Dir.Tail, Dir.Building, Dir.Settled, Spares;
      SparesAll(dir.files, dir.prefix, Newest());
      left := f;
      if f.Some? && works {
        Reopen();
        TailsWritten();
        SyncAll(f.value, k);
        Complete();
        left := None;
      }
    }

    /** open: a writer over a fresh stack, or none if the stack could not be opened. */
    static method Open(dir: Dir, controller: bool, reply: Option<u64>, clock: u64, disk: Disk)
      returns (w: LocalWriter, r: OpenResult)
      requires dir.Settled() && clock + |dir.files| < U64
      modifies dir
      ensures fresh(w) && w.dir == dir && w.controller == controller && w.maxDataBytes == 0x1_4000_0000
      ensures w.base == |old(dir.logs)| && w.accepted == [] && w.Valid()
      ensures old(dir.history) <= dir.history && |dir.files| <= |old(dir.files)| + 3
      ensures r == OpenNoStackId <==> controller && reply.None?
      ensures r == OpenOk <==> Opens(old(dir.files), dir.prefix, controller, reply, clock, disk)
      ensures r == OpenOk ==>
        OpensAs(old(dir.files), dir.prefix, controller, reply, clock, w.fileStackId, w.headerStackId)
      ensures Spares(old(dir.files), dir.files, dir.prefix,
                     NewStacks(old(dir.files), dir.prefix, controller, reply, clock))
      ensures OpeningLeaves(old(dir.files), dir.files, dir.prefix, controller, reply, clock, disk)
      ensures if r == OpenOk then w.OpenOn() && dir.logs == old(dir.logs) + [Stack(w.fileStackId, w.headerStackId, [])]
              else w.Closed() && dir.logs == old(dir.logs)
    {
      hide Chain, Path, Greedy, Gather, Dir.Settled, RawTotal, AsU64, Stack.Data, Stack.Meta, Spares, OpeningLeaves,
        NewStacks, Opens, OpensAs;
      w := new LocalWriter(dir, controller, DEFAULT_MAX_DATA_BYTES);
      r := w.OpenStack(reply, clock, disk);
      if r == OpenOk {
        StartsGreedy(old(dir.logs), Stack(w.fileStackId, w.headerStackId, []), w.maxDataBytes);
      }
    }

    /**
     * Sync and drop the handles, data first, up to the first that fails; a later call goes on
     * there, and one that finds no handle has nothing to do.
     */
    method Close(disk: Disk) returns (ok: bool)
      requires Valid()
      modifies this, dir
      ensures Valid() && dir.logs == old(dir.logs) && accepted == old(accepted)
      ensures old(dir.history) <= dir.history && dir.files.Keys == old(dir.files.Keys)
      ensures Spares(old(dir.files), dir.files, dir.prefix, Newest())
      ensures ok <==> Closed()
      ensures ok <==> old(Closes(disk))
      ensures (dataFile, metaFile, idxFile) == old(HandlesLeft(disk))
      ensures dataFile.None? && old(dataFile).Some? ==> dir.OnDisk(Data)
      ensures metaFile.None? && old(metaFile).Some? ==> dir.OnDisk(Meta)
      ensures idxFile.None? && old(idxFile).Some? ==> dir.OnDisk(Idx)
      ensures old(Closed()) ==> unchanged(dir)
    {
      hide Chain, Path, Greedy, Gather, Dir.Settled, Dir.OnDisk, RawTotal, Stack.Data, Stack.Meta, AsU64, Spares;
      ghost var a, ids := dir.files, Newest();
      dataFile := FlushAndClose(dataFile, disk.data, Data);
      if dataFile.Some? {
        return false;
      }
      ghost var b := dir.files;
      metaFile := FlushAndClose(metaFile, disk.meta, Meta);
      SparesThrough(a, b, dir.files, dir.prefix, ids);
      if metaFile.Some? {
        return false;
      }
      ghost var c := dir.files;
      idxFile := FlushAndClose(idxFile, disk.index, Idx);
      SparesThrough(a, c, dir.files, dir.prefix, ids);
      return idxFile.None?;
    }

    method RotateStack(reply: Option<u64>, clock: u64, disk: Disk) returns (r: OpenResult)
      requires Valid() && clock + |dir.files| < U64
      modifies this, dir
      ensures dir.Settled() && accepted == old(accepted)
      ensures old(dir.history) <= dir.history && |dir.files| <= |old(dir.files)| + 3
      ensures r == OpenOk ==> OpenOn() && dir.logs == old(dir.logs) + [Stack(fileStackId, headerStackId, [])]
      ensures r == OpenOk ==>
        OpensAs(old(dir.files), dir.prefix, controller, reply, clock, fileStackId, headerStackId)
      ensures r != OpenOk ==> Valid() && dir.logs == old(dir.logs)
      ensures r != OpenOk ==> (dataFile, metaFile, idxFile) == old(HandlesLeft(disk))
      ensures r == OpenOk <==> old(Rotates(reply, clock, disk))
      ensures r == OpenNoStackId <==>
        && controller && reply.None? && old(Closes(disk))
      ensures Spares(old(dir.files), dir.files, dir.prefix, old(Newest() + News(reply, clock)))
      ensures if old(Closes(disk))
              then OpeningLeaves(old(dir.files), dir.files, dir.prefix, controller, reply, clock, disk)
              else dir.files.Keys == old(dir.files.Keys)
    {
      hide Chain, Path, Greedy, Gather, Dir.Settled, Shows, Opens, Spares, OpeningLeaves, NewStacks, OpensAs;
      ghost var a, ids := dir.files, Newest() + News(reply, clock);
      var closed := Close(disk);
      ghost var b := dir.files;
      SparesMore(a, b, dir.prefix, Newest(), ids);
      assert |b.Keys| == |a.Keys|;
      SameNames(a, b, dir.prefix, controller, reply, clock, disk);
      if !closed {
        return OpenIoFailed;
      }
      r := OpenStack(reply, clock, disk);
      SameLeaves(a, b, dir.files, dir.prefix, controller, reply, clock, disk);
      SparesMore(b, dir.files, dir.prefix, NewStacks(b, dir.prefix, controller, reply, clock), ids);
      SparesThrough(a, b, dir.files, dir.prefix, ids);
    }

    /** put answers: the writer is open, the payload allowed, and there is room or rotating works. */
    ghost predicate Puts(size: nat, reply: Option<u64>, clock: u64, disk: Disk)
      reads this, dir
    {
      Writable() && size <= maxDataBytes && (totalRawBytes + size <= maxDataBytes || Rotates(reply, clock, disk))
    }

    /** The part of put that rotates if the payload would overflow the newest stack. */
    method MakeRoom(size: nat, reply: Option<u64>, clock: u64, disk: Disk) returns (r: OpenResult)
      requires Valid() && Writable() && size <= maxDataBytes && clock + |dir.files| < U64
      modifies this, dir
      ensures dir.Settled() && accepted == old(accepted)
      ensures old(dir.history) <= dir.history && |dir.files| <= |old(dir.files)| + 3
      ensures r == OpenOk ==> OpenOn() && totalRawBytes + size <= maxDataBytes
      ensures r == OpenOk ==>
        if old(totalRawBytes) + size <= maxDataBytes then dir.logs == old(dir.logs) else
          && dir.logs == old(dir.logs) + [Stack(fileStackId, headerStackId, [])]
          && OpensAs(old(dir.files), dir.prefix, controller, reply, clock, fileStackId, headerStackId)
      ensures r != OpenOk ==> Valid() && dir.logs == old(dir.logs) && old(totalRawBytes) + size > maxDataBytes
      ensures r != OpenOk ==> (dataFile, metaFile, idxFile) == old(HandlesLeft(disk))
      ensures r == OpenOk <==> old(totalRawBytes + size <= maxDataBytes || Rotates(reply, clock, disk))
      ensures r == OpenNoStackId <==>
        old(totalRawBytes + size > maxDataBytes && Closes(disk)) && controller && reply.None?
      ensures old(totalRawBytes) + size <= maxDataBytes ==> unchanged(this) && unchanged(dir)
      ensures Spares(old(dir.files), dir.files, dir.prefix, old(Newest() + News(reply, clock)))
      ensures old(totalRawBytes) + size > maxDataBytes ==>
        if old(Closes(disk))
        then OpeningLeaves(old(dir.files), dir.files, dir.prefix, controller, reply, clock, disk)
        else dir.files.Keys == old(dir.files.Keys)
    {
      hide Rotates, OpensAs, FirstFree, LocalWriter.HandlesLeft, LocalWriter.Closes, Spares, OpeningLeaves, NewStacks,
        Greedy, Gather, Dir.Settled, RawTotal, Shows, Handle;
      SparesAll(dir.files, dir.prefix, Newest() + News(reply, clock));
      r := OpenOk;
      if totalRawBytes + size > maxDataBytes {
        r := RotateStack(reply, clock, disk);
        if r == OpenOk {
          OpenTotal();
          NoTotal();
        }
      }
    }

    /** The part of put behind the guards: the record joins the newest stack, where there is room. */
    method Accept(rec: Rec, ghost was: seq<Stack>) returns (id: Text)
      requires dir.Settled() && OpenOn() && totalRawBytes + |rec.payload| <= maxDataBytes
      requires base < |was| && Greedy(was, base, maxDataBytes) && Gather(was, base) == accepted
      requires dir.logs ==
        if RawTotal(Last(was).recs) + |rec.payload| <= maxDataBytes then was
        else was + [Stack(fileStackId, headerStackId, [])]
      modifies this, dir
      ensures Valid() && OpenOn() && accepted == old(accepted) + [rec]
      ensures fileStackId == old(fileStackId) && headerStackId == old(headerStackId)
      ensures dir.logs == Accepted(was, rec, maxDataBytes, fileStackId, headerStackId)
      ensures Last(dir.logs).recs != [] && id == IdAt(Last(dir.logs), |Last(dir.logs).recs| - 1)
      ensures old(dir.history) <= dir.history && dir.files.Keys == old(dir.files.Keys)
      ensures Spares(old(dir.files), dir.files, dir.prefix, iset{fileStackId})
    {
      hide Greedy, Gather, Dir.Settled, IdAt, RawTotal, Shows, Handle, Accepted, Spares;
      assert Stack(fileStackId, headerStackId, []).With(rec) == Stack(fileStackId, headerStackId, [rec]);
      OpenTotal();
      id := AppendRecord(rec);
      AcceptedKeepsOrder(was, base, maxDataBytes, rec, fileStackId, headerStackId);
      AcceptedIs(was, rec, maxDataBytes, fileStackId, headerStackId);
      OpenTotal();
      accepted := accepted + [rec];
      OpenValid();
    }

    /**
     * put. An accepted record becomes the next of the newest stack, or the first of a fresh one if
     * it would overflow it, and its id is returned; in every other case no stack changes.
     */
    method Put(data: seq<byte>, filename: Text, extra: Option<seq<byte>>, cookie: u32, now: u64,
               reply: Option<u64>, clock: u64, disk: Disk) returns (r: PutResult)
      requires Valid() && clock + |dir.files| < U64
      modifies this, dir
      ensures Valid() && old(dir.history) <= dir.history && |dir.files| <= |old(dir.files)| + 3
      ensures r == StackClosed <==> !old(Writable())
      ensures r == StackFull <==> old(Writable()) && |data| > maxDataBytes
      ensures r == StackClosed || r == StackFull ==> unchanged(this) && unchanged(dir)
      ensures r.PutOk? <==> old(Puts(|data|, reply, clock, disk))
      ensures r == NoStackId <==>
        && old(Writable()) && |data| <= maxDataBytes
        && old(totalRawBytes + |data| > maxDataBytes && Closes(disk)) && controller && reply.None?
      ensures r == IoFailed || r == NoStackId ==>
        && dir.logs == old(dir.logs) && accepted == old(accepted)
        && old(totalRawBytes) + |data| > maxDataBytes
        && (dataFile, metaFile, idxFile) == old(HandlesLeft(disk))
      ensures r.PutOk? ==>
        var rec := Rec(cookie, data, now, filename, if extra.Some? then extra.value else []);
        && OpenOn() && accepted == old(accepted) + [rec]
        && Last(dir.logs).recs != [] && r.id == IdAt(Last(dir.logs), |Last(dir.logs).recs| - 1)
        && dir.logs == Accepted(old(dir.logs), rec, maxDataBytes, fileStackId, headerStackId)
        && (old(totalRawBytes) + |data| > maxDataBytes ==>
              OpensAs(old(dir.files), dir.prefix, controller, reply, clock, fileStackId, headerStackId))
      ensures Spares(old(dir.files), dir.files, dir.prefix, old(Newest() + News(reply, clock)))
      ensures old(totalRawBytes) + |data| <= maxDataBytes || !old(Closes(disk)) ==>
        dir.files.Keys == old(dir.files.Keys)
      ensures old(totalRawBytes) + |data| > maxDataBytes && old(Closes(disk)) && (r == IoFailed || r == NoStackId) ==>
        OpeningLeaves(old(dir.files), dir.files, dir.prefix, controller, reply, clock, disk)
    {
      hide Rotates, LocalWriter.HandlesLeft, LocalWriter.Closes, Greedy, Gather, Dir.Settled, IdAt, RawTotal, Shows,
        Handle, Accepted, Spares, OpeningLeaves, NewStacks, OpensAs;
      ghost var a, ids := dir.files, Newest() + News(reply, clock);
      SparesAll(a, dir.prefix, ids);
      if dataFile.None? || idxFile.None? || metaFile.None? {
        return StackClosed;
      }
      if |data| > maxDataBytes {
        return StackFull;
      }
      OpenTotal();
      var room := MakeRoom(|data|, reply, clock, disk);
      if room == OpenIoFailed {
        return IoFailed;
      }
      if room == OpenNoStackId {
        return NoStackId;
      }
      ghost var b := dir.files;
      if old(totalRawBytes) + |data| > maxDataBytes {
        OnlyNew(a, reply, clock, fileStackId, headerStackId);
      }
      assert fileStackId in ids;
      var id := Accept(Rec(cookie, data, now, filename, if extra.Some? then extra.value else []), old(dir.logs));
      SparesMore(b, dir.files, dir.prefix, iset{fileStackId}, ids);
      SparesThrough(a, b, dir.files, dir.prefix, ids);
      assert |dir.files| == |b.Keys|;
      return PutOk(id);
    }

    lemma OpenTotal()
      requires OpenOn()
      ensures totalRawBytes == RawTotal(Last(dir.logs).recs) <= maxDataBytes
      ensures fileStackId == Last(dir.logs).fileId && headerStackId == Last(dir.logs).headerId
    {
    }

    lemma OpenWrites()
      requires OpenOn()
      ensures Writable()
    {
      hide Stack.Data, Stack.Meta, RawTotal, Path;
    }

    /** An open writer's handles are in order. */
    lemma OpenValid()
      requires dir.Settled() && OpenOn() && Greedy(dir.logs, base, maxDataBytes) && Gather(dir.logs, base) == accepted
      ensures Valid()
    {
      hide Greedy, Gather, Dir.Settled, RawTotal, Stack.Data, Stack.Meta, Path, AsU64;
    }
  }

  lemma EmptyFull(s: Stack)
    requires s.recs == []
    ensures Full(s, Data) == MagicHeader(DATA_MAGIC, s.headerId) + Zeros(4080)
    ensures Full(s, Idx) == MagicHeader(INDEX_MAGIC, s.headerId)
    ensures Full(s, Meta) == HeaderLine(s.headerId)
  {
  }

  lemma HeadsFull(s: Stack)
    requires s.recs == []
    ensures forall k: Suffix :: HeadLeft(GOOD_DISK.heads, s.headerId, k) == Full(s, k)
  {
    hide MagicHeader, HeaderLine, Full;
    EmptyFull(s);
    forall k: Suffix
      ensures HeadLeft(GOOD_DISK.heads, s.headerId, k) == Full(s, k)
    {
      match k
      case Data =>
      case Idx =>
      case Meta =>
    }
  }

  lemma FullIs(s: Stack)
    ensures Full(s, Data) == s.Data()
  {
  }

  lemma Parts(a: seq<byte>, b: seq<byte>)
    ensures [] + a == a && [] + a <= a + b && [] + a + b == a + b
  {
  }

  /** A write of part of the bytes that belong there keeps a file begun. */
  lemma StillBegun(file: DiskFile, bytes: seq<byte>, fault: Fault, full: seq<byte>)
    requires Begun(file, full) && file.bytes + bytes <= full
    ensures Begun(DiskFile(file.bytes + Landed(bytes, fault), file.synced), full)
    ensures fault.None? ==> Landed(bytes, fault) == bytes
  {
    assert file.bytes + Landed(bytes, fault) <= file.bytes + bytes;
  }

  /** What one more record appends to each file. */
  lemma DataWith(s: Stack, r: Rec)
    ensures Full(s.With(r), Data) == Full(s, Data) + SlotOf(r)
  {
    hide DataBytes, MetaBytes, IdxBytes, SlotOf, Line, EncodeIndex, EntryOf, LastEntry;
    Extend(s.headerId, s.recs, r);
  }

  lemma MetaWith(s: Stack, r: Rec)
    ensures Full(s.With(r), Meta) == Full(s, Meta) + Line(r, |s.Data()|)
  {
    hide DataBytes, MetaBytes, IdxBytes, SlotOf, Line, EncodeIndex, EntryOf, LastEntry;
    Extend(s.headerId, s.recs, r);
  }

  lemma IndexWith(s: Stack, r: Rec)
    ensures Full(s.With(r), Idx) == Full(s, Idx) + EncodeIndex(EntryOf(r, |s.Data()|, |s.Meta()|))
  {
    hide DataBytes, MetaBytes, IdxBytes, SlotOf, Line, EncodeIndex, EntryOf, LastEntry;
    Extend(s.headerId, s.recs, r);
  }

  lemma Pieces(have: seq<byte>, a: seq<byte>, b: seq<byte>, c: seq<byte>)
    ensures have + a + b + c == have + (a + b + c)
    ensures have + a <= have + (a + b + c) && have + a + b <= have + (a + b + c)
  {
  }

  lemma WithSame(s: Stack, r: Rec)
    ensures s.With(r).fileId == s.fileId && s.With(r).headerId == s.headerId
    ensures |s.With(r).recs| == |s.recs| + 1
  {
  }

  /** What put builds from its running offsets is the slot, line and entry of the next record. */
  lemma BuiltRecords(s: Stack, r: Rec, json: Text, dr: DataRecord)
    requires json == PrintObject(Members(MetaRecord(
                       r.time, AsU64(|s.Data()|), AsU32(|r.payload|), r.cookie, r.filename, r.extra)))
    requires dr == NewDataRecord(r.cookie, r.payload)
    ensures json + [NEWLINE] == Line(r, |s.Data()|)
    ensures EncodeData(dr.header) + dr.data + dr.padding == SlotOf(r)
    ensures IndexRecord(r.cookie, AsU64(|s.Data()|), AsU32(|r.payload|), AsU64(|s.Meta()|), AsU32(|json| + 1)) ==
            EntryOf(r, |s.Data()|, |s.Meta()|)
  {
    hide DataBytes, MetaBytes, PrintObject, Members, AsU64, AsU32, Slot, EncodeData, RecordSize;
  }

  /** The offsets, total and id after the next record. */
  lemma NextOffsets(s: Stack, r: Rec, json: Text, dr: DataRecord)
    requires json + [NEWLINE] == Line(r, |s.Data()|)
    requires RecordSize(dr) == SlotSize(|r.payload|)
    ensures AsU64(AsU64(|s.Data()|) + RecordSize(dr)) == AsU64(|s.With(r).Data()|)
    ensures AsU64(AsU64(|s.Meta()|) + |json| + 1) == AsU64(|s.With(r).Meta()|)
    ensures RawTotal(s.With(r).recs) == RawTotal(s.recs) + |r.payload|
    ensures IdAt(s.With(r), |s.recs|) == PrintId(IndexID(s.fileId, AsU64(|s.Data()|), r.cookie))
  {
    hide DataBytes, MetaBytes, IdxBytes, Line, EncodeIndex, PrintId, AsU64, LastEntry, Slot, RecordSize;
    Extend(s.headerId, s.recs, r);
    assert s.With(r).recs[..|s.recs|] == s.recs;
    WrappingAdd(|s.Data()|, SlotSize(|r.payload|));
    WrappingAdd(|s.Meta()|, |json| + 1);
  }
}
