/**
 Runs of whole operations from the empty cache that break a property: a delete and a
 restart that leave a stale sidecar behind, a file replaced under a read, and a total
 recorded below the length of the file.
 */
module FailingRuns {
  import opened Base
  import opened IntervalTable
  import opened DiskEngine
  import opened WriteAccounting
  import opened DiskCoherence
  import opened IndexTransparency

  /** A write that nothing disturbs. */
  const SMOOTH := WriteIo(true, true, None, true, true, [], "")

  /** Writes the bytes into a file that holds `before`. */
  function StoreOver(before: Bytes, start: u64, bytes: Bytes): Op
    requires bytes != [] && start + |bytes| - 1 < U64_MAX
  {
    Write("a", start, start + |bytes| - 1, [Chunk(bytes)], SMOOTH.(torn := Patch(before, start, bytes)))
  }

  /** Writes the bytes into a new file. */
  function Store(start: u64, bytes: Bytes): Op
    requires bytes != [] && start + |bytes| - 1 < U64_MAX
  {
    StoreOver([], start, bytes)
  }

  lemma DrainOne(bytes: Bytes, n: u64)
    requires |bytes| == n
    ensures Drain([Chunk(bytes)], Some(n), None, 0, []) == Drained(1, bytes, Ended)
  {
    assert Drain([Chunk(bytes)], Some(n), None, 1, [] + bytes) == Drained(1, bytes, Ended);
    assert [] + bytes == bytes;
  }

  /** What an undisturbed write does. */
  lemma StoreEffect(e: Engine, before: Bytes, start: u64, bytes: Bytes)
    requires bytes != [] && start + |bytes| - 1 < U64_MAX && ("a" in e.index || e.index == map[])
    ensures var e1 := WithData(e, "a", Patch(Opened(e, "a"), start, bytes));
      var m := Stamp(EditMetadata(View(e1, "a"), AddRange(start, start + |bytes| - 1)), "a");
      Apply(e, StoreOver(before, start, bytes)) == Engine(e1.disk.(sidecar := e1.disk.sidecar["a" := m]), e.index["a" := m])
  {
    hide Drain, Merge, MetadataIsValid;
    DrainOne(bytes, |bytes|);
  }

  /** The store is a step the file system allows on a file with that content. */
  lemma StoreLegal(e: Engine, before: Bytes, start: u64, bytes: Bytes)
    requires bytes != [] && start + |bytes| - 1 < U64_MAX && Opened(e, "a") == before
    ensures LegalIo(e, StoreOver(before, start, bytes))
  {
    hide Drain, Patch, TornBy;
    DrainOne(bytes, |bytes|);
    PatchIsTorn(before, start, bytes);
  }

  lemma StoreFaithful(origin: Key -> Bytes, before: Bytes, start: u64, bytes: Bytes)
    requires bytes != [] && start + |bytes| - 1 < U64_MAX && At(origin("a"), start, bytes)
    ensures FaithfulOp(origin, StoreOver(before, start, bytes))
  {
    assert [Chunk(bytes)][1..] == [];
    assert Payload([Chunk(bytes)]) == bytes + Payload([]);
  }

  /** The first store into an empty cache. */
  function Stored(bytes: Bytes): Engine
    requires 0 < |bytes| < U64_MAX
  {
    var m := RangeMetadata(1, [Interval(0, |bytes| - 1)], Some("a"), None, None);
    Engine(Disk(map["a" := bytes], map["a" := m]), map["a" := m])
  }

  lemma MergeFirst(hi: u64)
    ensures Merge([], 0, hi) == [Interval(0, hi)]
  {
  }

  lemma PatchFirst(bytes: Bytes)
    ensures Patch([], 0, bytes) == bytes
  {
  }

  lemma FirstStore(bytes: Bytes)
    requires 0 < |bytes| < U64_MAX
    ensures Apply(EMPTY, Store(0, bytes)) == Stored(bytes)
  {
    hide Apply, Merge, Patch;
    StoreEffect(EMPTY, [], 0, bytes);
    MergeFirst(|bytes| - 1);
    PatchFirst(bytes);
  }

  lemma RunTwo(e: Engine, a: Op, b: Op)
    ensures Run(e, [a, b]) == Apply(Apply(e, a), b)
    ensures LegalRun(e, [a, b]) <==> LegalIo(e, a) && LegalIo(Apply(e, a), b)
  {
    hide Apply, LegalIo;
    assert [a, b][1..] == [b] && [b][1..] == [];
    assert Run(Apply(e, a), [b]) == Apply(Apply(e, a), b);
    assert LegalRun(Apply(e, a), [b]) <==> LegalIo(Apply(e, a), b);
  }

  lemma RunThree(e: Engine, a: Op, b: Op, c: Op)
    ensures Run(e, [a, b, c]) == Apply(Apply(Apply(e, a), b), c)
    ensures LegalRun(e, [a, b, c]) <==> LegalIo(e, a) && LegalIo(Apply(e, a), b) && LegalIo(Apply(Apply(e, a), b), c)
    ensures LeavesStale(Apply(e, a), b) ==> !NeverStale(e, [a, b, c])
  {
    hide Apply, LegalIo, LeavesStale;
    assert [a, b, c][1..] == [b, c];
    RunTwo(Apply(e, a), b, c);
  }

  // ----- stale sidecars -----

  /** The sidecar of two stored bytes whose data file is gone. */
  const STRANDED := Engine(Disk(map[], Stored([7, 7]).disk.sidecar), map[])

  /** The next store makes the sidecar valid again and joins its promise. */
  lemma StoreOntoStale()
    ensures var e := Apply(STRANDED, Store(2, [7, 7]));
      e.disk.data == map["a" := [0, 0, 7, 7]] && "a" in e.index && e.index["a"].completed == [Interval(0, 3)]
  {
    hide Apply, Merge;
    StoreEffect(STRANDED, [], 2, [7, 7]);
    MergeAdjacent();
    var holed: Bytes := [0, 0, 7, 7];
    assert Patch([], 2, [7, 7]) == holed;
    assert MetadataIsValid(STRANDED.disk.sidecar["a"], "a", Some(4));
  }

  lemma MergeAdjacent()
    ensures Merge([Interval(0, 1)], 2, 3) == [Interval(0, 3)]
  {
    var t := [Interval(0, 1)];
    assert FirstReaching(t, 2) == 0 && FirstBeyond(t, 3) == 1;
    assert t[0..1] == t;
    assert WidestEnd(t, 3) == 3;
  }

  lemma HolesIncoherent(origin: Key -> Bytes, e: Engine)
    requires origin("a") == [7, 7, 7, 7] && "a" in e.disk.data && "a" in e.index
    requires e.disk.data["a"] == [0, 0, 7, 7] && e.index["a"].completed == [Interval(0, 3)]
    ensures !Coherent(origin, e) && CheckRange(e, "a", 0, 3)
  {
    assert e.index["a"].completed[0] == Interval(0, 3);
    assert Covers(e.index["a"].completed, 0);
  }

  /** The run serves a hole as if it were the origin's bytes, though every write in it is faithful. */
  ghost predicate ServesHoles(origin: Key -> Bytes, ops: seq<Op>)
  {
    && LegalRun(EMPTY, ops) && FaithfulRun(origin, ops) && !NeverStale(EMPTY, ops)
    && var e := Run(EMPTY, ops);
    && CheckRange(e, "a", 0, 3) && "a" in e.disk.data && e.disk.data["a"] == [0, 0, 7, 7] && !Coherent(origin, e)
  }

  lemma StaleServesHoles(origin: Key -> Bytes, loss: Op)
    requires origin("a") == [7, 7, 7, 7] && !loss.Write?
    requires LeavesStale(Stored([7, 7]), loss) && Apply(Stored([7, 7]), loss) == STRANDED
    ensures ServesHoles(origin, [Store(0, [7, 7]), loss, Store(2, [7, 7])])
  {
    hide Apply, LegalRun, NeverStale, Coherent, LeavesStale, CheckRange, Run;
    var ops := [Store(0, [7, 7]), loss, Store(2, [7, 7])];
    FirstStore([7, 7]);
    StoreOntoStale();
    RunThree(EMPTY, ops[0], loss, ops[2]);
    StoreLegal(EMPTY, [], 0, [7, 7]);
    StoreLegal(STRANDED, [], 2, [7, 7]);
    HolesIncoherent(origin, Run(EMPTY, ops));
    assert origin("a")[0..2] == [7, 7] && origin("a")[2..4] == [7, 7];
    StoreFaithful(origin, [], 0, [7, 7]);
    StoreFaithful(origin, [], 2, [7, 7]);
  }

  /** A delete that unlinks the data file and then fails on the sidecar. */
  lemma HalfDeleteServesHoles(origin: Key -> Bytes)
    requires origin("a") == [7, 7, 7, 7]
    ensures ServesHoles(origin, [Store(0, [7, 7]), Delete("a", SidecarStuck), Store(2, [7, 7])])
  {
    hide ServesHoles;
    StaleServesHoles(origin, Delete("a", SidecarStuck));
  }

  /** A crash in the same place, and a scan that does not reach the pair or cannot unlink its sidecar. */
  lemma HalfRestartServesHoles(origin: Key -> Bytes, scan: ScanIo)
    requires origin("a") == [7, 7, 7, 7] && ("a" in scan.unscanned || "a" in scan.sidecarStuck)
    ensures ServesHoles(origin, [Store(0, [7, 7]), Restart(Some("a"), scan), Store(2, [7, 7])])
  {
    hide ServesHoles;
    var loss := Restart(Some("a"), scan);
    assert Promises(Stored([7, 7]).disk, "a");
    assert Apply(Stored([7, 7]), loss).disk.data == map[];
    assert Apply(Stored([7, 7]), loss).disk.sidecar == STRANDED.disk.sidecar;
    StaleServesHoles(origin, loss);
  }

  // ----- a file replaced under a read -----

  /** What the last store leaves: the two bytes, and a hole before them that nothing promises. */
  lemma StoreAfterDelete()
    ensures var e := Apply(EMPTY, Store(2, [7, 7])); e.disk.data == map["a" := [0, 0, 7, 7]]
  {
    hide Apply, Merge;
    StoreEffect(EMPTY, [], 2, [7, 7]);
    var holed: Bytes := [0, 0, 7, 7];
    assert Patch([], 2, [7, 7]) == holed;
  }

  lemma CoveredAfterStore()
    ensures Covered(Stored([7, 7, 7, 7]), "a", 0, 3) && Apply(Stored([7, 7, 7, 7]), Delete("a", BothGone)) == EMPTY
  {
    assert Stored([7, 7, 7, 7]).index["a"].completed[0] == Interval(0, 3);
  }

  /** A faithful store into the empty cache is legal and keeps coherence. */
  lemma FreshStore(origin: Key -> Bytes, start: u64, bytes: Bytes)
    requires bytes != [] && start + |bytes| - 1 < U64_MAX && At(origin("a"), start, bytes)
    ensures var op := Store(start, bytes);
      LegalIo(EMPTY, op) && FaithfulOp(origin, op) && Coherent(origin, Apply(EMPTY, op))
  {
    hide Apply, FaithfulOp, LegalIo, Patch;
    StoreLegal(EMPTY, [], start, bytes);
    StoreFaithful(origin, [], start, bytes);
    StepKeeps(origin, EMPTY, Store(start, bytes));
  }

  /**
   A read that looks at the metadata, and whose file is deleted and written anew before it
   is opened, streams a hole as the origin's bytes. Both states are coherent.
   */
  lemma ReplacedFileServesHoles(origin: Key -> Bytes)
    requires origin("a") == [7, 7, 7, 7]
    ensures var looked := Stored([7, 7, 7, 7]);
      var ops := [Delete("a", BothGone), Store(2, [7, 7])];
      && LegalRun(looked, ops) && FaithfulRun(origin, ops)
      && Coherent(origin, looked) && Coherent(origin, Run(looked, ops))
      && ReadAcross(looked, Run(looked, ops), "a", 0, 3) == Ok((0, 3)) && Run(looked, ops).disk.data["a"] == [0, 0, 7, 7]
  {
    hide Apply, Coherent, Covered, FaithfulOp, Run, LegalRun, LegalIo, Patch, Stored;
    var looked, gone := Stored([7, 7, 7, 7]), Delete("a", BothGone);
    CoveredAfterStore();
    RunTwo(looked, gone, Store(2, [7, 7]));
    StoreAfterDelete();
    assert origin("a")[0..4] == [7, 7, 7, 7] && origin("a")[2..4] == [7, 7];
    FirstStore([7, 7, 7, 7]);
    FreshStore(origin, 0, [7, 7, 7, 7]);
    FreshStore(origin, 2, [7, 7]);
    DeleteIsHarmless(origin, looked, gone);
  }

  lemma DeleteIsHarmless(origin: Key -> Bytes, e: Engine, op: Op)
    requires op.Delete?
    ensures LegalIo(e, op) && FaithfulOp(origin, op)
  {
  }

  // ----- a low total -----

  const LOWERED := [Store(0, [7, 7, 7, 7]), RecordMeta("a", Some(2), None, true, "")]

  lemma LoweredState()
    ensures LegalRun(EMPTY, LOWERED)
    ensures var m := Stored([7, 7, 7, 7]).index["a"].(total := Some(2));
      Run(EMPTY, LOWERED) == Engine(Disk(map["a" := [7, 7, 7, 7]], map["a" := m]), map["a" := m])
  {
    hide Run, LegalRun, WriteEngine;
    FirstStore([7, 7, 7, 7]);
    RunTwo(EMPTY, LOWERED[0], LOWERED[1]);
    StoreLegal(EMPTY, [], 0, [7, 7, 7, 7]);
  }

  /** A total recorded below the file length: the index still accepts a range that a fresh load refuses. */
  lemma LowTotalIsVisible()
    ensures LegalRun(EMPTY, LOWERED) && !AlwaysSame(EMPTY, EMPTY.disk, LOWERED)
    ensures var e := Run(EMPTY, LOWERED); CheckRange(e, "a", 0, 1) && !CheckRange(Reloading(e.disk), "a", 0, 1)
  {
    hide Run, LegalRun, AlwaysSame;
    LoweredState();
    var e := Run(EMPTY, LOWERED);
    assert e.index["a"].completed[0] == Interval(0, 3);
    assert CheckRange(e, "a", 0, 1) && !CheckRange(Reloading(e.disk), "a", 0, 1);
    if AlwaysSame(EMPTY, EMPTY.disk, LOWERED) {
      SameAtEnd(EMPTY, LOWERED);
      AnswersFollowView(e, e.disk, "a", 0, 1);
    }
  }

  lemma {:induction false} SameAtEnd(e: Engine, ops: seq<Op>)
    requires IndexOk(e) && LegalRun(e, ops) && AlwaysSame(e, e.disk, ops)
    ensures SameAnswers(Run(e, ops), Run(e, ops).disk)
    decreases |ops|
  {
    hide Apply, SameAnswers, IndexOk, LegalIo, Reply;
    IndexTransparent(e, ops);
    if ops != [] {
      StepOk(e, ops[0]);
      IndexTransparent(Apply(e, ops[0]), ops[1..]);
      SameAtEnd(Apply(e, ops[0]), ops[1..]);
    }
  }
}
