/**
 Interleavings from the empty cache in which no call fails and every write is faithful,
 and which end with a hole served as content or with a recorded range lost.
 */
module FailingRaces {
  import opened Base
  import opened IntervalTable
  import opened DiskEngine
  import opened DiskCoherence
  import opened EngineRaces
  import opened RaceRefinement
  import opened FailingRuns

  const COLD := Idle(EMPTY)

  /** The moves are legal and lead from one state to the other. */
  ghost predicate Leads(r: Racing, moves: seq<Move>, r': Racing)
  {
    Exec(r, moves) == r' && LegalMoves(r, moves)
  }

  lemma Then(r: Racing, a: seq<Move>, r1: Racing, b: seq<Move>, r2: Racing)
    requires Leads(r, a, r1) && Leads(r1, b, r2)
    ensures Leads(r, a + b, r2)
  {
    ExecPlus(r, a, b);
  }

  lemma OneMove(r: Racing, move: Move)
    requires !move.Progress? && !move.Sync?
    ensures Leads(r, [move], Next(r, move))
  {
    ExecOne(r, move);
  }

  lemma TwoMoves(r: Racing, a: Move, b: Move)
    requires !a.Progress? && !a.Sync? && !b.Progress? && !b.Sync?
    ensures Leads(r, [a, b], Next(Next(r, a), b))
  {
    hide Leads, Next;
    OneMove(r, a);
    OneMove(Next(r, a), b);
    Then(r, [a], Next(r, a), [b], Next(Next(r, a), b));
    assert [a] + [b] == [a, b];
  }

  lemma StoreLeads(r: Racing, before: Bytes, start: u64, bytes: Bytes)
    requires Free(r, "a") && Opened(r.engine, "a") == before && bytes != [] && start + |bytes| - 1 < U64_MAX
    ensures var op := StoreOver(before, start, bytes); Leads(r, WriteMoves(r.engine, op), r.(engine := Apply(r.engine, op)))
  {
    hide Apply, Exec, LegalMoves, WriteMoves, Patch;
    StoreLegal(r.engine, before, start, bytes);
    WriteUninterrupted(r, StoreOver(before, start, bytes));
  }

  /** Legal moves and faithful writes end in a cache that serves a hole. */
  ghost predicate RacesIntoHoles(origin: Key -> Bytes, moves: seq<Move>)
  {
    && LegalMoves(COLD, moves) && FaithfulMoves(origin, moves)
    && var e := Exec(COLD, moves).engine;
    && CheckRange(e, "a", 0, 3) && "a" in e.disk.data && e.disk.data["a"] == [0, 0, 7, 7] && !AllSound(origin, Exec(COLD, moves))
  }

  /** With the index still promising the first two bytes, the next store promises all four. */
  lemma StoreOntoPromise(e: Engine)
    requires "a" in e.index && e.index["a"].completed == [Interval(0, 1)] && "a" !in e.disk.data
    ensures var after := Apply(e, Store(2, [7, 7]));
      && "a" in after.disk.data && after.disk.data["a"] == [0, 0, 7, 7]
      && "a" in after.index && after.index["a"].completed == [Interval(0, 3)]
  {
    hide Apply, Merge;
    StoreEffect(e, [], 2, [7, 7]);
    MergeAdjacent();
    var holed: Bytes := [0, 0, 7, 7];
    assert Patch([], 2, [7, 7]) == holed;
  }

  lemma HolesUnsound(origin: Key -> Bytes, r: Racing)
    requires origin("a") == [7, 7, 7, 7] && "a" in r.engine.disk.data && "a" in r.engine.index
    requires r.engine.disk.data["a"] == [0, 0, 7, 7] && r.engine.index["a"].completed == [Interval(0, 3)]
    ensures !AllSound(origin, r) && CheckRange(r.engine, "a", 0, 3)
  {
    var t := r.engine.index["a"].completed;
    assert t[0] == Interval(0, 3);
    assert Covers(t, 0);
    assert Holds(r, "a", t);
  }

  /** Only the writes of these runs matter for faithfulness. */
  predicate Stores(moves: seq<Move>)
  {
    forall i :: 0 <= i < |moves| && moves[i].OpenWrite? ==>
      moves[i].op == Store(0, [7, 7]) || moves[i].op == Store(2, [7, 7]) || moves[i].op == StoreOver([7, 7], 2, [7, 7])
  }

  lemma StoresAreFaithful(origin: Key -> Bytes, moves: seq<Move>)
    requires origin("a") == [7, 7, 7, 7] && Stores(moves)
    ensures FaithfulMoves(origin, moves)
  {
    hide FaithfulOp, StoreOver;
    assert origin("a")[0..2] == [7, 7] && origin("a")[2..4] == [7, 7];
    StoreFaithful(origin, [], 0, [7, 7]);
    StoreFaithful(origin, [], 2, [7, 7]);
    StoreFaithful(origin, [7, 7], 2, [7, 7]);
  }

  lemma WritesAreStores(e: Engine, op: Op)
    requires op == Store(0, [7, 7]) || op == Store(2, [7, 7]) || op == StoreOver([7, 7], 2, [7, 7])
    ensures Stores(WriteMoves(e, op))
  {
  }

  lemma StoresPlus(a: seq<Move>, b: seq<Move>)
    requires Stores(a) && Stores(b)
    ensures Stores(a + b)
  {
    hide StoreOver;
    forall i | 0 <= i < |a + b| && (a + b)[i].OpenWrite?
      ensures (a + b)[i].op == Store(0, [7, 7]) || (a + b)[i].op == Store(2, [7, 7]) || (a + b)[i].op == StoreOver([7, 7], 2, [7, 7])
    {
      if i < |a| { assert (a + b)[i] == a[i]; } else { assert (a + b)[i] == b[i - |a|]; }
    }
  }

  /** The last store of a race that left the promise in the index and took the file. */
  lemma LastStore(origin: Key -> Bytes, moves: seq<Move>, r: Racing)
    requires origin("a") == [7, 7, 7, 7] && Leads(COLD, moves, r) && Stores(moves) && Free(r, "a")
    requires "a" in r.engine.index && r.engine.index["a"].completed == [Interval(0, 1)] && "a" !in r.engine.disk.data
    ensures RacesIntoHoles(origin, moves + WriteMoves(r.engine, Store(2, [7, 7])))
  {
    hide Apply, WriteMoves, AllSound, CheckRange, Patch, FaithfulMoves, Stores, Exec, LegalMoves;
    var last := WriteMoves(r.engine, Store(2, [7, 7]));
    var r' := r.(engine := Apply(r.engine, Store(2, [7, 7])));
    StoreLeads(r, [], 2, [7, 7]);
    Then(COLD, moves, r, last, r');
    StoreOntoPromise(r.engine);
    HolesUnsound(origin, r');
    WritesAreStores(r.engine, Store(2, [7, 7]));
    StoresPlus(moves, last);
    StoresAreFaithful(origin, moves + last);
  }

  // ----- a query that overlaps a delete -----

  const KNOWN := Stored([7, 7]).index["a"]
  const RESTARTED := Idle(Stored([7, 7]).(index := map[]))
  const ASKED := RESTARTED.(queries := map[0 := Hand("a", KNOWN, true)])
  const POISONED := Idle(EMPTY.(index := map["a" := KNOWN]))

  function AskAfterRestart(): seq<Move>
  {
    WriteMoves(EMPTY, Store(0, [7, 7])) + [Crash] + [BeginQuery(0, "a"), StatQuery(0, true)]
  }

  lemma QueryAsks()
    ensures Next(Next(RESTARTED, BeginQuery(0, "a")), StatQuery(0, true)) == ASKED
  {
    assert MetadataIsValid(KNOWN, "a", Some(2));
    var asking := RESTARTED.(queries := map[0 := Hand("a", KNOWN, false)]);
    assert Next(RESTARTED, BeginQuery(0, "a")) == asking;
  }

  lemma Restarts()
    ensures Next(Idle(Stored([7, 7])), Crash) == RESTARTED && Free(Idle(Stored([7, 7])), "a")
  {
  }

  lemma Asks()
    ensures Leads(COLD, AskAfterRestart(), ASKED) && Stores(AskAfterRestart())
  {
    hide Apply, WriteMoves, Patch, Leads, Next, Stores, Stored;
    FirstStore([7, 7]);
    QueryAsks();
    Restarts();
    var write := WriteMoves(EMPTY, Store(0, [7, 7]));
    StoreLeads(COLD, [], 0, [7, 7]);
    OneMove(Idle(Stored([7, 7])), Crash);
    Then(COLD, write, Idle(Stored([7, 7])), [Crash], RESTARTED);
    TwoMoves(RESTARTED, BeginQuery(0, "a"), StatQuery(0, true));
    Then(COLD, write + [Crash], RESTARTED, [BeginQuery(0, "a"), StatQuery(0, true)], ASKED);
    WritesAreStores(EMPTY, Store(0, [7, 7]));
    NoStores();
    StoresPlus(write, [Crash]);
    StoresPlus(write + [Crash], [BeginQuery(0, "a"), StatQuery(0, true)]);
  }

  lemma NoStores()
    ensures Stores([Crash]) && Stores([BeginQuery(0, "a"), StatQuery(0, true)]) && Stores([EndQuery(0, "")]) && Stores(DeleteMoves("a", BothGone))
    ensures Stores([ScanLook("a", true)]) && Stores([ScanUnlink("a", true), ScanUnlink("a", true)])
    ensures forall e: Engine :: Stores(MetaMoves(e, "a", Some(4), None, true, ""))
    ensures Stores([BeginRecord("a", Hit)] + EditMoves("a", true, ""))
  {
    hide StoreOver;
  }

  function LateQuery(): seq<Move>
  {
    AskAfterRestart() + DeleteMoves("a", BothGone) + [EndQuery(0, "")] + WriteMoves(POISONED.engine, Store(2, [7, 7]))
  }

  lemma DeleteUnderQuery()
    ensures Leads(ASKED, DeleteMoves("a", BothGone), ASKED.(engine := EMPTY))
    ensures Next(ASKED.(engine := EMPTY), EndQuery(0, "")) == POISONED
  {
    assert DeleteEngine(ASKED.engine, "a", BothGone) == EMPTY;
    assert ASKED.queries - {0} == map[];
    hide Exec, Next;
    DeleteUninterrupted(ASKED, "a", BothGone);
    ExecThree(ASKED, BeginDelete("a"), DeleteData("a", true), DeleteSidecar("a", true));
  }

  /** The query puts the deleted sidecar back into the index, and the next write makes it promise a hole. */
  lemma LateQueryServesHoles(origin: Key -> Bytes)
    requires origin("a") == [7, 7, 7, 7]
    ensures RacesIntoHoles(origin, LateQuery())
  {
    hide Leads, Stores, AskAfterRestart, DeleteMoves, WriteMoves, Patch, Next, RacesIntoHoles;
    Asks();
    DeleteUnderQuery();
    NoStores();
    var a, b := AskAfterRestart(), DeleteMoves("a", BothGone);
    Then(COLD, a, ASKED, b, ASKED.(engine := EMPTY));
    OneMove(ASKED.(engine := EMPTY), EndQuery(0, ""));
    Then(COLD, a + b, ASKED.(engine := EMPTY), [EndQuery(0, "")], POISONED);
    StoresPlus(a, b);
    StoresPlus(a + b, [EndQuery(0, "")]);
    LastStore(origin, a + b + [EndQuery(0, "")], POISONED);
  }

  // ----- the scan and a first write -----

  const NOTED := RangeMetadata(1, [], Some("a"), Some(4), None)
  const FILLED := NOTED.(completed := [Interval(0, 1)])
  const SEEN := Idle(Engine(Disk(map[], map["a" := NOTED]), map["a" := NOTED])).(doomed := map["a" := Both])
  const WRITTEN := Engine(Disk(map["a" := [7, 7]], map["a" := FILLED]), map["a" := FILLED])

  /** Metadata is recorded before any data, and the scan finds it without a data file. */
  function ScanSees(): seq<Move>
  {
    MetaMoves(EMPTY, "a", Some(4), None, true, "") + [ScanLook("a", true)]
  }

  lemma Sees()
    ensures Leads(COLD, ScanSees(), SEEN) && Stores(ScanSees())
  {
    var noted := SEEN.(doomed := map[]);
    assert UpdateMetadata(EMPTY, "a", SetMeta(Some(4), None), true, "").0 == noted.engine;
    assert Next(noted, ScanLook("a", true)) == SEEN;
    hide Next, Stores, MetaMoves, Exec, LegalMoves;
    var meta := MetaMoves(EMPTY, "a", Some(4), None, true, "");
    MetaUninterrupted(COLD, "a", Some(4), None, true, "");
    OneMove(noted, ScanLook("a", true));
    Then(COLD, meta, noted, [ScanLook("a", true)], SEEN);
    NoStores();
    StoresPlus(meta, [ScanLook("a", true)]);
  }

  lemma FirstFill()
    ensures Apply(SEEN.engine, Store(0, [7, 7])) == WRITTEN
  {
    hide Apply, Merge, Patch;
    StoreEffect(SEEN.engine, [], 0, [7, 7]);
    MergeFirst(1);
    PatchFirst([7, 7]);
  }

  /** After the scan's two unlinks nothing is left on disk. */
  lemma Unlinks(r: Racing)
    requires "a" in r.doomed && r.doomed["a"] == Both
    ensures Next(Next(r, ScanUnlink("a", true)), ScanUnlink("a", true)) == DataGone(SidecarGone(r, "a"), "a").(doomed := r.doomed["a" := DataOnce])
  {
    var between := SidecarGone(r, "a").(doomed := r.doomed["a" := DataTwice]);
    assert Next(r, ScanUnlink("a", true)) == between;
    assert between.doomed["a" := DataOnce] == r.doomed["a" := DataOnce];
  }

  const EMPTIED := SEEN.(engine := Engine(Disk(map[], map[]), map["a" := FILLED]), doomed := map["a" := DataOnce])

  function LateScan(): seq<Move>
  {
    ScanSees() + WriteMoves(SEEN.engine, Store(0, [7, 7])) + [ScanUnlink("a", true), ScanUnlink("a", true)] + WriteMoves(EMPTIED.engine, Store(2, [7, 7]))
  }

  lemma UnlinksWritten()
    ensures Next(Next(SEEN.(engine := WRITTEN), ScanUnlink("a", true)), ScanUnlink("a", true)) == EMPTIED
  {
    hide Next;
    Unlinks(SEEN.(engine := WRITTEN));
    assert WRITTEN.disk.sidecar - {"a"} == map[] && WRITTEN.disk.data - {"a"} == map[];
    assert SEEN.doomed["a" := DataOnce] == map["a" := DataOnce];
  }

  /** The scan unlinks what a first write has just stored, the index goes on promising it, and the next write makes that a hole. */
  lemma LateScanServesHoles(origin: Key -> Bytes)
    requires origin("a") == [7, 7, 7, 7]
    ensures RacesIntoHoles(origin, LateScan())
  {
    hide Leads, Stores, ScanSees, WriteMoves, Patch, Next, RacesIntoHoles, Apply;
    Sees();
    FirstFill();
    UnlinksWritten();
    NoStores();
    var a, b, c := ScanSees(), WriteMoves(SEEN.engine, Store(0, [7, 7])), [ScanUnlink("a", true), ScanUnlink("a", true)];
    StoreLeads(SEEN, [], 0, [7, 7]);
    Then(COLD, a, SEEN, b, SEEN.(engine := WRITTEN));
    TwoMoves(SEEN.(engine := WRITTEN), ScanUnlink("a", true), ScanUnlink("a", true));
    Then(COLD, a + b, SEEN.(engine := WRITTEN), c, EMPTIED);
    WritesAreStores(SEEN.engine, Store(0, [7, 7]));
    StoresPlus(a, b);
    StoresPlus(a + b, c);
    LastStore(origin, a + b + c, EMPTIED);
  }

  // ----- the scan within a first write -----

  /** The first write has synced its bytes and not yet recorded them. */
  const SYNCED := SEEN.(
    engine := Engine(Disk(map["a" := [7, 7]], map["a" := NOTED]), map["a" := NOTED]), writers := map["a" := Synced(0, 1)])

  /** The scan has unlinked both files under the write. */
  const UNDERCUT := SYNCED.(engine := Engine(Disk(map[], map[]), map["a" := NOTED]), doomed := map["a" := DataOnce])

  const RECORDED := UNDERCUT.(engine := Engine(Disk(map[], map["a" := FILLED]), map["a" := FILLED]), writers := map[])

  lemma Syncs()
    ensures Leads(SEEN, [OpenWrite(Store(0, [7, 7])), Sync("a")], SYNCED)
  {
    hide Exec, LegalMoves, Next, LegalMove, LegalIo, Patch;
    var op := Store(0, [7, 7]);
    StoreLegal(SEEN.engine, [], 0, [7, 7]);
    OpenEffect(SEEN, op);
    SyncEffect(SEEN, op);
    DrainOne([7, 7], 2);
    PatchFirst([7, 7]);
    ExecPlus(SEEN, [OpenWrite(op)], [Sync("a")]);
    ExecOne(SEEN, OpenWrite(op));
    ExecOne(Next(SEEN, OpenWrite(op)), Sync("a"));
    assert [OpenWrite(op)] + [Sync("a")] == [OpenWrite(op), Sync("a")];
    assert Next(Next(SEEN, OpenWrite(op)), Sync("a")) == SYNCED;
  }

  lemma UnlinksSynced()
    ensures Next(Next(SYNCED, ScanUnlink("a", true)), ScanUnlink("a", true)) == UNDERCUT
  {
    hide Next;
    Unlinks(SYNCED);
    assert SYNCED.engine.disk.sidecar - {"a"} == map[] && SYNCED.engine.disk.data - {"a"} == map[];
    assert SEEN.doomed["a" := DataOnce] == map["a" := DataOnce];
  }

  /** The update takes its metadata from the index, which the scan does not touch. */
  lemma RecordEffect()
    ensures UpdateMetadata(UNDERCUT.engine, "a", AddRange(0, 1), true, "").0 == RECORDED.engine
  {
    hide Merge;
    MergeFirst(1);
  }

  lemma RecordBegins()
    ensures Next(UNDERCUT, BeginRecord("a", Hit)) == BeginEdit(UNDERCUT, "a", AddRange(0, 1), Hit)
    ensures EndUpdate(UNDERCUT, "a", AddRange(0, 1)).(engine := RECORDED.engine) == RECORDED
  {
    hide BeginEdit;
  }

  lemma RecordsAnyway()
    ensures Leads(UNDERCUT, [BeginRecord("a", Hit)] + EditMoves("a", true, ""), RECORDED)
  {
    hide Exec, LegalMoves, Next, LegalMove, BeginEdit, EditMoves, UpdateMetadata, EndUpdate;
    RecordEffect();
    RecordBegins();
    UpdateUninterrupted(UNDERCUT, "a", AddRange(0, 1), true, "");
    ExecOne(UNDERCUT, BeginRecord("a", Hit));
    NeverLegal(UNDERCUT, BeginRecord("a", Hit));
    ExecPlus(UNDERCUT, [BeginRecord("a", Hit)], EditMoves("a", true, ""));
  }

  function ScanInWrite(): seq<Move>
  {
    ScanSees() + [OpenWrite(Store(0, [7, 7])), Sync("a")] + [ScanUnlink("a", true), ScanUnlink("a", true)]
    + ([BeginRecord("a", Hit)] + EditMoves("a", true, "")) + WriteMoves(RECORDED.engine, Store(2, [7, 7]))
  }

  /** The scan unlinks the file under a first write, the write then records the lost bytes, and the next write makes them a hole. */
  lemma ScanInWriteServesHoles(origin: Key -> Bytes)
    requires origin("a") == [7, 7, 7, 7]
    ensures RacesIntoHoles(origin, ScanInWrite())
  {
    hide Leads, ScanSees, WriteMoves, EditMoves, Patch, Next, RacesIntoHoles;
    var a, b, c := ScanSees(), [OpenWrite(Store(0, [7, 7])), Sync("a")], [ScanUnlink("a", true), ScanUnlink("a", true)];
    var d := [BeginRecord("a", Hit)] + EditMoves("a", true, "");
    assert Stores(b) by { hide StoreOver; }
    hide Stores;
    Sees();
    Syncs();
    Then(COLD, a, SEEN, b, SYNCED);
    UnlinksSynced();
    TwoMoves(SYNCED, ScanUnlink("a", true), ScanUnlink("a", true));
    Then(COLD, a + b, SYNCED, c, UNDERCUT);
    RecordsAnyway();
    Then(COLD, a + b + c, UNDERCUT, d, RECORDED);
    NoStores();
    StoresPlus(a, b);
    StoresPlus(a + b, c);
    StoresPlus(a + b + c, d);
    LastStore(origin, a + b + c + d, RECORDED);
  }

  // ----- a query that overlaps a write -----

  const GROWN := KNOWN.(completed := [Interval(0, 3)])
  const GROWN_DISK := Disk(map["a" := [7, 7, 7, 7]], map["a" := GROWN])
  const BEHIND := Idle(Engine(GROWN_DISK, map["a" := KNOWN]))
  const SHRUNK := KNOWN.(total := Some(4))

  /** A query holds the sidecar of the first two bytes while the next two are written. */
  function WriteUnderQuery(): seq<Move>
  {
    AskAfterRestart() + WriteMoves(ASKED.engine, StoreOver([7, 7], 2, [7, 7]))
  }

  function LostUpdate(): seq<Move>
  {
    WriteUnderQuery() + [EndQuery(0, "")] + MetaMoves(BEHIND.engine, "a", Some(4), None, true, "")
  }

  lemma StillValid()
    ensures View(WithData(ASKED.engine, "a", [7, 7, 7, 7]), "a") == KNOWN
  {
  }

  lemma Grows()
    ensures Apply(ASKED.engine, StoreOver([7, 7], 2, [7, 7])) == Engine(GROWN_DISK, map["a" := GROWN])
  {
    hide Apply, Merge, View;
    var whole: Bytes := [7, 7, 7, 7];
    assert Patch([7, 7], 2, [7, 7]) == whole;
    StillValid();
    StoreEffect(ASKED.engine, [7, 7], 2, [7, 7]);
    MergeAdjacent();
  }

  lemma WritesUnderQuery()
    ensures Leads(COLD, WriteUnderQuery(), ASKED.(engine := Engine(GROWN_DISK, map["a" := GROWN]))) && Stores(WriteUnderQuery())
  {
    hide Leads, Stores, AskAfterRestart, WriteMoves, Patch, Apply;
    var op := StoreOver([7, 7], 2, [7, 7]);
    Asks();
    Grows();
    StoreLeads(ASKED, [7, 7], 2, [7, 7]);
    Then(COLD, AskAfterRestart(), ASKED, WriteMoves(ASKED.engine, op), ASKED.(engine := Engine(GROWN_DISK, map["a" := GROWN])));
    WritesAreStores(ASKED.engine, op);
    StoresPlus(AskAfterRestart(), WriteMoves(ASKED.engine, op));
  }

  lemma AnswersLate()
    ensures Next(ASKED.(engine := Engine(GROWN_DISK, map["a" := GROWN])), EndQuery(0, "")) == BEHIND
    ensures UpdateMetadata(BEHIND.engine, "a", SetMeta(Some(4), None), true, "").0 ==
      Engine(GROWN_DISK.(sidecar := map["a" := SHRUNK]), map["a" := SHRUNK])
  {
    assert ASKED.queries - {0} == map[];
  }

  /**
   A query puts the sidecar from before a write back into the index, and the next metadata
   update commits it: the bytes are in the file, no call failed, and they are no longer cached.
   */
  lemma LostUpdateForgetsWrite(origin: Key -> Bytes)
    requires origin("a") == [7, 7, 7, 7]
    ensures LegalMoves(COLD, LostUpdate()) && FaithfulMoves(origin, LostUpdate())
    ensures Exec(COLD, WriteUnderQuery()).engine.disk == GROWN_DISK
    ensures Exec(COLD, LostUpdate()).engine.disk == GROWN_DISK.(sidecar := map["a" := SHRUNK])
    ensures !CheckRange(Exec(COLD, LostUpdate()).engine, "a", 0, 3)
  {
    WritesUnderQuery();
    AnswersLate();
    hide Stores, WriteUnderQuery, MetaMoves, Next, FaithfulMoves, Exec, LegalMoves, UpdateMetadata;
    var late, after := ASKED.(engine := Engine(GROWN_DISK, map["a" := GROWN])), Engine(GROWN_DISK.(sidecar := map["a" := SHRUNK]), map["a" := SHRUNK]);
    var a, b, c := WriteUnderQuery(), [EndQuery(0, "")], MetaMoves(BEHIND.engine, "a", Some(4), None, true, "");
    OneMove(late, EndQuery(0, ""));
    Then(COLD, a, late, b, BEHIND);
    MetaUninterrupted(BEHIND, "a", Some(4), None, true, "");
    Then(COLD, a + b, BEHIND, c, Idle(after));
    NoStores();
    StoresPlus(a, b);
    StoresPlus(a + b, c);
    StoresAreFaithful(origin, a + b + c);
  }
}
