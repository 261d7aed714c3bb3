/**
 An operation whose moves nothing interrupts is the one step that DiskEngine makes of it,
 so the runs of DiskEngine are runs of EngineRaces.
 */
module RaceRefinement {
  import opened Base
  import opened IntervalTable
  import opened DiskEngine
  import opened EngineRaces

  lemma {:induction false} ExecPlus(r: Racing, a: seq<Move>, b: seq<Move>)
    ensures Exec(r, a + b) == Exec(Exec(r, a), b)
    ensures LegalMoves(r, a + b) <==> LegalMoves(r, a) && LegalMoves(Exec(r, a), b)
    decreases |a|
  {
    hide Next, LegalMove;
    if a == [] {
      assert a + b == b;
    } else {
      assert (a + b)[1..] == a[1..] + b;
      ExecPlus(Next(r, a[0]), a[1..], b);
    }
  }

  lemma ExecOne(r: Racing, move: Move)
    ensures Exec(r, [move]) == Next(r, move)
    ensures LegalMoves(r, [move]) <==> LegalMove(r, move)
  {
    hide Next, LegalMove;
    assert [move][1..] == [];
  }

  function LookupOf(e: Engine, key: Key): Lookup { if key in e.index then Hit else Miss }

  function QueryMoves(query: nat, key: Key, victim: Key): seq<Move>
  {
    [BeginQuery(query, key), StatQuery(query, true), EndQuery(query, victim)]
  }

  /** The moves of an update after its lookup. */
  function EditMoves(key: Key, commitOk: bool, victim: Key): seq<Move>
  {
    [StatUpdate(key, true), Commit(key, commitOk), Finish(key, victim)]
  }

  function MetaMoves(e: Engine, key: Key, total: Option<u64>, contentType: Option<string>, commitOk: bool, victim: Key): seq<Move>
  {
    [BeginUpdate(key, total, contentType, LookupOf(e, key))] + EditMoves(key, commitOk, victim)
  }

  function WriteMoves(e: Engine, op: Op): seq<Move>
    requires op.Write?
  {
    [OpenWrite(op), Sync(op.key), BeginRecord(op.key, LookupOf(e, op.key))] + EditMoves(op.key, op.io.commitOk, op.io.victim)
  }

  function DeleteMoves(key: Key, outcome: DeleteOutcome): seq<Move>
  {
    [BeginDelete(key), DeleteData(key, !outcome.DataStuck?), DeleteSidecar(key, outcome.BothGone?)]
  }

  predicate Free(r: Racing, key: Key) { key !in r.writers && key !in r.updates && key !in r.deletions }

  lemma ExecThree(r: Racing, a: Move, b: Move, c: Move)
    ensures Exec(r, [a, b, c]) == Next(Next(Next(r, a), b), c)
    ensures LegalMoves(r, [a, b, c]) <==> LegalMove(r, a) && LegalMove(Next(r, a), b) && LegalMove(Next(Next(r, a), b), c)
  {
    hide Next, LegalMove;
    assert [a, b, c] == [a] + ([b] + [c]);
    ExecPlus(r, [a], [b] + [c]);
    ExecPlus(Next(r, a), [b], [c]);
    ExecOne(r, a);
    ExecOne(Next(r, a), b);
    ExecOne(Next(Next(r, a), b), c);
  }

  // ----- queries and deletes -----

  function Asking(r: Racing, query: nat, key: Key, checked: bool): Racing
    requires key in r.engine.disk.sidecar
  {
    r.(queries := r.queries[query := Hand(key, r.engine.disk.sidecar[key], checked)])
  }

  lemma QuerySteps(r: Racing, query: nat, key: Key, victim: Key)
    requires query !in r.queries
    ensures key !in r.engine.disk.sidecar ==>
      QueryMove(r, BeginQuery(query, key)) == r && QueryMove(r, StatQuery(query, true)) == r && QueryMove(r, EndQuery(query, victim)) == r
    ensures key in r.engine.disk.sidecar ==>
      && QueryMove(r, BeginQuery(query, key)) == Asking(r, query, key, false)
      && QueryMove(Asking(r, query, key, false), StatQuery(query, true)) ==
           (if MetadataIsValid(r.engine.disk.sidecar[key], key, FileSize(r.engine.disk, key)) then Asking(r, query, key, true) else r)
  {
    hide MetadataIsValid;
    if key in r.engine.disk.sidecar {
      var asking := Asking(r, query, key, false);
      assert asking.queries - {query} == r.queries;
      assert asking.queries[query := asking.queries[query].(checked := true)] == Asking(r, query, key, true).queries;
    }
  }

  lemma AnswerStep(r: Racing, query: nat, key: Key, victim: Key)
    requires query !in r.queries
    ensures QueryMove(r, EndQuery(query, victim)) == r
    ensures key in r.engine.disk.sidecar ==>
      QueryMove(Asking(r, query, key, true), EndQuery(query, victim)) == Indexed(r, key, r.engine.disk.sidecar[key], victim)
  {
    hide IndexInsert;
    if key in r.engine.disk.sidecar { assert Asking(r, query, key, true).queries - {query} == r.queries; }
  }

  lemma QueryUninterrupted(r: Racing, query: nat, key: Key, victim: Key)
    requires query !in r.queries && key !in r.engine.index
    ensures Exec(r, QueryMoves(query, key, victim)) == r.(engine := Touch(r.engine, key, victim))
  {
    hide MetadataIsValid, IndexInsert, Exec, QueryMove, Asking, UpdateMove, WriteMove, DeleteMove, ScanMove;
    ExecThree(r, BeginQuery(query, key), StatQuery(query, true), EndQuery(query, victim));
    QuerySteps(r, query, key, victim);
    AnswerStep(r, query, key, victim);
  }

  lemma DeleteUninterrupted(r: Racing, key: Key, outcome: DeleteOutcome)
    requires Free(r, key)
    ensures Exec(r, DeleteMoves(key, outcome)) == r.(engine := DeleteEngine(r.engine, key, outcome))
  {
    hide Exec, QueryMove, UpdateMove, WriteMove, ScanMove;
    var a, b, c := BeginDelete(key), DeleteData(key, !outcome.DataStuck?), DeleteSidecar(key, outcome.BothGone?);
    ExecThree(r, a, b, c);
    var e := r.engine;
    var r1 := r.(engine := e.(index := e.index - {key}), deletions := r.deletions[key := AtData]);
    assert Next(r, a) == r1;
    if outcome.DataStuck? {
      assert r1.deletions - {key} == r.deletions;
      assert Next(r1, b) == r.(engine := r1.engine);
    } else {
      var r2 := DataGone(r1, key).(deletions := r.deletions[key := AtSidecar]);
      assert r1.deletions[key := AtSidecar] == r.deletions[key := AtSidecar];
      assert Next(r1, b) == r2;
      assert r2.deletions - {key} == r.deletions;
    }
  }

  // ----- updates and writes -----

  /** The state in which the lookup leaves an update. */
  lemma LookupThenStat(r: Racing, key: Key, edit: Edit)
    requires key !in r.updates
    ensures var r1 := BeginEdit(r, key, edit, LookupOf(r.engine, key));
      (if key in r1.updates && r1.updates[key].Reading? then UpdateMove(r1, StatUpdate(key, true)) else r1) == StartEdit(r, key, edit, View(r.engine, key))
  {
    hide MetadataIsValid;
    var e := r.engine;
    if key !in e.index && key in e.disk.sidecar {
      var r1 := r.(updates := r.updates[key := Reading(edit, e.disk.sidecar[key])]);
      SecondEdit(r, Reading(edit, e.disk.sidecar[key]), key, edit, View(e, key));
    }
  }

  /** An update in progress is overwritten by its edit. */
  lemma SecondEdit(r: Racing, u: Update, key: Key, edit: Edit, base: RangeMetadata)
    requires key !in r.updates
    ensures StartEdit(r.(updates := r.updates[key := u]), key, edit, base) == StartEdit(r, key, edit, base)
  {
    hide Merge;
    var updates, v := r.updates[key := u], Editing(edit, Stamp(EditMetadata(base, edit), key));
    assert updates - {key} == r.updates && r.updates - {key} == r.updates;
    assert updates[key := v] == r.updates[key := v];
  }

  /** The moves of an update are disabled when there is none. */
  lemma NoUpdateNoMove(r: Racing, key: Key, commitOk: bool, victim: Key)
    requires key !in r.updates
    ensures Exec(r, EditMoves(key, commitOk, victim)) == r && LegalMoves(r, EditMoves(key, commitOk, victim))
  {
    hide Exec, LegalMoves, QueryMove, WriteMove, DeleteMove, ScanMove;
    ExecThree(r, StatUpdate(key, true), Commit(key, commitOk), Finish(key, victim));
  }

  /** What commit and index insertion make of an edit. */
  lemma EditUninterrupted(r: Racing, key: Key, edit: Edit, m: RangeMetadata, commitOk: bool, victim: Key)
    requires key !in r.updates
    ensures var r1 := r.(updates := r.updates[key := Editing(edit, m)]);
      var e := r.engine;
      var committed := Engine(e.disk.(sidecar := e.disk.sidecar[key := m]), IndexInsert(e.index, key, m, victim));
      UpdateMove(UpdateMove(r1, Commit(key, commitOk)), Finish(key, victim)) == EndUpdate(r, key, edit).(engine := if commitOk then committed else e)
  {
    hide IndexInsert;
    var r1 := r.(updates := r.updates[key := Editing(edit, m)]);
    assert r1.updates - {key} == r.updates == r.updates - {key};
    if commitOk {
      var r2 := UpdateMove(r1, Commit(key, true));
      assert r2.updates - {key} == r.updates;
    }
  }

  lemma UpdateUninterrupted(r: Racing, key: Key, edit: Edit, commitOk: bool, victim: Key)
    requires key !in r.updates
    ensures var r1 := BeginEdit(r, key, edit, LookupOf(r.engine, key));
      && Exec(r1, EditMoves(key, commitOk, victim)) == EndUpdate(r, key, edit).(engine := UpdateMetadata(r.engine, key, edit, commitOk, victim).0)
      && LegalMoves(r1, EditMoves(key, commitOk, victim))
  {
    hide Exec, LegalMoves, QueryMove, WriteMove, DeleteMove, ScanMove, MetadataIsValid, BeginEdit, IndexInsert, View, EditMetadata, EndUpdate;
    var r1 := BeginEdit(r, key, edit, LookupOf(r.engine, key));
    var stat, commit, finish := StatUpdate(key, true), Commit(key, commitOk), Finish(key, victim);
    ExecThree(r1, stat, commit, finish);
    LookupThenStat(r, key, edit);
    var base := View(r.engine, key);
    var edited := EditMetadata(base, edit);
    var r2 := StartEdit(r, key, edit, base);
    assert Next(r1, stat) == r2;
    if edit.SetMeta? && edited == base {
      NoneLeft(r, key, edit);
    } else {
      EditUninterrupted(r, key, edit, Stamp(edited, key), commitOk, victim);
    }
  }

  lemma NoneLeft(r: Racing, key: Key, edit: Edit)
    requires key !in r.updates
    ensures key !in EndUpdate(r, key, edit).updates && EndUpdate(r, key, edit).engine == r.engine
    ensures edit.SetMeta? ==> EndUpdate(r, key, edit) == r
  {
    assert r.updates - {key} == r.updates;
  }

  lemma MetaUninterrupted(r: Racing, key: Key, total: Option<u64>, contentType: Option<string>, commitOk: bool, victim: Key)
    requires Free(r, key)
    ensures var moves := MetaMoves(r.engine, key, total, contentType, commitOk, victim);
      Exec(r, moves) == r.(engine := UpdateMetadata(r.engine, key, SetMeta(total, contentType), commitOk, victim).0) && LegalMoves(r, moves)
  {
    hide Exec, LegalMoves, BeginEdit, UpdateMetadata, EditMoves, EndUpdate, QueryMove, WriteMove, DeleteMove, ScanMove;
    var edit, begin := SetMeta(total, contentType), BeginUpdate(key, total, contentType, LookupOf(r.engine, key));
    assert Next(r, begin) == BeginEdit(r, key, edit, LookupOf(r.engine, key));
    ExecOne(r, begin);
    ExecPlus(r, [begin], EditMoves(key, commitOk, victim));
    UpdateUninterrupted(r, key, edit, commitOk, victim);
    NoneLeft(r, key, edit);
  }

  // the three phases of a write

  lemma OpenEffect(r: Racing, op: Op)
    requires op.Write? && Free(r, op.key)
    ensures LegalMove(r, OpenWrite(op))
    ensures var e := r.engine;
      Next(r, OpenWrite(op)) ==
        if Limit(op.start, op.end).Err? || !op.io.openOk then r
        else if !op.io.seekOk then r.(engine := WithData(e, op.key, Opened(e, op.key)))
        else r.(engine := WithData(e, op.key, Opened(e, op.key)), writers := r.writers[op.key := Streaming(op)])
  {
    hide QueryMove, UpdateMove, DeleteMove, ScanMove, Limit;
  }

  lemma SyncEffect(r: Racing, op: Op)
    requires op.Write? && Limit(op.start, op.end).Ok? && Free(r, op.key)
    ensures var r1 := r.(engine := WithData(r.engine, op.key, Opened(r.engine, op.key)), writers := r.writers[op.key := Streaming(op)]);
      var r2 := r.(engine := WithData(r.engine, op.key, FileAfter(Opened(r.engine, op.key), op.start, op.stream, DrainOf(op), op.io)));
      && Next(r1, Sync(op.key)) == (if WillRecord(op) then r2.(writers := r.writers[op.key := Synced(op.start, op.start + |DrainOf(op).bytes| - 1)]) else r2)
      && (LegalMove(r1, Sync(op.key)) <==> LegalIo(r.engine, op))
  {
    hide QueryMove, UpdateMove, DeleteMove, ScanMove, FileAfter, Drain, TornBy, Limit;
    var e, key := r.engine, op.key;
    var r1 := r.(engine := WithData(e, key, Opened(e, key)), writers := r.writers[key := Streaming(op)]);
    var file := FileAfter(Opened(e, key), op.start, op.stream, DrainOf(op), op.io);
    assert Opened(r1.engine, key) == Opened(e, key);
    assert WithData(r1.engine, key, file) == WithData(e, key, file);
    assert r1.writers - {key} == r.writers;
    var synced := Synced(op.start, Max(0, Min(U64_MAX, op.start + |DrainOf(op).bytes| - 1)));
    assert r1.writers[key := synced] == r.writers[key := synced];
  }

  /** A write that nothing interrupts. */
  lemma WriteUninterrupted(r: Racing, op: Op)
    requires op.Write? && Free(r, op.key) && LegalIo(r.engine, op)
    ensures Exec(r, WriteMoves(r.engine, op)) == r.(engine := Apply(r.engine, op)) && LegalMoves(r, WriteMoves(r.engine, op))
  {
    hide Exec, LegalMoves, BeginEdit, UpdateMetadata, EditMoves, EndUpdate, Next, LegalMove, FileAfter, Drain, LegalIo, Limit;
    var e, key := r.engine, op.key;
    var open, sync, record := OpenWrite(op), Sync(key), BeginRecord(key, LookupOf(e, key));
    var r1 := Next(r, open);
    var r2 := Next(r1, sync);
    var r3 := Next(r2, record);
    ExecThree(r, open, sync, record);
    ExecPlus(r, [open, sync, record], EditMoves(key, op.io.commitOk, op.io.victim));
    OpenEffect(r, op);
    if Limit(op.start, op.end).Err? || !op.io.openOk || !op.io.seekOk {
      Stopped(r1, key, op.io.commitOk, op.io.victim, LookupOf(e, key));
    } else {
      SyncEffect(r, op);
      if WillRecord(op) { Recorded(r, op, r2); }
      else { Stopped(r2, key, op.io.commitOk, op.io.victim, LookupOf(e, key)); SyncedIsFile(e, op); NeverLegal(r2, record); }
    }
  }

  lemma NeverLegal(r: Racing, move: Move)
    ensures !move.Progress? && !move.Sync? ==> LegalMove(r, move)
  {
  }

  /** With no write under way, the rest of its moves is disabled. */
  lemma Stopped(r: Racing, key: Key, commitOk: bool, victim: Key, lookup: Lookup)
    requires Free(r, key)
    ensures Next(r, Sync(key)) == r && Next(r, BeginRecord(key, lookup)) == r && LegalMove(r, Sync(key)) && LegalMove(r, BeginRecord(key, lookup))
    ensures Exec(r, EditMoves(key, commitOk, victim)) == r && LegalMoves(r, EditMoves(key, commitOk, victim))
  {
    hide Exec, LegalMoves, EditMoves;
    NoUpdateNoMove(r, key, commitOk, victim);
  }

  /** A write that does not record leaves the file as the sync left it. */
  lemma SyncedIsFile(e: Engine, op: Op)
    requires op.Write? && Limit(op.start, op.end).Ok? && op.io.openOk && op.io.seekOk && !WillRecord(op)
    ensures Apply(e, op) == WithData(e, op.key, FileAfter(Opened(e, op.key), op.start, op.stream, DrainOf(op), op.io))
  {
    hide Drain, FileAfter, UpdateMetadata, Limit;
  }

  lemma Recorded(r: Racing, op: Op, r2: Racing)
    requires op.Write? && Limit(op.start, op.end).Ok? && op.io.openOk && op.io.seekOk && WillRecord(op) && Free(r, op.key)
    requires var file := FileAfter(Opened(r.engine, op.key), op.start, op.stream, DrainOf(op), op.io);
      r2 == r.(engine := WithData(r.engine, op.key, file), writers := r.writers[op.key := Synced(op.start, op.start + |DrainOf(op).bytes| - 1)])
    ensures var r3 := Next(r2, BeginRecord(op.key, LookupOf(r.engine, op.key)));
      && LegalMove(r2, BeginRecord(op.key, LookupOf(r.engine, op.key)))
      && Exec(r3, EditMoves(op.key, op.io.commitOk, op.io.victim)) == r.(engine := Apply(r.engine, op))
      && LegalMoves(r3, EditMoves(op.key, op.io.commitOk, op.io.victim))
  {
    hide Exec, LegalMoves, BeginEdit, UpdateMetadata, EditMoves, FileAfter, Drain, Limit, QueryMove, WriteMove, DeleteMove, ScanMove;
    var key := op.key;
    var edit := AddRange(op.start, op.start + |DrainOf(op).bytes| - 1);
    assert Next(r2, BeginRecord(key, LookupOf(r.engine, key))) == BeginEdit(r2, key, edit, LookupOf(r2.engine, key));
    UpdateUninterrupted(r2, key, edit, op.io.commitOk, op.io.victim);
    assert r2.writers - {key} == r.writers && r2.updates - {key} == r.updates;
  }

  // ----- locks, streaming and the scan -----

  /** The locks of a key: a delete excludes everything but queries and the scan, a write other writes, an update other updates. */
  lemma LocksExclude(r: Racing, op: Op, key: Key, total: Option<u64>, contentType: Option<string>, lookup: Lookup)
    requires op.Write?
    ensures key !in r.deletions ==> (key in Next(r, BeginDelete(key)).deletions <==> key !in r.writers && key !in r.updates)
    ensures op.key !in r.writers ==>
      (op.key in Next(r, OpenWrite(op)).writers <==> op.key !in r.deletions && Limit(op.start, op.end).Ok? && op.io.openOk && op.io.seekOk)
    ensures op.key in r.writers || op.key in r.deletions ==> Next(r, OpenWrite(op)) == r
    ensures key in r.updates || key in r.deletions ==> Next(r, BeginUpdate(key, total, contentType, lookup)) == r
    ensures key in r.updates ==> Next(r, BeginRecord(key, lookup)) == r
  {
    hide Limit, BeginEdit;
  }

  /** What a write streams reaches its file as long as the file is at its path. */
  lemma StreamReaches(r: Racing, key: Key, bytes: Bytes)
    requires key in r.writers && r.writers[key].Streaming?
    ensures var d := r.engine.disk.data;
      Next(r, Progress(key, bytes)) == r.(engine := r.engine.(disk := r.engine.disk.(data := if key in d then d[key := bytes] else d)))
  {
  }

  /** The scan dooms exactly the pairs it cannot read or does not believe, and its three unlinks leave neither file of such a pair. */
  lemma ScanUnlinks(r: Racing, key: Key, readable: bool)
    requires key !in r.doomed && key in r.engine.disk.sidecar
    ensures var r1 := Next(r, ScanLook(key, readable));
      && (key in r1.doomed <==> !readable || key !in r.engine.disk.data || Load(r.engine.disk, key).None?)
      && (key in r1.doomed ==>
           var unlink := ScanUnlink(key, true);
           var r4 := Next(Next(Next(r1, unlink), unlink), unlink);
           key !in r4.doomed && key !in r4.engine.disk.sidecar && key !in r4.engine.disk.data && r4.engine.index == r.engine.index)
  {
    hide MetadataIsValid;
  }
}
