/** Reads that race with everything else: the metadata is looked at in one state, the file opened in a later one. */
module RaceReads {
  import opened Base
  import opened DiskEngine
  import opened WriteAccounting
  import opened DiskCoherence
  import opened EngineRaces

  lemma SoundIsBelievable(origin: Key -> Bytes, r: Racing, key: Key)
    requires AllSound(origin, r)
    ensures Believable(origin, r.engine, key)
  {
    var t := View(r.engine, key).completed;
    assert t == [] || Holds(r, key, t);
    hide AllSound, Holds, Sound;
    HeldMay(origin, r, key, t);
  }

  lemma SameFileKept(content: Bytes, before: Disk, after: Disk, key: Key)
    requires key in before.data && key in after.data && after.data[key] == before.data[key]
    ensures KeepsFile(content, before, after, key)
  {
  }

  lemma WithinKeepsFile(content: Bytes, r: Racing, r': Racing, key: Key)
    requires key in r.engine.disk.data && key in r'.engine.disk.data
    requires NoNewFiles(r, r')
    ensures KeepsFile(content, r.engine.disk, r'.engine.disk, key)
  {
    SameFileKept(content, r.engine.disk, r'.engine.disk, key);
  }

  ghost predicate NoNewFiles(r: Racing, r': Racing)
  {
    forall k :: k in r'.engine.disk.data ==> k in r.engine.disk.data && r'.engine.disk.data[k] == r.engine.disk.data[k]
  }

  lemma QueryKeepsFiles(r: Racing, move: Move)
    requires move.BeginQuery? || move.StatQuery? || move.EndQuery?
    ensures QueryMove(r, move).engine.disk == r.engine.disk
  {
    hide MetadataIsValid, IndexInsert;
  }

  lemma EditKeepsFiles(r: Racing, key: Key, edit: Edit, base: RangeMetadata)
    ensures StartEdit(r, key, edit, base).engine == r.engine
  {
    hide EditMetadata;
  }

  lemma UpdateKeepsFiles(r: Racing, move: Move)
    requires move.BeginUpdate? || move.BeginRecord? || move.StatUpdate? || move.Commit? || move.Finish?
    ensures UpdateMove(r, move).engine.disk.data == r.engine.disk.data
  {
    hide MetadataIsValid, IndexInsert, StartEdit;
    forall edit, base ensures StartEdit(r, move.key, edit, base).engine == r.engine { EditKeepsFiles(r, move.key, edit, base); }
  }

  lemma DeleteKeepsFiles(r: Racing, move: Move)
    requires move.BeginDelete? || move.DeleteData? || move.DeleteSidecar?
    ensures NoNewFiles(r, DeleteMove(r, move))
  {
  }

  lemma ScanKeepsFiles(r: Racing, move: Move)
    requires move.ScanLook? || move.ScanUnlink?
    ensures NoNewFiles(r, ScanMove(r, move))
  {
    hide Keeps;
  }

  /** The moves that are not part of a write change no file's bytes. */
  lemma OthersKeepFiles(r: Racing, move: Move)
    requires !(move.OpenWrite? || move.Progress? || move.Sync?)
    ensures NoNewFiles(r, Next(r, move))
  {
    hide WriteMove, QueryMove, UpdateMove, DeleteMove, ScanMove;
    if move.BeginQuery? || move.StatQuery? || move.EndQuery? { QueryKeepsFiles(r, move); }
    else if move.BeginUpdate? || move.BeginRecord? || move.StatUpdate? || move.Commit? || move.Finish? { UpdateKeepsFiles(r, move); }
    else if move.BeginDelete? || move.DeleteData? || move.DeleteSidecar? { DeleteKeepsFiles(r, move); }
    else if move.ScanLook? || move.ScanUnlink? { ScanKeepsFiles(r, move); }
  }

  lemma TornKeepsFile(content: Bytes, e: Engine, written: Key, after: Bytes, start: nat, bytes: Bytes, key: Key)
    requires key in e.disk.data && TornBy(Opened(e, written), after, start, bytes)
    requires written == key && bytes != [] ==> At(content, start, bytes)
    ensures KeepsFile(content, e.disk, WithData(e, written, after).disk, key)
  {
    if written == key {
      forall x | 0 <= x < |e.disk.data[key]| && x < |content| && e.disk.data[key][x] == content[x] ensures after[x] == content[x] {
        if bytes != [] && start <= x < start + |bytes| { assert content[start..start + |bytes|][x - start] == content[x]; }
      }
    }
  }

  lemma StreamKeepsFile(origin: Key -> Bytes, r: Racing, move: Move, key: Key)
    requires WellRun(origin, r) && LegalMove(r, move) && key in r.engine.disk.data && (move.OpenWrite? || move.Progress? || move.Sync?)
    ensures KeepsFile(origin(key), r.engine.disk, WriteMove(r, move).engine.disk, key)
  {
    hide WellRun, LegalMove, KeepsFile, TornBy, At, DrainOf, FileAfter, WillRecord;
    SameFileKept(origin(key), r.engine.disk, r.engine.disk, key);
    match move
    case OpenWrite(op) =>
      if op.Write? {
        TornSame(Opened(r.engine, op.key), 0, []);
        TornKeepsFile(origin(key), r.engine, op.key, Opened(r.engine, op.key), 0, [], key);
      }
    case Progress(k, bytes) =>
      if k in r.writers && r.writers[k].Streaming? {
        StreamingFacts(origin, r, move);
        var op := r.writers[k].op;
        TornKeepsFile(origin(key), r.engine, k, bytes, op.start, Attempted(op.stream, DrainOf(op)), key);
      }
    case Sync(k) =>
      if k in r.writers && r.writers[k].Streaming? {
        StreamingFacts(origin, r, move);
        var op := r.writers[k].op;
        FileIsTorn(Opened(r.engine, k), op.start, op.stream, DrainOf(op), op.io);
        TornKeepsFile(origin(key), r.engine, k, FileAfter(Opened(r.engine, k), op.start, op.stream, DrainOf(op), op.io), op.start, Attempted(op.stream, DrainOf(op)), key);
      }
  }

  lemma MoveKeepsFile(origin: Key -> Bytes, r: Racing, move: Move, key: Key)
    requires WellRun(origin, r) && LegalMove(r, move) && key in r.engine.disk.data && key in Next(r, move).engine.disk.data
    ensures KeepsFile(origin(key), r.engine.disk, Next(r, move).engine.disk, key)
  {
    hide WellRun, LegalMove, KeepsFile, QueryMove, UpdateMove, WriteMove, DeleteMove, ScanMove;
    if move.OpenWrite? || move.Progress? || move.Sync? { StreamKeepsFile(origin, r, move, key); }
    else {
      OthersKeepFiles(r, move);
      WithinKeepsFile(origin(key), r, Next(r, move), key);
    }
  }

  /** The data file of the key is there before every move and after the last. */
  predicate Stays(r: Racing, moves: seq<Move>, key: Key)
    decreases |moves|
  {
    key in r.engine.disk.data && (moves == [] || Stays(Next(r, moves[0]), moves[1..], key))
  }

  lemma {:induction false} FileStays(origin: Key -> Bytes, r: Racing, moves: seq<Move>, key: Key)
    requires WellRun(origin, r) && LegalMoves(r, moves) && FaithfulMoves(origin, moves) && Stays(r, moves, key)
    ensures KeepsFile(origin(key), r.engine.disk, Exec(r, moves).engine.disk, key)
    decreases |moves|
  {
    hide Next, LegalMove, WellRun, FaithfulMove;
    if moves == [] {
      SameFileKept(origin(key), r.engine.disk, r.engine.disk, key);
    } else {
      assert forall i :: 0 <= i < |moves[1..]| ==> moves[1..][i] == moves[i + 1];
      var r1 := Next(r, moves[0]);
      assert key in r1.engine.disk.data;
      MoveKeepsFile(origin, r, moves[0], key);
      MoveRuns(origin, r, moves[0]);
      FileStays(origin, r1, moves[1..], key);
    }
  }

  /**
   Between a read's look at the metadata and its open anything may happen to the cache.
   As long as the data file is not unlinked in between, what is then read is the origin's.
   */
  lemma RacingReadIsOrigin(origin: Key -> Bytes, r: Racing, moves: seq<Move>, key: Key, start: u64, end: u64)
    requires AllSound(origin, r) && WellRun(origin, r) && LegalMoves(r, moves) && FaithfulMoves(origin, moves)
    requires Stays(r, moves, key) && start <= end != OPEN_ENDED && Covered(r.engine, key, start, end)
    ensures var file := Exec(r, moves).engine.disk.data;
      && key in file && ReadAcross(r.engine, Exec(r, moves).engine, key, start, end) == Ok((start, end))
      && end < |file[key]| && end < |origin(key)| && file[key][start..end + 1] == origin(key)[start..end + 1]
  {
    hide AllSound, WellRun, KeepsFile, Believable, Covered, ReadAcross;
    FileStays(origin, r, moves, key);
    SoundIsBelievable(origin, r, key);
    assert key in Exec(r, moves).engine.disk.data by { KeptIsThere(origin(key), r.engine.disk, Exec(r, moves).engine.disk, key); }
    ReadAcrossIsOrigin(origin, r.engine, Exec(r, moves).engine, key, start, end);
  }

  lemma KeptIsThere(content: Bytes, before: Disk, after: Disk, key: Key)
    requires KeepsFile(content, before, after, key)
    ensures key in after.data
  {
  }
}
