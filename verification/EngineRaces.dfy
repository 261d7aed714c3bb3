/**
 The disk engine at the granularity of its awaits. Operations of different tasks
 interleave between any two file-system calls and index accesses, as far as the locks
 allow: a write and a delete hold their key's write lock, an update and a delete its
 metadata lock. A query and the start-up scan hold none.
 */
module EngineRaces {
  import opened Base
  import opened IntervalTable
  import opened DiskEngine
  import opened WriteAccounting
  import opened DiskCoherence

  /** A query that missed the index and has read the sidecar; `checked` once it has been found valid. */
  datatype Hand = Hand(key: Key, m: RangeMetadata, checked: bool)

  /** update_metadata: the sidecar read and not yet checked, the edited metadata, the committed one not yet indexed. */
  datatype Update =
    | Reading(edit: Edit, raw: RangeMetadata)
    | Editing(edit: Edit, m: RangeMetadata)
    | Committed(edit: Edit, m: RangeMetadata)

  /** write: the file is open, or synced with the prefix still to be recorded. */
  datatype Writer = Streaming(op: Op) | Synced(lo: u64, hi: u64)

  /** delete: the index entry is gone and the data file is next, or the sidecar is. */
  datatype Deletion = AtData | AtSidecar

  /** What the scan has yet to unlink of a pair: the sidecar and the data file, or the data file, which it tries twice. */
  datatype Doom = Both | DataTwice | DataOnce

  datatype Racing = Racing(
    engine: Engine,
    queries: map<nat, Hand>,
    updates: map<Key, Update>,
    writers: map<Key, Writer>,
    deletions: map<Key, Deletion>,
    doomed: map<Key, Doom>)

  /** An engine that is at rest. */
  function Idle(e: Engine): Racing { Racing(e, map[], map[], map[], map[], map[]) }

  /** Where an update gets the metadata it edits: the index, the sidecar after a miss, or nowhere if that cannot be read. */
  datatype Lookup = Hit | Miss | Unreadable

  datatype Move =
    /** After a miss the sidecar is read; the entry may have come to the index since. */
    | BeginQuery(query: nat, key: Key)
    /** A stat that fails is taken for a missing file. */
    | StatQuery(query: nat, works: bool)
    | EndQuery(query: nat, victim: Key)
    | BeginUpdate(key: Key, total: Option<u64>, contentType: Option<string>, lookup: Lookup)
    | BeginRecord(key: Key, lookup: Lookup)
    | StatUpdate(key: Key, works: bool)
    | Commit(key: Key, works: bool)
    | Finish(key: Key, victim: Key)
    | OpenWrite(op: Op)
    /** Part of the stream reaches the file. */
    | Progress(key: Key, bytes: Bytes)
    /** The stream ends and the file is flushed and synced. */
    | Sync(key: Key)
    | BeginDelete(key: Key)
    | DeleteData(key: Key, works: bool)
    | DeleteSidecar(key: Key, works: bool)
    /** The scan reads a pair and finds it invalid, or cannot read it. */
    | ScanLook(key: Key, readable: bool)
    /** The scan's next unlink of a pair it found invalid; it ignores a failure. */
    | ScanUnlink(key: Key, works: bool)
    | Crash

  // ----- moves -----

  /** The end of an update, and with it of the write it records. */
  function EndUpdate(r: Racing, key: Key, edit: Edit): Racing
  {
    r.(updates := r.updates - {key}, writers := if edit.AddRange? then r.writers - {key} else r.writers)
  }

  function StartEdit(r: Racing, key: Key, edit: Edit, base: RangeMetadata): Racing
  {
    var edited := EditMetadata(base, edit);
    if edit.SetMeta? && edited == base then EndUpdate(r, key, edit)
    else r.(updates := r.updates[key := Editing(edit, Stamp(edited, key))])
  }

  function BeginEdit(r: Racing, key: Key, edit: Edit, lookup: Lookup): Racing
  {
    if lookup.Hit? && key in r.engine.index then StartEdit(r, key, edit, r.engine.index[key])
    else if !lookup.Unreadable? && key in r.engine.disk.sidecar then r.(updates := r.updates[key := Reading(edit, r.engine.disk.sidecar[key])])
    else StartEdit(r, key, edit, DEFAULT)
  }

  function StatOf(d: Disk, key: Key, works: bool): Option<nat> { if works then FileSize(d, key) else None }

  function DrainOf(op: Op): Drained
    requires op.Write?
  {
    match Limit(op.start, op.end)
    case Ok(limit) => Drain(op.stream, limit, op.io.failAt, 0, [])
    case Err(_) => Drained(0, [], Ended)
  }

  /** The write goes on to record its prefix after the sync. */
  predicate WillRecord(op: Op)
    requires op.Write?
  {
    var d := DrainOf(op);
    d.bytes != [] && Recordable(d.stop) && op.io.syncOk && op.start + |d.bytes| - 1 <= U64_MAX
  }

  predicate Opens(r: Racing, op: Op)
  {
    op.Write? && op.key !in r.writers && op.key !in r.deletions && Limit(op.start, op.end).Ok? && op.io.openOk
  }

  function SidecarGone(r: Racing, key: Key): Racing
  {
    r.(engine := r.engine.(disk := r.engine.disk.(sidecar := r.engine.disk.sidecar - {key})))
  }

  function DataGone(r: Racing, key: Key): Racing
  {
    r.(engine := r.engine.(disk := r.engine.disk.(data := r.engine.disk.data - {key})))
  }

  function Indexed(r: Racing, key: Key, m: RangeMetadata, victim: Key): Racing
  {
    r.(engine := r.engine.(index := IndexInsert(r.engine.index, key, m, victim)))
  }

  /** Streaming into a file that was unlinked since does not reach the path. */
  function Written(r: Racing, key: Key, bytes: Bytes): Racing
  {
    if key in r.engine.disk.data then r.(engine := WithData(r.engine, key, bytes)) else r
  }

  function QueryMove(r: Racing, move: Move): Racing
    requires move.BeginQuery? || move.StatQuery? || move.EndQuery?
  {
    var q, e := move.query, r.engine;
    match move
    case BeginQuery(_, key) =>
      if q in r.queries || key !in e.disk.sidecar then r
      else r.(queries := r.queries[q := Hand(key, e.disk.sidecar[key], false)])
    case StatQuery(_, works) =>
      if q !in r.queries || r.queries[q].checked then r
      else if MetadataIsValid(r.queries[q].m, r.queries[q].key, StatOf(e.disk, r.queries[q].key, works))
      then r.(queries := r.queries[q := r.queries[q].(checked := true)])
      else r.(queries := r.queries - {q})
    case EndQuery(_, victim) =>
      if q !in r.queries || !r.queries[q].checked then r
      else Indexed(r, r.queries[q].key, r.queries[q].m, victim).(queries := r.queries - {q})
  }

  function UpdateMove(r: Racing, move: Move): Racing
    requires move.BeginUpdate? || move.BeginRecord? || move.StatUpdate? || move.Commit? || move.Finish?
  {
    var key, e := move.key, r.engine;
    match move
    case BeginUpdate(_, total, contentType, lookup) =>
      if key in r.updates || key in r.deletions then r else BeginEdit(r, key, SetMeta(total, contentType), lookup)
    case BeginRecord(_, lookup) =>
      if key in r.updates || key !in r.writers || !r.writers[key].Synced? then r
      else BeginEdit(r, key, AddRange(r.writers[key].lo, r.writers[key].hi), lookup)
    case StatUpdate(_, works) =>
      if key !in r.updates || !r.updates[key].Reading? then r
      else
        var Reading(edit, raw) := r.updates[key];
        StartEdit(r, key, edit, if MetadataIsValid(raw, key, StatOf(e.disk, key, works)) then raw else DEFAULT)
    case Commit(_, works) =>
      if key !in r.updates || !r.updates[key].Editing? then r
      else
        var Editing(edit, m) := r.updates[key];
        if !works then EndUpdate(r, key, edit)
        else r.(engine := e.(disk := e.disk.(sidecar := e.disk.sidecar[key := m])), updates := r.updates[key := Committed(edit, m)])
    case Finish(_, victim) =>
      if key !in r.updates || !r.updates[key].Committed? then r
      else EndUpdate(Indexed(r, key, r.updates[key].m, victim), key, r.updates[key].edit)
  }

  function WriteMove(r: Racing, move: Move): Racing
    requires move.OpenWrite? || move.Progress? || move.Sync?
  {
    match move
    case OpenWrite(op) =>
      if !Opens(r, op) then r
      else
        var created := r.(engine := WithData(r.engine, op.key, Opened(r.engine, op.key)));
        if op.io.seekOk then created.(writers := r.writers[op.key := Streaming(op)]) else created
    case Progress(key, bytes) =>
      if key !in r.writers || !r.writers[key].Streaming? then r else Written(r, key, bytes)
    case Sync(key) =>
      if key !in r.writers || !r.writers[key].Streaming? || !r.writers[key].op.Write? then r
      else
        var op := r.writers[key].op;
        var d := DrainOf(op);
        Written(r, key, FileAfter(Opened(r.engine, key), op.start, op.stream, d, op.io)).(
          writers := if WillRecord(op) then r.writers[key := Synced(op.start, op.start + |d.bytes| - 1)] else r.writers - {key})
  }

  function DeleteMove(r: Racing, move: Move): Racing
    requires move.BeginDelete? || move.DeleteData? || move.DeleteSidecar?
  {
    var key, e := move.key, r.engine;
    match move
    case BeginDelete(_) =>
      if key in r.writers || key in r.updates || key in r.deletions then r
      else r.(engine := e.(index := e.index - {key}), deletions := r.deletions[key := AtData])
    case DeleteData(_, works) =>
      if key !in r.deletions || !r.deletions[key].AtData? then r
      else if works then DataGone(r, key).(deletions := r.deletions[key := AtSidecar])
      else r.(deletions := r.deletions - {key})
    case DeleteSidecar(_, works) =>
      if key !in r.deletions || !r.deletions[key].AtSidecar? then r
      else (if works then SidecarGone(r, key) else r).(deletions := r.deletions - {key})
  }

  /** The scan unlinks files only; it does not touch the index. */
  function ScanMove(r: Racing, move: Move): Racing
    requires move.ScanLook? || move.ScanUnlink?
  {
    var key, d := move.key, r.engine.disk;
    match move
    case ScanLook(_, readable) =>
      if key in d.sidecar && key !in r.doomed && !(readable && Keeps(d, key)) then r.(doomed := r.doomed[key := Both]) else r
    case ScanUnlink(_, works) =>
      if key !in r.doomed then r
      else match r.doomed[key]
        case Both => (if works then SidecarGone(r, key) else r).(doomed := r.doomed[key := DataTwice])
        case DataTwice => (if works then DataGone(r, key) else r).(doomed := r.doomed[key := DataOnce])
        case DataOnce => (if works then DataGone(r, key) else r).(doomed := r.doomed - {key})
  }

  /** Moves that are not enabled leave the state alone. */
  function Next(r: Racing, move: Move): Racing
  {
    if move.BeginQuery? || move.StatQuery? || move.EndQuery? then QueryMove(r, move)
    else if move.BeginUpdate? || move.BeginRecord? || move.StatUpdate? || move.Commit? || move.Finish? then UpdateMove(r, move)
    else if move.OpenWrite? || move.Progress? || move.Sync? then WriteMove(r, move)
    else if move.BeginDelete? || move.DeleteData? || move.DeleteSidecar? then DeleteMove(r, move)
    else if move.ScanLook? || move.ScanUnlink? then ScanMove(r, move)
    else Idle(r.engine.(index := map[]))
  }

  function Exec(r: Racing, moves: seq<Move>): Racing
    decreases |moves|
  {
    if moves == [] then r else Exec(Next(r, moves[0]), moves[1..])
  }

  /** What reaches the file is the open file's bytes, the written bytes, or holes. */
  predicate LegalMove(r: Racing, move: Move)
  {
    (move.Progress? || move.Sync?) && move.key in r.writers && r.writers[move.key].Streaming? && r.writers[move.key].op.Write? ==>
      var op := r.writers[move.key].op;
      TornBy(Opened(r.engine, move.key), if move.Progress? then move.bytes else op.io.torn, op.start, Attempted(op.stream, DrainOf(op)))
  }

  ghost predicate FaithfulMove(origin: Key -> Bytes, move: Move)
  {
    move.OpenWrite? ==> FaithfulOp(origin, move.op)
  }

  ghost predicate SameMetadata(r: Racing, r': Racing)
  {
    && r'.engine.disk.sidecar == r.engine.disk.sidecar && r'.engine.index == r.engine.index
    && r'.queries == r.queries && r'.updates == r.updates
  }

  /** A write touches metadata only when it records. */
  lemma WriteKeepsMetadata(r: Racing, move: Move)
    requires move.OpenWrite? || move.Progress? || move.Sync?
    ensures SameMetadata(r, WriteMove(r, move))
  {
    hide FileAfter, DrainOf, Opens, WillRecord, Opened;
  }

  // ----- coherence -----

  function TableOf(u: Update): Table { if u.Reading? then u.raw.completed else u.m.completed }

  /** Someone promises the offsets of `t`: a sidecar, the index, a query, an update or a write. */
  ghost predicate Holds(r: Racing, key: Key, t: Table)
  {
    || (key in r.engine.disk.sidecar && t == r.engine.disk.sidecar[key].completed)
    || (key in r.engine.index && t == r.engine.index[key].completed)
    || (exists q :: q in r.queries && r.queries[q].key == key && r.queries[q].m.completed == t)
    || (key in r.updates && t == TableOf(r.updates[key]))
    || (key in r.writers && r.writers[key].Synced? && t == [Interval(r.writers[key].lo, r.writers[key].hi)])
  }

  /** Every promise about a file that exists is true. Without its data file a promise is not believed. */
  ghost predicate AllSound(origin: Key -> Bytes, r: Racing)
  {
    forall key, t :: Holds(r, key, t) && key in r.engine.disk.data ==> Sound(origin(key), r.engine.disk, key, t)
  }

  /** The open writes are faithful, and an update that records a range does so for a synced write. */
  ghost predicate WellRun(origin: Key -> Bytes, r: Racing)
  {
    && (forall k :: k in r.writers && r.writers[k].Streaming? ==>
         var op := r.writers[k].op; op.Write? && op.key == k && Limit(op.start, op.end).Ok? && FaithfulOp(origin, op))
    && (forall k :: k in r.writers && r.writers[k].Synced? ==> r.writers[k].lo <= r.writers[k].hi)
    && (forall k :: k in r.updates && r.updates[k].edit.AddRange? ==>
         k in r.writers && r.writers[k] == Synced(r.updates[k].edit.lo, r.updates[k].edit.hi))
  }

  predicate Promising(r: Racing, key: Key)
  {
    || Promises(r.engine.disk, key)
    || (key in r.engine.index && r.engine.index[key].completed != [])
    || (exists q :: q in r.queries && r.queries[q].key == key && r.queries[q].m.completed != [])
    || (key in r.updates && TableOf(r.updates[key]) != [])
  }

  /** A write creates the data file anew while an old promise about it survives somewhere. */
  predicate Recreates(r: Racing, move: Move)
  {
    move.OpenWrite? && Opens(r, move.op) && move.op.key !in r.engine.disk.data && Promising(r, move.op.key)
  }

  // ----- what one change does to the promises -----

  /** Nothing new is promised, and the files that remain are the same. */
  ghost predicate Within(r: Racing, r': Racing)
  {
    var d, d' := r.engine.disk, r'.engine.disk;
    && (forall k :: k in d'.data ==> k in d.data && d'.data[k] == d.data[k])
    && (forall k :: k in d'.sidecar ==> k in d.sidecar && d'.sidecar[k] == d.sidecar[k])
    && (forall k :: k in r'.engine.index ==> k in r.engine.index && r'.engine.index[k] == r.engine.index[k])
    && (forall q :: q in r'.queries ==> q in r.queries && r'.queries[q].key == r.queries[q].key && r'.queries[q].m == r.queries[q].m)
    && (forall k :: k in r'.updates ==> k in r.updates && r'.updates[k] == r.updates[k])
    && (forall k :: k in r'.writers && r'.writers[k].Synced? ==> k in r.writers && r'.writers[k] == r.writers[k])
  }

  lemma WithinHolds(r: Racing, r': Racing, key: Key, t: Table)
    requires Within(r, r') && Holds(r', key, t)
    ensures Holds(r, key, t)
  {
    if q :| q in r'.queries && r'.queries[q].key == key && r'.queries[q].m.completed == t {
      assert q in r.queries && r.queries[q].key == key && r.queries[q].m.completed == t;
    }
  }

  lemma WithinKept(origin: Key -> Bytes, r: Racing, r': Racing)
    requires AllSound(origin, r) && Within(r, r')
    ensures AllSound(origin, r')
  {
    hide Holds, Sound;
    forall key, t | Holds(r', key, t) && key in r'.engine.disk.data ensures Sound(origin(key), r'.engine.disk, key, t) {
      WithinHolds(r, r', key, t);
      assert key in r.engine.disk.data && r'.engine.disk.data[key] == r.engine.disk.data[key];
      SoundStays(origin(key), r.engine.disk, r'.engine.disk, key, t);
    }
  }

  /** A table that may be promised about the key as things are. */
  ghost predicate May(origin: Key -> Bytes, r: Racing, key: Key, t: Table)
  {
    key in r.engine.disk.data ==> Sound(origin(key), r.engine.disk, key, t)
  }

  /** One more promise, and the same files. */
  lemma OneMoreKept(origin: Key -> Bytes, r: Racing, r': Racing, key: Key, t: Table)
    requires AllSound(origin, r) && May(origin, r, key, t) && r'.engine.disk.data == r.engine.disk.data
    requires forall k, u :: Holds(r', k, u) ==> Holds(r, k, u) || (k == key && u == t)
    ensures AllSound(origin, r')
  {
    hide Holds, Sound;
    forall k, u | Holds(r', k, u) && k in r'.engine.disk.data ensures Sound(origin(k), r'.engine.disk, k, u) {
      SoundStays(origin(k), r.engine.disk, r'.engine.disk, k, u);
    }
  }

  lemma IndexedKept(origin: Key -> Bytes, r: Racing, key: Key, m: RangeMetadata, victim: Key)
    requires AllSound(origin, r) && May(origin, r, key, m.completed)
    ensures AllSound(origin, Indexed(r, key, m, victim))
  {
    hide AllSound, May;
    var r' := Indexed(r, key, m, victim);
    assert forall k :: k in r'.engine.index && k != key ==> k in r.engine.index && r'.engine.index[k] == r.engine.index[k];
    assert key in r'.engine.index && r'.engine.index[key] == m;
    hide IndexInsert;
    forall k, u | Holds(r', k, u) ensures Holds(r, k, u) || (k == key && u == m.completed) { }
    OneMoreKept(origin, r, r', key, m.completed);
  }

  lemma UpdatedKept(origin: Key -> Bytes, r: Racing, key: Key, u: Update)
    requires AllSound(origin, r) && May(origin, r, key, TableOf(u))
    ensures AllSound(origin, r.(updates := r.updates[key := u]))
  {
    hide AllSound, May;
    OneMoreKept(origin, r, r.(updates := r.updates[key := u]), key, TableOf(u));
  }

  lemma CommittedKept(origin: Key -> Bytes, r: Racing, key: Key, m: RangeMetadata)
    requires AllSound(origin, r) && May(origin, r, key, m.completed)
    ensures var e := r.engine; AllSound(origin, r.(engine := e.(disk := e.disk.(sidecar := e.disk.sidecar[key := m]))))
  {
    hide AllSound, May;
    var e := r.engine;
    OneMoreKept(origin, r, r.(engine := e.(disk := e.disk.(sidecar := e.disk.sidecar[key := m]))), key, m.completed);
  }

  lemma HeldMay(origin: Key -> Bytes, r: Racing, key: Key, t: Table)
    requires AllSound(origin, r) && (Holds(r, key, t) || t == [])
    ensures May(origin, r, key, t)
  {
    hide Holds;
  }

  // ----- one move -----

  lemma QueryKeeps(origin: Key -> Bytes, r: Racing, move: Move)
    requires AllSound(origin, r) && (move.BeginQuery? || move.StatQuery? || move.EndQuery?)
    ensures AllSound(origin, QueryMove(r, move))
  {
    hide AllSound, MetadataIsValid, Within, Indexed;
    var q := move.query;
    match move
    case BeginQuery(_, key) =>
      if key in r.engine.disk.sidecar { AskKept(origin, r, q, key); }
    case StatQuery(_, works) =>
      if q in r.queries {
        FewerQueries(r, q);
        WithinKept(origin, r, r.(queries := r.queries[q := r.queries[q].(checked := true)]));
        WithinKept(origin, r, r.(queries := r.queries - {q}));
      }
    case EndQuery(_, victim) => if q in r.queries { AnswerKept(origin, r, q, victim); }
  }

  lemma FewerQueries(r: Racing, q: nat)
    ensures Within(r, r.(queries := r.queries - {q}))
    ensures q in r.queries ==> Within(r, r.(queries := r.queries[q := r.queries[q].(checked := true)]))
  {
  }

  lemma AnswerKept(origin: Key -> Bytes, r: Racing, q: nat, victim: Key)
    requires AllSound(origin, r) && q in r.queries
    ensures AllSound(origin, Indexed(r, r.queries[q].key, r.queries[q].m, victim).(queries := r.queries - {q}))
  {
    var Hand(key, m, _) := r.queries[q];
    assert Holds(r, key, m.completed);
    hide AllSound, Within, May, IndexInsert, Holds;
    HeldMay(origin, r, key, m.completed);
    IndexedKept(origin, r, key, m, victim);
    FewerQueries(Indexed(r, key, m, victim), q);
    WithinKept(origin, Indexed(r, key, m, victim), Indexed(r, key, m, victim).(queries := r.queries - {q}));
  }

  lemma AskKept(origin: Key -> Bytes, r: Racing, q: nat, key: Key)
    requires AllSound(origin, r) && key in r.engine.disk.sidecar
    ensures AllSound(origin, r.(queries := r.queries[q := Hand(key, r.engine.disk.sidecar[key], false)]))
  {
    hide AllSound, May;
    var m := r.engine.disk.sidecar[key];
    var r' := r.(queries := r.queries[q := Hand(key, m, false)]);
    HeldMay(origin, r, key, m.completed);
    forall k, u | Holds(r', k, u) ensures Holds(r, k, u) || (k == key && u == m.completed) {
      if p :| p in r'.queries && r'.queries[p].key == k && r'.queries[p].m.completed == u {
        if p != q { assert p in r.queries && r.queries[p].key == k && r.queries[p].m.completed == u; }
      }
    }
    OneMoreKept(origin, r, r', key, m.completed);
  }

  lemma FlagsAreWithin(r: Racing, r': Racing, deletions: map<Key, Deletion>, doomed: map<Key, Doom>)
    requires Within(r, r')
    ensures Within(r, r'.(deletions := deletions, doomed := doomed))
  {
  }

  lemma GoneIsWithin(r: Racing, key: Key)
    ensures Within(r, r)
    ensures Within(r, SidecarGone(r, key))
    ensures Within(r, DataGone(r, key))
  {
  }

  lemma UnindexedIsWithin(r: Racing, key: Key)
    ensures Within(r, r.(engine := r.engine.(index := r.engine.index - {key})))
  {
  }

  lemma LessIsWithin(r: Racing, key: Key, deletions: map<Key, Deletion>, doomed: map<Key, Doom>)
    ensures Within(r, r.(deletions := deletions, doomed := doomed))
    ensures Within(r, SidecarGone(r, key).(deletions := deletions, doomed := doomed))
    ensures Within(r, DataGone(r, key).(deletions := deletions, doomed := doomed))
    ensures Within(r, r.(engine := r.engine.(index := r.engine.index - {key}), deletions := deletions, doomed := doomed))
  {
    hide Within, SidecarGone, DataGone;
    GoneIsWithin(r, key);
    UnindexedIsWithin(r, key);
    FlagsAreWithin(r, r, deletions, doomed);
    FlagsAreWithin(r, SidecarGone(r, key), deletions, doomed);
    FlagsAreWithin(r, DataGone(r, key), deletions, doomed);
    FlagsAreWithin(r, r.(engine := r.engine.(index := r.engine.index - {key})), deletions, doomed);
  }

  /** Unlinking a file is never what makes a promise false. */
  lemma DeleteKeeps(origin: Key -> Bytes, r: Racing, move: Move)
    requires AllSound(origin, r) && (move.BeginDelete? || move.DeleteData? || move.DeleteSidecar?)
    ensures AllSound(origin, DeleteMove(r, move))
  {
    hide AllSound, Within, SidecarGone, DataGone;
    LessIsWithin(r, move.key, DeleteMove(r, move).deletions, r.doomed);
    WithinKept(origin, r, DeleteMove(r, move)) by { GoneFields(r, move.key); }
  }

  lemma GoneFields(r: Racing, key: Key)
    ensures SidecarGone(r, key).doomed == r.doomed && DataGone(r, key).doomed == r.doomed
    ensures SidecarGone(r, key).deletions == r.deletions && DataGone(r, key).deletions == r.deletions
  {
  }

  lemma ScanKeeps(origin: Key -> Bytes, r: Racing, move: Move)
    requires AllSound(origin, r) && (move.ScanLook? || move.ScanUnlink?)
    ensures AllSound(origin, ScanMove(r, move))
  {
    hide AllSound, Within, SidecarGone, DataGone, Keeps;
    LessIsWithin(r, move.key, r.deletions, ScanMove(r, move).doomed);
    WithinKept(origin, r, ScanMove(r, move)) by { GoneFields(r, move.key); }
  }

  lemma CrashKeeps(origin: Key -> Bytes, r: Racing)
    requires AllSound(origin, r)
    ensures AllSound(origin, Idle(r.engine.(index := map[])))
  {
    hide AllSound;
    WithinKept(origin, r, Idle(r.engine.(index := map[])));
  }

  /** The edited table is sound when its base and the recorded interval are. */
  lemma EditKept(origin: Key -> Bytes, r: Racing, key: Key, edit: Edit, base: RangeMetadata)
    requires AllSound(origin, r) && May(origin, r, key, base.completed)
    requires edit.AddRange? ==> edit.lo <= edit.hi && May(origin, r, key, [Interval(edit.lo, edit.hi)])
    ensures AllSound(origin, StartEdit(r, key, edit, base))
  {
    hide AllSound, Merge;
    if edit.AddRange? {
      assert May(origin, r, key, Merge(base.completed, edit.lo, edit.hi)) by {
        if key in r.engine.disk.data { IntervalMerges(origin(key), r.engine.disk, key, base.completed, edit.lo, edit.hi); }
      }
    }
    hide May;
    var edited := EditMetadata(base, edit);
    if edit.SetMeta? && edited == base { WithinKept(origin, r, StartEdit(r, key, edit, base)); }
    else { UpdatedKept(origin, r, key, Editing(edit, Stamp(edited, key))); }
  }

  lemma IntervalMerges(content: Bytes, d: Disk, key: Key, t: Table, lo: u64, hi: u64)
    requires Sound(content, d, key, t) && Sound(content, d, key, [Interval(lo, hi)]) && lo <= hi
    ensures Sound(content, d, key, Merge(t, lo, hi))
  {
    hide Merge;
    var one := [Interval(lo, hi)];
    assert one[0] == Interval(lo, hi);
    assert forall x :: lo <= x <= hi ==> Covers(one, x);
    assert Covers(one, hi);
    MergeSound(content, d, key, t, lo, hi);
  }

  lemma BeginKept(origin: Key -> Bytes, r: Racing, key: Key, edit: Edit, lookup: Lookup)
    requires AllSound(origin, r)
    requires edit.AddRange? ==> key in r.writers && r.writers[key] == Synced(edit.lo, edit.hi) && edit.lo <= edit.hi
    ensures AllSound(origin, BeginEdit(r, key, edit, lookup))
  {
    hide AllSound, StartEdit;
    var e := r.engine;
    if edit.AddRange? { HeldMay(origin, r, key, [Interval(edit.lo, edit.hi)]); }
    if lookup.Hit? && key in e.index {
      HeldMay(origin, r, key, e.index[key].completed);
      EditKept(origin, r, key, edit, e.index[key]);
    } else if !lookup.Unreadable? && key in e.disk.sidecar {
      HeldMay(origin, r, key, e.disk.sidecar[key].completed);
      UpdatedKept(origin, r, key, Reading(edit, e.disk.sidecar[key]));
    } else {
      HeldMay(origin, r, key, DEFAULT.completed);
      EditKept(origin, r, key, edit, DEFAULT);
    }
  }

  lemma EndIsWithin(r: Racing, key: Key, edit: Edit)
    ensures Within(r, EndUpdate(r, key, edit))
  {
  }

  lemma StatKept(origin: Key -> Bytes, r: Racing, key: Key, base: RangeMetadata)
    requires AllSound(origin, r) && WellRun(origin, r) && key in r.updates && r.updates[key].Reading?
    requires base == r.updates[key].raw || base == DEFAULT
    ensures AllSound(origin, StartEdit(r, key, r.updates[key].edit, base))
  {
    var Reading(edit, raw) := r.updates[key];
    hide AllSound, StartEdit, FaithfulOp;
    if edit.AddRange? { HeldMay(origin, r, key, [Interval(edit.lo, edit.hi)]); }
    HeldMay(origin, r, key, base.completed);
    EditKept(origin, r, key, edit, base);
  }

  lemma CommitKept(origin: Key -> Bytes, r: Racing, key: Key)
    requires AllSound(origin, r) && key in r.updates && r.updates[key].Editing?
    ensures AllSound(origin, UpdateMove(r, Commit(key, true)))
  {
    var e, u := r.engine, r.updates[key];
    assert Holds(r, key, u.m.completed);
    var r1 := r.(engine := e.(disk := e.disk.(sidecar := e.disk.sidecar[key := u.m])));
    assert Holds(r1, key, u.m.completed);
    hide AllSound, Holds, May;
    HeldMay(origin, r, key, u.m.completed);
    CommittedKept(origin, r, key, u.m);
    HeldMay(origin, r1, key, u.m.completed);
    UpdatedKept(origin, r1, key, Committed(u.edit, u.m));
  }

  lemma FinishKept(origin: Key -> Bytes, r: Racing, key: Key, victim: Key)
    requires AllSound(origin, r) && key in r.updates && r.updates[key].Committed?
    ensures AllSound(origin, EndUpdate(Indexed(r, key, r.updates[key].m, victim), key, r.updates[key].edit))
  {
    var u := r.updates[key];
    assert Holds(r, key, u.m.completed);
    hide AllSound, Holds, May, Indexed, Within, EndUpdate;
    HeldMay(origin, r, key, u.m.completed);
    IndexedKept(origin, r, key, u.m, victim);
    EndIsWithin(Indexed(r, key, u.m, victim), key, u.edit);
    WithinKept(origin, Indexed(r, key, u.m, victim), EndUpdate(Indexed(r, key, u.m, victim), key, u.edit));
  }

  lemma MetadataKeeps(origin: Key -> Bytes, r: Racing, move: Move)
    requires AllSound(origin, r) && WellRun(origin, r)
    requires move.BeginUpdate? || move.BeginRecord? || move.StatUpdate? || move.Commit? || move.Finish?
    ensures AllSound(origin, UpdateMove(r, move))
  {
    hide AllSound, BeginEdit, StartEdit, MetadataIsValid, Indexed, EndUpdate, FaithfulOp, Within;
    var key := move.key;
    match move
    case BeginUpdate(_, total, contentType, lookup) => BeginKept(origin, r, key, SetMeta(total, contentType), lookup);
    case BeginRecord(_, lookup) =>
      if key in r.writers && r.writers[key].Synced? { BeginKept(origin, r, key, AddRange(r.writers[key].lo, r.writers[key].hi), lookup); }
    case StatUpdate(_, works) =>
      if key in r.updates && r.updates[key].Reading? {
        StatKept(origin, r, key, r.updates[key].raw);
        StatKept(origin, r, key, DEFAULT);
      }
    case Commit(_, works) =>
      if key in r.updates && r.updates[key].Editing? {
        EndIsWithin(r, key, r.updates[key].edit);
        WithinKept(origin, r, EndUpdate(r, key, r.updates[key].edit));
        CommitKept(origin, r, key);
      }
    case Finish(_, victim) =>
      if key in r.updates && r.updates[key].Committed? { FinishKept(origin, r, key, victim); }
  }

  // ----- writing -----

  /** A file that a faithful write tears or completes keeps every true promise about it. */
  lemma WrittenKept(origin: Key -> Bytes, r: Racing, key: Key, bytes: Bytes, start: nat, attempted: Bytes)
    requires AllSound(origin, r) && (attempted == [] || At(origin(key), start, attempted))
    requires TornBy(Opened(r.engine, key), bytes, start, attempted)
    ensures AllSound(origin, Written(r, key, bytes))
  {
    if key in r.engine.disk.data {
      var r' := Written(r, key, bytes);
      assert forall k, t :: Holds(r', k, t) ==> Holds(r, k, t);
      hide Holds, Sound, TornBy, At;
      forall k, t | Holds(r', k, t) && k in r'.engine.disk.data ensures Sound(origin(k), r'.engine.disk, k, t) {
        assert Sound(origin(k), r.engine.disk, k, t);
        GrownKeepsTable(origin, r.engine, key, bytes, start, attempted, k, t);
      }
    }
  }

  lemma GrownKeepsTable(origin: Key -> Bytes, e: Engine, written: Key, after: Bytes, start: nat, bytes: Bytes, key: Key, t: Table)
    requires Sound(origin(key), e.disk, key, t)
    requires TornBy(Opened(e, written), after, start, bytes) && (bytes == [] || At(origin(written), start, bytes))
    ensures Sound(origin(key), WithData(e, written, after).disk, key, t)
  {
  }

  lemma CreatedKept(origin: Key -> Bytes, r: Racing, key: Key)
    requires AllSound(origin, r) && key !in r.engine.disk.data && key !in r.writers
    ensures AllSound(origin, r.(engine := WithData(r.engine, key, []))) <==> !Promising(r, key)
  {
    var r' := r.(engine := WithData(r.engine, key, []));
    assert forall k, t :: Holds(r', k, t) <==> Holds(r, k, t);
    assert Promising(r, key) <==> exists t :: Holds(r, key, t) && t != [] by { PromisingHolds(r, key); }
    hide Holds, Sound, Promising;
    if t :| Holds(r, key, t) && t != [] {
      EmptyFileIsUnsound(origin(key), r'.engine.disk, key, t);
    } else {
      forall k, t | Holds(r', k, t) && k in r'.engine.disk.data ensures Sound(origin(k), r'.engine.disk, k, t) {
        if k == key { NothingIsSound(origin(k), r'.engine.disk, k); }
        else { SoundStays(origin(k), r.engine.disk, r'.engine.disk, k, t); }
      }
    }
  }

  lemma PromisingHolds(r: Racing, key: Key)
    requires key !in r.writers
    ensures Promising(r, key) <==> exists t :: Holds(r, key, t) && t != []
  {
    if Promises(r.engine.disk, key) { assert Holds(r, key, r.engine.disk.sidecar[key].completed); }
    if key in r.engine.index { assert Holds(r, key, r.engine.index[key].completed); }
    if q :| q in r.queries && r.queries[q].key == key && r.queries[q].m.completed != [] { assert Holds(r, key, r.queries[q].m.completed); }
    if key in r.updates { assert Holds(r, key, TableOf(r.updates[key])); }
    if t :| Holds(r, key, t) && t != [] {
      if q :| q in r.queries && r.queries[q].key == key && r.queries[q].m.completed == t { }
    }
  }

  lemma NothingIsSound(content: Bytes, d: Disk, key: Key)
    ensures Sound(content, d, key, [])
  {
  }

  lemma EmptyFileIsUnsound(content: Bytes, d: Disk, key: Key, t: Table)
    requires t != [] && key in d.data && d.data[key] == []
    ensures !Sound(content, d, key, t)
  {
    if Canonical(t) { assert Covers(t, t[0].lo); }
  }

  lemma OpenKeeps(origin: Key -> Bytes, r: Racing, op: Op)
    requires AllSound(origin, r)
    ensures AllSound(origin, WriteMove(r, OpenWrite(op))) <==> !Recreates(r, OpenWrite(op))
  {
    hide AllSound, Promising;
    if Opens(r, op) {
      var created := r.(engine := WithData(r.engine, op.key, Opened(r.engine, op.key)));
      StreamingIsSilent(origin, created, op.key, op);
      if op.key in r.engine.disk.data {
        assert created.engine.disk.data == r.engine.disk.data;
        SameDisk(origin, r, created);
      } else {
        CreatedKept(origin, r, op.key);
      }
    }
  }

  lemma SameDisk(origin: Key -> Bytes, r: Racing, r': Racing)
    requires r' == r.(engine := r'.engine) && r'.engine == r.engine.(disk := r'.engine.disk)
    requires r'.engine.disk.sidecar == r.engine.disk.sidecar && r'.engine.disk.data == r.engine.disk.data
    ensures AllSound(origin, r) <==> AllSound(origin, r')
  {
    assert r'.engine.disk == r.engine.disk;
  }

  /** An open write promises nothing yet. */
  lemma StreamingIsSilent(origin: Key -> Bytes, r: Racing, key: Key, op: Op)
    requires key !in r.writers
    ensures AllSound(origin, r.(writers := r.writers[key := Streaming(op)])) <==> AllSound(origin, r)
  {
    var r' := r.(writers := r.writers[key := Streaming(op)]);
    assert forall k, t :: Holds(r', k, t) <==> Holds(r, k, t);
  }

  /** What is known of an open write: its bytes are the origin's, and it tears the file at most. */
  lemma StreamingFacts(origin: Key -> Bytes, r: Racing, move: Move)
    requires WellRun(origin, r) && LegalMove(r, move) && (move.Progress? || move.Sync?)
    requires move.key in r.writers && r.writers[move.key].Streaming?
    ensures var op := r.writers[move.key].op;
      && op.Write? && Limit(op.start, op.end).Ok?
      && (Attempted(op.stream, DrainOf(op)) == [] || At(origin(move.key), op.start, Attempted(op.stream, DrainOf(op))))
      && (DrainOf(op).bytes == [] || At(origin(move.key), op.start, DrainOf(op).bytes))
      && TornBy(Opened(r.engine, move.key), if move.Progress? then move.bytes else op.io.torn, op.start, Attempted(op.stream, DrainOf(op)))
  {
    hide Drain, At, TornBy;
    var op := r.writers[move.key].op;
    AttemptedFaithful(op.stream, Limit(op.start, op.end).value, op.io.failAt, origin(move.key), op.start);
  }

  lemma SyncKeeps(origin: Key -> Bytes, r: Racing, key: Key)
    requires AllSound(origin, r) && WellRun(origin, r) && LegalMove(r, Sync(key))
    requires key in r.writers && r.writers[key].Streaming?
    ensures AllSound(origin, WriteMove(r, Sync(key)))
  {
    hide AllSound, WellRun, LegalMove, DrainOf, Written, At, TornBy, FileAfter, Limit;
    StreamingFacts(origin, r, Sync(key));
    var op := r.writers[key].op;
    var d := DrainOf(op);
    var file := FileAfter(Opened(r.engine, key), op.start, op.stream, d, op.io);
    FileIsTorn(Opened(r.engine, key), op.start, op.stream, d, op.io);
    WrittenKept(origin, r, key, file, op.start, Attempted(op.stream, d));
    if WillRecord(op) { SyncedKept(origin, r, key, op, file); }
    else { StreamingGone(origin, Written(r, key, file), key); SameWriters(r, key, file); }
  }

  lemma SameWriters(r: Racing, key: Key, bytes: Bytes)
    ensures Written(r, key, bytes).writers == r.writers
  {
  }

  lemma FileIsTorn(before: Bytes, start: u64, stream: Stream, d: Drained, io: WriteIo)
    requires TornBy(before, io.torn, start, Attempted(stream, d))
    ensures TornBy(before, FileAfter(before, start, stream, d, io), start, Attempted(stream, d))
  {
    hide TornBy, Patch;
    TornSame(before, start, Attempted(stream, d));
    PatchIsTorn(before, start, d.bytes);
  }

  lemma StreamingGone(origin: Key -> Bytes, r: Racing, key: Key)
    requires AllSound(origin, r)
    ensures AllSound(origin, r.(writers := r.writers - {key}))
  {
    hide AllSound;
    WithinKept(origin, r, r.(writers := r.writers - {key}));
  }

  /** The synced prefix is in the file, if the file still has its name. */
  lemma SyncedKept(origin: Key -> Bytes, r: Racing, key: Key, op: Op, file: Bytes)
    requires op.Write? && WillRecord(op) && At(origin(key), op.start, DrainOf(op).bytes)
    requires file == FileAfter(Opened(r.engine, key), op.start, op.stream, DrainOf(op), op.io)
    requires AllSound(origin, Written(r, key, file))
    ensures var hi := op.start + |DrainOf(op).bytes| - 1;
      AllSound(origin, Written(r, key, file).(writers := r.writers[key := Synced(op.start, hi)]))
  {
    var d := DrainOf(op);
    var r1, t := Written(r, key, file), [Interval(op.start, op.start + |d.bytes| - 1)];
    var r' := r1.(writers := r.writers[key := Synced(op.start, op.start + |d.bytes| - 1)]);
    assert file == Patch(Opened(r.engine, key), op.start, d.bytes);
    assert May(origin, r1, key, t) by {
      if key in r1.engine.disk.data { PatchHolds(origin(key), r1.engine.disk, key, Opened(r.engine, key), op.start, d.bytes); }
    }
    hide AllSound, May;
    OneMoreKept(origin, r1, r', key, t);
  }

  lemma PatchHolds(content: Bytes, d: Disk, key: Key, before: Bytes, start: u64, bytes: Bytes)
    requires key in d.data && d.data[key] == Patch(before, start, bytes) && bytes != [] && At(content, start, bytes) && start + |bytes| - 1 <= U64_MAX
    ensures Sound(content, d, key, [Interval(start, start + |bytes| - 1)])
  {
    var t := [Interval(start, start + |bytes| - 1)];
    forall x | Covers(t, x) ensures 0 <= x < |d.data[key]| && x < |content| && d.data[key][x] == content[x] {
      assert content[start..start + |bytes|][x - start] == content[x];
    }
  }

  lemma StreamKeeps(origin: Key -> Bytes, r: Racing, move: Move)
    requires AllSound(origin, r) && WellRun(origin, r) && LegalMove(r, move)
    requires move.OpenWrite? || move.Progress? || move.Sync?
    ensures AllSound(origin, WriteMove(r, move)) <==> !Recreates(r, move)
  {
    match move
    case OpenWrite(op) => OpenKeeps(origin, r, op);
    case Progress(key, bytes) => if key in r.writers && r.writers[key].Streaming? { ProgressKeeps(origin, r, key, bytes); }
    case Sync(key) => if key in r.writers && r.writers[key].Streaming? { SyncKeeps(origin, r, key); }
  }

  lemma ProgressKeeps(origin: Key -> Bytes, r: Racing, key: Key, bytes: Bytes)
    requires AllSound(origin, r) && WellRun(origin, r) && LegalMove(r, Progress(key, bytes))
    requires key in r.writers && r.writers[key].Streaming?
    ensures AllSound(origin, Written(r, key, bytes))
  {
    hide AllSound, WellRun, LegalMove, DrainOf, Written, At, TornBy;
    StreamingFacts(origin, r, Progress(key, bytes));
    var op := r.writers[key].op;
    WrittenKept(origin, r, key, bytes, op.start, Attempted(op.stream, DrainOf(op)));
  }

  /** Every move keeps all promises true, except a write that creates a data file anew while an old promise about it survives. */
  lemma MoveKeeps(origin: Key -> Bytes, r: Racing, move: Move)
    requires AllSound(origin, r) && WellRun(origin, r) && LegalMove(r, move)
    ensures AllSound(origin, Next(r, move)) <==> !Recreates(r, move)
  {
    hide AllSound, WellRun, LegalMove, QueryMove, UpdateMove, WriteMove, DeleteMove, ScanMove, Opens, Promising;
    if move.BeginQuery? || move.StatQuery? || move.EndQuery? { QueryKeeps(origin, r, move); }
    else if move.BeginUpdate? || move.BeginRecord? || move.StatUpdate? || move.Commit? || move.Finish? { MetadataKeeps(origin, r, move); }
    else if move.OpenWrite? || move.Progress? || move.Sync? { StreamKeeps(origin, r, move); }
    else if move.BeginDelete? || move.DeleteData? || move.DeleteSidecar? { DeleteKeeps(origin, r, move); }
    else if move.ScanLook? || move.ScanUnlink? { ScanKeeps(origin, r, move); }
    else { CrashKeeps(origin, r); }
  }

  // ----- whole runs -----

  lemma EditRuns(origin: Key -> Bytes, r: Racing, key: Key, edit: Edit, base: RangeMetadata)
    requires WellRun(origin, r) && (key in r.updates ==> r.updates[key].edit == edit)
    requires edit.AddRange? ==> key in r.writers && r.writers[key] == Synced(edit.lo, edit.hi)
    ensures WellRun(origin, StartEdit(r, key, edit, base))
  {
    hide FaithfulOp, Limit, Merge;
  }

  lemma EndRuns(origin: Key -> Bytes, r: Racing, key: Key, edit: Edit)
    requires WellRun(origin, r) && key in r.updates && r.updates[key].edit == edit
    ensures WellRun(origin, EndUpdate(r, key, edit))
  {
    hide FaithfulOp, Limit;
  }

  lemma BeginRuns(origin: Key -> Bytes, r: Racing, key: Key, edit: Edit, lookup: Lookup)
    requires WellRun(origin, r) && key !in r.updates
    requires edit.AddRange? ==> key in r.writers && r.writers[key] == Synced(edit.lo, edit.hi)
    ensures WellRun(origin, BeginEdit(r, key, edit, lookup))
  {
    hide FaithfulOp, Limit, StartEdit;
    if key in r.engine.index { EditRuns(origin, r, key, edit, r.engine.index[key]); }
    EditRuns(origin, r, key, edit, DEFAULT);
  }

  lemma CommitRuns(origin: Key -> Bytes, r: Racing, key: Key, works: bool)
    requires WellRun(origin, r)
    ensures WellRun(origin, UpdateMove(r, Commit(key, works)))
  {
    hide FaithfulOp, Limit, EndUpdate;
    if key in r.updates { EndRuns(origin, r, key, r.updates[key].edit); }
  }

  lemma FinishRuns(origin: Key -> Bytes, r: Racing, key: Key, victim: Key)
    requires WellRun(origin, r) && key in r.updates && r.updates[key].Committed?
    ensures WellRun(origin, EndUpdate(Indexed(r, key, r.updates[key].m, victim), key, r.updates[key].edit))
  {
    hide WellRun, EndUpdate, IndexInsert;
    SameTasksRun(origin, r, Indexed(r, key, r.updates[key].m, victim));
    EndRuns(origin, Indexed(r, key, r.updates[key].m, victim), key, r.updates[key].edit);
  }

  lemma MetadataRuns(origin: Key -> Bytes, r: Racing, move: Move)
    requires WellRun(origin, r)
    requires move.BeginUpdate? || move.BeginRecord? || move.StatUpdate? || move.Commit? || move.Finish?
    ensures WellRun(origin, UpdateMove(r, move))
  {
    hide FaithfulOp, Limit, StartEdit, EndUpdate, MetadataIsValid, Indexed, BeginEdit;
    var key := move.key;
    match move
    case BeginUpdate(_, total, contentType, lookup) => if key !in r.updates { BeginRuns(origin, r, key, SetMeta(total, contentType), lookup); }
    case BeginRecord(_, lookup) =>
      if key !in r.updates && key in r.writers && r.writers[key].Synced? { BeginRuns(origin, r, key, AddRange(r.writers[key].lo, r.writers[key].hi), lookup); }
    case StatUpdate(_, works) =>
      if key in r.updates && r.updates[key].Reading? {
        EditRuns(origin, r, key, r.updates[key].edit, r.updates[key].raw);
        EditRuns(origin, r, key, r.updates[key].edit, DEFAULT);
      }
    case Commit(_, works) => CommitRuns(origin, r, key, works);
    case Finish(_, victim) => if key in r.updates && r.updates[key].Committed? { FinishRuns(origin, r, key, victim); }
  }

  lemma StreamRuns(origin: Key -> Bytes, r: Racing, move: Move)
    requires WellRun(origin, r) && FaithfulMove(origin, move) && (move.OpenWrite? || move.Progress? || move.Sync?)
    ensures WellRun(origin, WriteMove(r, move))
  {
    hide FaithfulOp, Limit, Drain, FileAfter;
  }

  lemma QueryKeepsTasks(r: Racing, move: Move)
    requires move.BeginQuery? || move.StatQuery? || move.EndQuery?
    ensures QueryMove(r, move).writers == r.writers && QueryMove(r, move).updates == r.updates
  {
    hide MetadataIsValid, IndexInsert;
  }

  lemma DeleteKeepsTasks(r: Racing, move: Move)
    requires move.BeginDelete? || move.DeleteData? || move.DeleteSidecar?
    ensures DeleteMove(r, move).writers == r.writers && DeleteMove(r, move).updates == r.updates
  {
  }

  lemma ScanKeepsTasks(r: Racing, move: Move)
    requires move.ScanLook? || move.ScanUnlink?
    ensures ScanMove(r, move).writers == r.writers && ScanMove(r, move).updates == r.updates
  {
    hide Keeps;
  }

  lemma SameTasksRun(origin: Key -> Bytes, r: Racing, r': Racing)
    requires WellRun(origin, r) && r'.writers == r.writers && r'.updates == r.updates
    ensures WellRun(origin, r')
  {
  }

  lemma OtherRuns(origin: Key -> Bytes, r: Racing, move: Move)
    requires WellRun(origin, r)
    ensures move.BeginQuery? || move.StatQuery? || move.EndQuery? ==> WellRun(origin, QueryMove(r, move))
    ensures move.BeginDelete? || move.DeleteData? || move.DeleteSidecar? ==> WellRun(origin, DeleteMove(r, move))
    ensures move.ScanLook? || move.ScanUnlink? ==> WellRun(origin, ScanMove(r, move))
    ensures WellRun(origin, Idle(r.engine.(index := map[])))
  {
    assert WellRun(origin, Idle(r.engine.(index := map[])));
    hide WellRun, QueryMove, DeleteMove, ScanMove;
    if move.BeginQuery? || move.StatQuery? || move.EndQuery? { QueryKeepsTasks(r, move); SameTasksRun(origin, r, QueryMove(r, move)); }
    if move.BeginDelete? || move.DeleteData? || move.DeleteSidecar? { DeleteKeepsTasks(r, move); SameTasksRun(origin, r, DeleteMove(r, move)); }
    if move.ScanLook? || move.ScanUnlink? { ScanKeepsTasks(r, move); SameTasksRun(origin, r, ScanMove(r, move)); }
  }

  lemma MoveRuns(origin: Key -> Bytes, r: Racing, move: Move)
    requires WellRun(origin, r) && FaithfulMove(origin, move)
    ensures WellRun(origin, Next(r, move))
  {
    hide WellRun, FaithfulMove, QueryMove, UpdateMove, WriteMove, DeleteMove, ScanMove;
    OtherRuns(origin, r, move);
    if move.BeginUpdate? || move.BeginRecord? || move.StatUpdate? || move.Commit? || move.Finish? { MetadataRuns(origin, r, move); }
    if move.OpenWrite? || move.Progress? || move.Sync? { StreamRuns(origin, r, move); }
  }

  ghost predicate LegalMoves(r: Racing, moves: seq<Move>)
    decreases |moves|
  {
    moves == [] || (LegalMove(r, moves[0]) && LegalMoves(Next(r, moves[0]), moves[1..]))
  }

  ghost predicate FaithfulMoves(origin: Key -> Bytes, moves: seq<Move>)
  {
    forall i :: 0 <= i < |moves| ==> FaithfulMove(origin, moves[i])
  }

  ghost predicate AlwaysSound(origin: Key -> Bytes, r: Racing, moves: seq<Move>)
    decreases |moves|
  {
    AllSound(origin, r) && (moves == [] || AlwaysSound(origin, Next(r, moves[0]), moves[1..]))
  }

  predicate NeverRecreates(r: Racing, moves: seq<Move>)
    decreases |moves|
  {
    moves == [] || (!Recreates(r, moves[0]) && NeverRecreates(Next(r, moves[0]), moves[1..]))
  }

  /**
   Over every interleaving of writes, updates, queries, deletes, the scan and crashes,
   with any call failing, every promise about an existing file is true throughout iff no
   write creates a data file anew while an old promise about it survives.
   */
  lemma {:induction false} RacesCoherent(origin: Key -> Bytes, r: Racing, moves: seq<Move>)
    requires AllSound(origin, r) && WellRun(origin, r) && LegalMoves(r, moves) && FaithfulMoves(origin, moves)
    ensures AlwaysSound(origin, r, moves) <==> NeverRecreates(r, moves)
    decreases |moves|
  {
    if moves != [] {
      hide Next, LegalMove, Recreates, AllSound, WellRun, FaithfulMove;
      MoveKeeps(origin, r, moves[0]);
      MoveRuns(origin, r, moves[0]);
      if !Recreates(r, moves[0]) {
        assert forall i :: 0 <= i < |moves[1..]| ==> moves[1..][i] == moves[i + 1];
        RacesCoherent(origin, Next(r, moves[0]), moves[1..]);
      }
    }
  }
}
