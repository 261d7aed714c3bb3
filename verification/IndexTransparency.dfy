/**
 The metadata index against an engine that reloads and re-validates the sidecar each
 time. The reloading engine is the same engine with its index emptied before each call.
 */
module IndexTransparency {
  import opened Base
  import opened IntervalTable
  import opened DiskEngine
  import opened WriteAccounting

  function Reloading(d: Disk): Engine { Engine(d, map[]) }

  /** Index entries equal their sidecars and were valid apart from the recorded total. */
  ghost predicate IndexOk(e: Engine)
  {
    forall k :: k in e.index ==>
      && k in e.disk.sidecar && e.disk.sidecar[k] == e.index[k]
      && e.index[k].version <= RANGE_METADATA_VERSION && e.index[k].key == Some(k)
      && InFile(e.index[k].completed, FileSize(e.disk, k))
  }

  /** No indexed total is below the length of its data file. */
  ghost predicate TotalsFit(e: Engine)
  {
    forall k :: k in e.index ==> TotalFits(e.index[k], FileSize(e.disk, k))
  }

  /** Every query has the same answer through the index as from a fresh sidecar. */
  ghost predicate SameAnswers(e: Engine, d: Disk)
  {
    e.disk == d && forall k :: View(e, k) == View(Reloading(d), k)
  }

  lemma SameIffFits(e: Engine)
    requires IndexOk(e)
    ensures SameAnswers(e, e.disk) <==> TotalsFit(e)
  {
    forall k ensures View(e, k) == View(Reloading(e.disk), k) <==> (k in e.index ==> TotalFits(e.index[k], FileSize(e.disk, k))) {
    }
  }

  /** The index never outgrows its limit while evictions pick one of its entries. */
  lemma IndexBounded(index: map<Key, RangeMetadata>, key: Key, m: RangeMetadata, victim: Key)
    requires |index.Keys| <= MAX_INDEXED_KEYS && (|index| >= MAX_INDEXED_KEYS && key !in index ==> victim in index)
    ensures |IndexInsert(index, key, m, victim).Keys| <= MAX_INDEXED_KEYS
  {
  }

  /** An insertion leaves its key indexed and loses nothing but the chosen entry. */
  lemma IndexRemembers(index: map<Key, RangeMetadata>, key: Key, m: RangeMetadata, victim: Key, k: Key)
    ensures var after := IndexInsert(index, key, m, victim);
      && key in after && after[key] == m
      && (k in index && k != key && (k != victim || |index| < MAX_INDEXED_KEYS) ==> k in after && after[k] == index[k])
  {
  }

  /** A second query of a key with a valid sidecar does not go to the disk. */
  lemma TouchRemembers(e: Engine, key: Key, victim: Key)
    ensures key in Touch(e, key, victim).index <==> key in e.index || Load(e.disk, key).Some?
  {
  }

  // ----- the index invariant -----

  lemma InsertOk(e: Engine, index: map<Key, RangeMetadata>, key: Key, m: RangeMetadata, victim: Key)
    requires IndexOk(e.(index := index - {key})) && key in e.disk.sidecar && e.disk.sidecar[key] == m
    requires m.version <= RANGE_METADATA_VERSION && m.key == Some(key) && InFile(m.completed, FileSize(e.disk, key))
    ensures IndexOk(e.(index := IndexInsert(index, key, m, victim)))
  {
  }

  /** A file that only grows keeps every indexed table inside it. */
  lemma DataOk(e: Engine, key: Key, after: Bytes)
    requires IndexOk(e) && |Opened(e, key)| <= |after|
    ensures IndexOk(WithData(e, key, after))
  {
  }

  lemma ViewInFile(e: Engine, key: Key)
    requires IndexOk(e)
    ensures InFile(View(e, key).completed, FileSize(e.disk, key))
  {
  }

  lemma UpdateOk(e: Engine, key: Key, edit: Edit, commitOk: bool, victim: Key)
    requires IndexOk(e)
    requires edit.AddRange? ==> edit.lo <= edit.hi && key in e.disk.data && edit.hi < |e.disk.data[key]|
    ensures IndexOk(UpdateMetadata(e, key, edit, commitOk, victim).0)
  {
    hide Merge, IndexInsert;
    ViewInFile(e, key);
    var m := Stamp(EditMetadata(View(e, key), edit), key);
    if edit.AddRange? { MergeInFile(View(e, key).completed, edit.lo, edit.hi, |e.disk.data[key]|); }
    var e1 := e.(disk := e.disk.(sidecar := e.disk.sidecar[key := m]));
    if !(edit.SetMeta? && EditMetadata(View(e, key), edit) == View(e, key)) && commitOk {
      assert IndexOk(e1.(index := e.index - {key}));
      InsertOk(e1, e.index, key, m, victim);
    }
  }

  lemma MergeInFile(t: Table, lo: u64, hi: u64, size: nat)
    requires Canonical(t) && (forall i :: 0 <= i < |t| ==> t[i].hi < size) && lo <= hi < size
    ensures InFile(Merge(t, lo, hi), Some(size))
  {
    hide Merge;
    MergeIsUnion(t, lo, hi);
    var m := Merge(t, lo, hi);
    forall i | 0 <= i < |m| ensures m[i].hi < size { assert Covers(m, m[i].hi); }
  }

  lemma WriteOk(e: Engine, op: Op)
    requires op.Write? && IndexOk(e) && LegalIo(e, op)
    ensures IndexOk(Apply(e, op))
  {
    hide Drain, UpdateMetadata, Apply, LegalIo, IndexOk, Patch;
    WriteRefused(e, op);
    if Limit(op.start, op.end).Ok? {
      var d := Drain(op.stream, Limit(op.start, op.end).value, op.io.failAt, 0, []);
      WriteShape(e, op, d);
      DataOk(e, op.key, NewFile(e, op, d));
      if Records(e, op, d) {
        UpdateOk(Grown(e, op.key, op.start, d), op.key, AddRange(op.start, op.start + |d.bytes| - 1), op.io.commitOk, op.io.victim);
      }
    }
  }

  lemma StepOk(e: Engine, op: Op)
    requires IndexOk(e) && LegalIo(e, op)
    ensures IndexOk(Apply(e, op))
  {
    hide WriteEngine, LegalIo, UpdateMetadata, IndexInsert;
    match op
    case Write(_, _, _, _, _) => WriteOk(e, op);
    case RecordMeta(key, total, contentType, commitOk, victim) =>
      UpdateOk(e, key, SetMeta(total, contentType), commitOk, victim);
    case Query(key, victim) =>
      if Load(e.disk, key).Some? { InsertOk(e, e.index, key, Load(e.disk, key).value, victim); }
    case Delete(key, outcome) =>
    case Restart(_, _) =>
  }

  // ----- transparency -----

  lemma UpdateSame(e: Engine, key: Key, edit: Edit, commitOk: bool, victim: Key)
    requires View(e, key) == View(Reloading(e.disk), key)
    ensures UpdateMetadata(e, key, edit, commitOk, victim).0.disk ==
            UpdateMetadata(Reloading(e.disk), key, edit, commitOk, victim).0.disk
    ensures UpdateMetadata(e, key, edit, commitOk, victim).1 ==
            UpdateMetadata(Reloading(e.disk), key, edit, commitOk, victim).1
  {
  }

  /** After an update of a key the index still shows the total it was read with. */
  lemma RecordKeepsTotal(e: Engine, key: Key, lo: u64, hi: u64, commitOk: bool, victim: Key)
    requires key in e.index && IndexOk(e)
    ensures var e' := UpdateMetadata(e, key, AddRange(lo, hi), commitOk, victim).0;
      key in e'.index && e'.index[key].total == e.index[key].total && e'.disk.data == e.disk.data
  {
  }

  /** What the caller of a step is told. */
  function Reply(e: Engine, op: Op): Result<u64>
  {
    match op
    case Write(key, start, end, stream, io) => WriteEngine(e, key, start, end, stream, io).1
    case RecordMeta(key, total, contentType, commitOk, victim) =>
      if UpdateMetadata(e, key, SetMeta(total, contentType), commitOk, victim).1.Ok? then Ok(0) else Err(Storage)
    case Query(_, _) => Ok(0)
    case Delete(_, outcome) => if outcome.BothGone? then Ok(0) else Err(Storage)
    case Restart(_, _) => Ok(0)
  }

  /** One step from agreeing states has the same effect on the disk when the totals still fit afterwards. */
  lemma StepSame(e: Engine, op: Op)
    requires IndexOk(e) && TotalsFit(e) && LegalIo(e, op) && TotalsFit(Apply(e, op))
    ensures Apply(e, op).disk == Apply(Reloading(e.disk), op).disk
    ensures Reply(e, op) == Reply(Reloading(e.disk), op)
  {
    hide Drain, UpdateMetadata, Patch;
    match op
    case Write(key, start, end, stream, io) => WriteSame(e, op);
    case RecordMeta(key, total, contentType, commitOk, victim) =>
      SameIffFits(e);
      UpdateSame(e, key, SetMeta(total, contentType), commitOk, victim);
    case Query(key, victim) =>
    case Delete(key, outcome) =>
    case Restart(_, _) =>
  }

  lemma WriteSame(e: Engine, op: Op)
    requires op.Write? && IndexOk(e) && LegalIo(e, op) && TotalsFit(Apply(e, op))
    ensures Apply(e, op).disk == Apply(Reloading(e.disk), op).disk
    ensures Reply(e, op) == Reply(Reloading(e.disk), op)
  {
    hide Drain, UpdateMetadata, Patch, TornBy, View, IndexOk, TotalsFit;
    var key, start, io := op.key, op.start, op.io;
    if Limit(start, op.end).Ok? {
      var d := Drain(op.stream, Limit(start, op.end).value, io.failAt, 0, []);
      if d.bytes != [] && Recordable(d.stop) && io.syncOk && io.openOk && io.seekOk && start + |d.bytes| - 1 <= U64_MAX {
        var e1 := Grown(e, key, start, d);
        DataOk(e, key, Patch(Opened(e, key), start, d.bytes));
        GrownFits(e1, key, start, start + |d.bytes| - 1, io);
        UpdateSame(e1, key, AddRange(start, start + |d.bytes| - 1), io.commitOk, io.victim);
      }
    }
  }

  lemma GrownFits(e1: Engine, key: Key, lo: u64, hi: u64, io: WriteIo)
    requires IndexOk(e1) && TotalsFit(UpdateMetadata(e1, key, AddRange(lo, hi), io.commitOk, io.victim).0)
    ensures View(e1, key) == View(Reloading(e1.disk), key)
  {
    hide UpdateMetadata;
    if key in e1.index { RecordKeepsTotal(e1, key, lo, hi, io.commitOk, io.victim); }
  }

  ghost predicate AlwaysFit(e: Engine, ops: seq<Op>)
    decreases |ops|
  {
    TotalsFit(e) && (ops == [] || AlwaysFit(Apply(e, ops[0]), ops[1..]))
  }

  /** The indexed engine and the reloading one, run side by side, never answer differently. */
  ghost predicate AlwaysSame(e: Engine, d: Disk, ops: seq<Op>)
    decreases |ops|
  {
    && SameAnswers(e, d)
    && (ops != [] ==>
         && Reply(e, ops[0]) == Reply(Reloading(d), ops[0])
         && AlwaysSame(Apply(e, ops[0]), Apply(Reloading(d), ops[0]).disk, ops[1..]))
  }

  /** From any disk contents, the index is invisible along a run iff indexed totals never drop below the file length. */
  lemma {:induction false} IndexTransparent(e: Engine, ops: seq<Op>)
    requires IndexOk(e) && LegalRun(e, ops)
    ensures AlwaysSame(e, e.disk, ops) <==> AlwaysFit(e, ops)
    decreases |ops|
  {
    hide Apply, Reply, TotalsFit, IndexOk, SameAnswers, LegalIo;
    SameIffFits(e);
    if ops != [] && TotalsFit(e) {
      StepOk(e, ops[0]);
      var e1 := Apply(e, ops[0]);
      IndexTransparent(e1, ops[1..]);
      if TotalsFit(e1) { StepSame(e, ops[0]); }
      else { NotSame(e1, Apply(Reloading(e.disk), ops[0]).disk); }
    }
  }

  lemma NotSame(e: Engine, d: Disk)
    requires IndexOk(e) && !TotalsFit(e)
    ensures !SameAnswers(e, d)
  {
    hide View;
    SameIffFits(e);
  }

  /** The answers that go through the index, in terms of `View`. */
  lemma AnswersFollowView(e: Engine, d: Disk, key: Key, start: u64, end: u64)
    requires SameAnswers(e, d)
    ensures CheckRange(e, key, start, end) == CheckRange(Reloading(d), key, start, end)
    ensures ReadExtent(e, key, start, end) == ReadExtent(Reloading(d), key, start, end)
  {
    assert View(e, key) == View(Reloading(d), key);
  }
}
