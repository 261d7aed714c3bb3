/**
 Runs fed by an honest upstream: coherence, true totals and a transparent index hold
 together in every reachable state.
 */
module HonestRuns {
  import opened Base
  import opened IntervalTable
  import opened DiskEngine
  import opened WriteAccounting
  import opened DiskCoherence
  import opened IndexTransparency
  import opened Serving

  /** Recorded totals are the origin's length, never zero, and no data file is longer than it. */
  ghost predicate TrueSizes(origin: Key -> Bytes, e: Engine)
  {
    && (forall k :: k in e.disk.sidecar && e.disk.sidecar[k].total.Some? ==> 0 < e.disk.sidecar[k].total.value == |origin(k)|)
    && (forall k :: k in e.disk.data ==> |e.disk.data[k]| <= |origin(k)|)
  }

  ghost predicate Good(origin: Key -> Bytes, e: Engine)
  {
    Coherent(origin, e) && TrueSizes(origin, e) && IndexOk(e)
  }

  ghost predicate HonestOp(origin: Key -> Bytes, op: Op)
  {
    && FaithfulOp(origin, op)
    && (op.RecordMeta? && op.total.Some? ==> op.total.value == |origin(op.key)|)
  }

  lemma UpdateKeepsSizes(origin: Key -> Bytes, e: Engine, key: Key, edit: Edit, commitOk: bool, victim: Key)
    requires Good(origin, e)
    requires edit.SetMeta? && edit.total.Some? ==> edit.total.value == |origin(key)|
    ensures TrueSizes(origin, UpdateMetadata(e, key, edit, commitOk, victim).0)
  {
    hide Merge, Sound, MetadataIsValid, InFile, IndexInsert;
  }

  lemma GrownKeepsSizes(origin: Key -> Bytes, e: Engine, key: Key, start: nat, bytes: Bytes, after: Bytes)
    requires TrueSizes(origin, e)
    requires if bytes == [] then after == Opened(e, key) else At(origin(key), start, bytes) && |after| <= Max(|Opened(e, key)|, start + |bytes|)
    ensures TrueSizes(origin, WithData(e, key, after))
  {
  }

  /** The file of a faithful write is no longer than the origin. */
  lemma NewFileKeepsSizes(origin: Key -> Bytes, e: Engine, op: Op, d: Drained)
    requires op.Write? && Good(origin, e) && LegalIo(e, op) && FaithfulOp(origin, op) && Limit(op.start, op.end).Ok?
    requires d == Drain(op.stream, Limit(op.start, op.end).value, op.io.failAt, 0, [])
    ensures TrueSizes(origin, WithData(e, op.key, NewFile(e, op, d)))
  {
    hide Coherent, IndexOk, Drain, UpdateMetadata, Faithful, At, Apply, LegalIo, TrueSizes, Patch;
    WriteShape(e, op, d);
    AttemptedFaithful(op.stream, Limit(op.start, op.end).value, op.io.failAt, origin(op.key), op.start);
    GrownKeepsSizes(origin, e, op.key, op.start, Attempted(op.stream, d), NewFile(e, op, d));
  }

  lemma WriteKeepsSizes(origin: Key -> Bytes, e: Engine, op: Op)
    requires op.Write? && Good(origin, e) && LegalIo(e, op) && FaithfulOp(origin, op)
    ensures TrueSizes(origin, Apply(e, op))
  {
    hide Coherent, IndexOk, Drain, UpdateMetadata, Faithful, At, Apply, LegalIo, TrueSizes, Patch;
    var key, start, io := op.key, op.start, op.io;
    WriteRefused(e, op);
    if Limit(start, op.end).Ok? {
      var d := Drain(op.stream, Limit(start, op.end).value, io.failAt, 0, []);
      WriteShape(e, op, d);
      AttemptedFaithful(op.stream, Limit(start, op.end).value, io.failAt, origin(key), start);
      NewFileKeepsSizes(origin, e, op, d);
      if Records(e, op, d) { RecordKeepsSizes(origin, e, key, start, d, io); }
    }
  }

  lemma RecordKeepsSizes(origin: Key -> Bytes, e: Engine, key: Key, start: u64, d: Drained, io: WriteIo)
    requires Good(origin, e) && d.bytes != [] && At(origin(key), start, d.bytes) && start + |d.bytes| - 1 <= U64_MAX
    ensures TrueSizes(origin, UpdateMetadata(Grown(e, key, start, d), key, AddRange(start, start + |d.bytes| - 1), io.commitOk, io.victim).0)
  {
  }

  lemma StepGood(origin: Key -> Bytes, e: Engine, op: Op)
    requires Good(origin, e) && LegalIo(e, op) && HonestOp(origin, op) && !LeavesStale(e, op)
    ensures Good(origin, Apply(e, op))
  {
    hide Coherent, IndexOk, TrueSizes, Apply, LegalIo, HonestOp;
    assert FaithfulOp(origin, op) by { HonestIsFaithful(origin, op); }
    StepKeeps(origin, e, op);
    StepOk(e, op);
    StepKeepsSizes(origin, e, op);
  }

  lemma HonestIsFaithful(origin: Key -> Bytes, op: Op)
    requires HonestOp(origin, op)
    ensures FaithfulOp(origin, op)
  {
  }

  /** Nothing on disk is new. */
  ghost predicate Shrinks(before: Disk, after: Disk)
  {
    && (forall k :: k in after.sidecar ==> k in before.sidecar && after.sidecar[k] == before.sidecar[k])
    && (forall k :: k in after.data ==> k in before.data && after.data[k] == before.data[k])
  }

  lemma OthersShrink(e: Engine, op: Op)
    requires op.Query? || op.Delete? || op.Restart?
    ensures Shrinks(e.disk, Apply(e, op).disk)
  {
    hide MetadataIsValid, IndexInsert;
  }

  lemma ShrinkKeepsSizes(origin: Key -> Bytes, before: Engine, after: Engine)
    requires TrueSizes(origin, before) && Shrinks(before.disk, after.disk)
    ensures TrueSizes(origin, after)
  {
  }

  lemma StepKeepsSizes(origin: Key -> Bytes, e: Engine, op: Op)
    requires Good(origin, e) && LegalIo(e, op) && HonestOp(origin, op)
    ensures TrueSizes(origin, Apply(e, op))
  {
    hide Coherent, IndexOk, UpdateMetadata, WriteEngine, LegalIo, Faithful, TrueSizes, Shrinks, DeleteEngine, Recover, Touch;
    match op
    case Write(_, _, _, _, _) => WriteKeepsSizes(origin, e, op);
    case RecordMeta(key, total, contentType, commitOk, victim) =>
      UpdateKeepsSizes(origin, e, key, SetMeta(total, contentType), commitOk, victim);
    case _ =>
      OthersShrink(e, op);
      ShrinkKeepsSizes(origin, e, Apply(e, op));
  }

  /** Every state an honest run reaches serves its keys truthfully, and its index answers as a fresh load would. */
  lemma {:induction false} HonestRunsAreGood(origin: Key -> Bytes, e: Engine, ops: seq<Op>)
    requires Good(origin, e) && LegalRun(e, ops) && NeverStale(e, ops)
    requires forall i :: 0 <= i < |ops| ==> HonestOp(origin, ops[i])
    ensures var after := Run(e, ops);
      Good(origin, after) && TotalsFit(after) && SameAnswers(after, after.disk) && forall key :: Trusty(origin, key, after)
    decreases |ops|
  {
    if ops == [] {
      GoodIsTrusty(origin, e);
    } else {
      hide Apply, LegalIo, LeavesStale, Good, HonestOp;
      StepGood(origin, e, ops[0]);
      assert forall i :: 0 <= i < |ops[1..]| ==> ops[1..][i] == ops[i + 1];
      HonestRunsAreGood(origin, Apply(e, ops[0]), ops[1..]);
    }
  }

  lemma GoodIsTrusty(origin: Key -> Bytes, e: Engine)
    requires Good(origin, e)
    ensures TotalsFit(e) && SameAnswers(e, e.disk) && forall key :: Trusty(origin, key, e)
  {
  }

  /** A fresh cache is good, so the run theorem starts from something. */
  lemma EmptyIsGood(origin: Key -> Bytes)
    ensures Good(origin, EMPTY)
  {
  }
}
