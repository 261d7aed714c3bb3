/**
 Cache coherence over whole runs: a sidecar never promises a byte its data file does
 not hold. `origin` gives the true content of every key.
 */
module DiskCoherence {
  import opened Base
  import opened IntervalTable
  import opened DiskEngine
  import opened WriteAccounting

  /** Every promised offset of the key holds the origin's byte in the data file. */
  ghost predicate Sound(content: Bytes, d: Disk, key: Key, t: Table)
  {
    && Canonical(t)
    && forall x :: Covers(t, x) ==>
         key in d.data && 0 <= x < |d.data[key]| && x < |content| && d.data[key][x] == content[x]
  }

  /** Every promise is true, whether a sidecar makes it or the index. */
  ghost predicate Coherent(origin: Key -> Bytes, e: Engine)
  {
    && (forall k :: k in e.disk.sidecar ==> Sound(origin(k), e.disk, k, e.disk.sidecar[k].completed))
    && (forall k :: k in e.index ==> Sound(origin(k), e.disk, k, e.index[k].completed))
  }

  /** The written stream carries the origin's bytes at its offset. */
  ghost predicate FaithfulOp(origin: Key -> Bytes, op: Op)
  {
    op.Write? ==> Faithful(origin(op.key), op.start, op.stream)
  }

  predicate Promises(d: Disk, key: Key) { key in d.sidecar && d.sidecar[key].completed != [] }

  /** A restart loses the key's data file, in the crash or in the scan, and keeps its sidecar. */
  predicate LosesDataOnly(d: Disk, inDelete: Option<Key>, scan: ScanIo, key: Key)
  {
    var discards := Discards(Crashed(d, inDelete), scan, key);
    && (inDelete == Some(key) || (discards && key !in scan.dataStuck))
    && (!discards || key in scan.sidecarStuck)
  }

  /** The step removes the data file of a sidecar with promises in it and leaves the sidecar. */
  predicate LeavesStale(e: Engine, op: Op)
  {
    match op
    case Delete(key, outcome) => outcome == SidecarStuck && Promises(e.disk, key)
    case Restart(inDelete, scan) => exists k :: k in e.disk.sidecar && Promises(e.disk, k) && LosesDataOnly(e.disk, inDelete, scan, k)
    case _ => false
  }

  // ----- one step -----

  /** A write, torn or whole, of origin bytes keeps every origin byte already there. */
  lemma DataKeeps(origin: Key -> Bytes, e: Engine, key: Key, after: Bytes, start: nat, bytes: Bytes)
    requires Coherent(origin, e)
    requires TornBy(Opened(e, key), after, start, bytes)
    requires bytes == [] || At(origin(key), start, bytes)
    ensures Coherent(origin, WithData(e, key, after))
  {
  }

  lemma ViewSound(origin: Key -> Bytes, e: Engine, key: Key)
    requires Coherent(origin, e)
    ensures Sound(origin(key), e.disk, key, View(e, key).completed)
  {
  }

  /** Committing an update keeps coherence when the edited table is sound. */
  lemma UpdateKeeps(origin: Key -> Bytes, e: Engine, key: Key, edit: Edit, commitOk: bool, victim: Key)
    requires Coherent(origin, e)
    requires Sound(origin(key), e.disk, key, EditMetadata(View(e, key), edit).completed)
    ensures Coherent(origin, UpdateMetadata(e, key, edit, commitOk, victim).0)
  {
    var e' := UpdateMetadata(e, key, edit, commitOk, victim).0;
    forall k | k in e'.disk.sidecar ensures Sound(origin(k), e'.disk, k, e'.disk.sidecar[k].completed) {
      if k != key { assert Sound(origin(k), e.disk, k, e.disk.sidecar[k].completed); }
    }
  }

  lemma MergeSound(content: Bytes, d: Disk, key: Key, t: Table, lo: u64, hi: u64)
    requires Sound(content, d, key, t) && lo <= hi
    requires key in d.data && hi < |d.data[key]| && hi < |content|
    requires forall x :: lo <= x <= hi ==> d.data[key][x] == content[x]
    ensures Sound(content, d, key, Merge(t, lo, hi))
  {
    hide Merge;
    MergeIsUnion(t, lo, hi);
  }

  lemma AttemptedFaithful(stream: Stream, limit: Option<u64>, failAt: Option<nat>, content: Bytes, start: nat)
    requires Faithful(content, start, stream)
    ensures var d := Drain(stream, limit, failAt, 0, []);
      && (d.bytes == [] || At(content, start, d.bytes))
      && (Attempted(stream, d) == [] || At(content, start, Attempted(stream, d)))
  {
    DrainStops(stream, limit, failAt, 0, []);
    var d := Drain(stream, limit, failAt, 0, []);
    FaithfulPrefix(content, start, stream, d.count);
    if d.stop.DiskFault? {
      var n := d.count + 1;
      assert stream[..n] == stream[..d.count] + [stream[d.count]];
      PayloadSnoc(stream[..d.count], stream[d.count]);
      FaithfulPrefix(content, start, stream, n);
    }
  }

  lemma WriteKeeps(origin: Key -> Bytes, e: Engine, op: Op)
    requires op.Write? && Coherent(origin, e) && LegalIo(e, op) && FaithfulOp(origin, op)
    ensures Coherent(origin, Apply(e, op))
  {
    hide Coherent, Drain, UpdateMetadata, TornBy, Apply, LegalIo, At;
    var key, start, io := op.key, op.start, op.io;
    WriteRefused(e, op);
    if Limit(start, op.end).Ok? {
      var d := Drain(op.stream, Limit(start, op.end).value, io.failAt, 0, []);
      WriteShape(e, op, d);
      AttemptedFaithful(op.stream, Limit(start, op.end).value, io.failAt, origin(key), start);
      DataKeeps(origin, e, key, NewFile(e, op, d), start, Attempted(op.stream, d));
      if Records(e, op, d) { RecordKeeps(origin, Grown(e, key, start, d), key, start, d.bytes, io); }
    }
  }

  lemma RecordKeeps(origin: Key -> Bytes, e1: Engine, key: Key, start: u64, bytes: Bytes, io: WriteIo)
    requires Coherent(origin, e1) && bytes != [] && start + |bytes| - 1 <= U64_MAX
    requires At(origin(key), start, bytes)
    requires key in e1.disk.data && start + |bytes| <= |e1.disk.data[key]|
    requires forall x :: start <= x < start + |bytes| ==> e1.disk.data[key][x] == bytes[x - start]
    ensures Coherent(origin, UpdateMetadata(e1, key, AddRange(start, start + |bytes| - 1), io.commitOk, io.victim).0)
  {
    ViewSound(origin, e1, key);
    forall x | start <= x < start + |bytes| ensures e1.disk.data[key][x] == origin(key)[x] {
      assert origin(key)[start..start + |bytes|][x - start] == origin(key)[x];
    }
    MergeSound(origin(key), e1.disk, key, View(e1, key).completed, start, start + |bytes| - 1);
    UpdateKeeps(origin, e1, key, AddRange(start, start + |bytes| - 1), io.commitOk, io.victim);
  }

  /** A file that is gone makes the promises about it false. */
  lemma StaleIsUnsound(content: Bytes, d: Disk, key: Key, t: Table)
    requires t != [] && key !in d.data
    ensures !Sound(content, d, key, t)
  {
    if Canonical(t) { assert Covers(t, t[0].lo); }
  }

  /** A table stays sound while the file it speaks about stays as it is. */
  lemma SoundStays(content: Bytes, before: Disk, after: Disk, key: Key, t: Table)
    requires Sound(content, before, key, t)
    requires t != [] && key in before.data ==> key in after.data && after.data[key] == before.data[key]
    ensures Sound(content, after, key, t)
  {
    if t != [] { assert Covers(t, t[0].lo); }
  }

  /** A restart keeps coherence exactly when no pair loses its data file alone. */
  lemma RestartKeeps(origin: Key -> Bytes, e: Engine, inDelete: Option<Key>, scan: ScanIo)
    requires Coherent(origin, e)
    ensures Coherent(origin, Apply(e, Restart(inDelete, scan))) <==> !LeavesStale(e, Restart(inDelete, scan))
  {
    hide Sound, Keeps;
    var d := Recover(Crashed(e.disk, inDelete), scan);
    if k :| k in e.disk.sidecar && Promises(e.disk, k) && LosesDataOnly(e.disk, inDelete, scan, k) {
      StaleIsUnsound(origin(k), d, k, d.sidecar[k].completed);
    } else {
      forall k | k in d.sidecar ensures Sound(origin(k), d, k, d.sidecar[k].completed) {
        assert Sound(origin(k), e.disk, k, e.disk.sidecar[k].completed);
        SoundStays(origin(k), e.disk, d, k, d.sidecar[k].completed);
      }
    }
  }

  /** A scan that reaches every pair and unlinks what it discards mends a delete that a crash cut in half. */
  lemma CleanScanMends(origin: Key -> Bytes, e: Engine, inDelete: Option<Key>, scan: ScanIo)
    requires Coherent(origin, e) && scan.unscanned == {} && scan.sidecarStuck == {}
    ensures Coherent(origin, Apply(e, Restart(inDelete, scan)))
  {
    hide Coherent;
    RestartKeeps(origin, e, inDelete, scan);
  }

  lemma DeleteKeepsUnlessHalf(origin: Key -> Bytes, e: Engine, key: Key, outcome: DeleteOutcome)
    requires Coherent(origin, e)
    ensures Coherent(origin, DeleteEngine(e, key, outcome)) <==> !LeavesStale(e, Delete(key, outcome))
  {
    hide Sound;
    var e' := DeleteEngine(e, key, outcome);
    if LeavesStale(e, Delete(key, outcome)) {
      StaleIsUnsound(origin(key), e'.disk, key, e'.disk.sidecar[key].completed);
    } else {
      forall k | k in e'.disk.sidecar ensures Sound(origin(k), e'.disk, k, e'.disk.sidecar[k].completed) {
        assert Sound(origin(k), e.disk, k, e.disk.sidecar[k].completed);
        SoundStays(origin(k), e.disk, e'.disk, k, e'.disk.sidecar[k].completed);
      }
      forall k | k in e'.index ensures Sound(origin(k), e'.disk, k, e'.index[k].completed) {
        assert Sound(origin(k), e.disk, k, e.index[k].completed);
        SoundStays(origin(k), e.disk, e'.disk, k, e'.index[k].completed);
      }
    }
  }

  /** A faithful step keeps coherence exactly when it leaves no stale sidecar. */
  lemma StepKeeps(origin: Key -> Bytes, e: Engine, op: Op)
    requires Coherent(origin, e) && LegalIo(e, op) && FaithfulOp(origin, op)
    ensures Coherent(origin, Apply(e, op)) <==> !LeavesStale(e, op)
  {
    match op
    case Write(_, _, _, _, _) => WriteKeeps(origin, e, op);
    case RecordMeta(key, total, contentType, commitOk, victim) =>
      ViewSound(origin, e, key);
      UpdateKeeps(origin, e, key, SetMeta(total, contentType), commitOk, victim);
    case Query(key, victim) =>
    case Delete(key, outcome) => DeleteKeepsUnlessHalf(origin, e, key, outcome);
    case Restart(inDelete, scan) => RestartKeeps(origin, e, inDelete, scan);
  }

  // ----- whole runs -----

  ghost predicate FaithfulRun(origin: Key -> Bytes, ops: seq<Op>)
  {
    forall i :: 0 <= i < |ops| ==> FaithfulOp(origin, ops[i])
  }

  /** The engine is coherent before every step and after the last. */
  ghost predicate AlwaysCoherent(origin: Key -> Bytes, e: Engine, ops: seq<Op>)
    decreases |ops|
  {
    Coherent(origin, e) && (ops == [] || AlwaysCoherent(origin, Apply(e, ops[0]), ops[1..]))
  }

  predicate NeverStale(e: Engine, ops: seq<Op>)
    decreases |ops|
  {
    ops == [] || (!LeavesStale(e, ops[0]) && NeverStale(Apply(e, ops[0]), ops[1..]))
  }

  /** A run of faithful writes, failures, evictions, deletes and crashes is coherent throughout iff no delete or restart leaves a stale sidecar. */
  lemma {:induction false} RunCoherent(origin: Key -> Bytes, e: Engine, ops: seq<Op>)
    requires Coherent(origin, e) && LegalRun(e, ops) && FaithfulRun(origin, ops)
    ensures AlwaysCoherent(origin, e, ops) <==> NeverStale(e, ops)
    decreases |ops|
  {
    if ops != [] {
      hide Apply, LegalIo, LeavesStale, Coherent, FaithfulOp;
      StepKeeps(origin, e, ops[0]);
      if !LeavesStale(e, ops[0]) {
        assert forall i :: 0 <= i < |ops[1..]| ==> ops[1..][i] == ops[i + 1];
        RunCoherent(origin, Apply(e, ops[0]), ops[1..]);
      }
    }
  }

  // ----- reading -----

  /** What the metadata promises about an existing file is true. */
  ghost predicate Believable(origin: Key -> Bytes, e: Engine, key: Key)
  {
    key in e.disk.data ==> Sound(origin(key), e.disk, key, View(e, key).completed)
  }

  /** The data file of the key is still the same file: it did not shrink, and right bytes stayed right. */
  ghost predicate KeepsFile(content: Bytes, before: Disk, after: Disk, key: Key)
  {
    && key in before.data && key in after.data && |before.data[key]| <= |after.data[key]|
    && forall x :: 0 <= x < |before.data[key]| && x < |content| && before.data[key][x] == content[x] ==> after.data[key][x] == content[x]
  }

  /** A read whose file was not replaced between the look at the metadata and the open: nothing or the origin's bytes. */
  lemma ReadAcrossIsOrigin(origin: Key -> Bytes, looked: Engine, open: Engine, key: Key, start: u64, end: u64)
    requires Believable(origin, looked, key) && start <= end != OPEN_ENDED
    requires key in open.disk.data && View(looked, key).completed != [] ==> KeepsFile(origin(key), looked.disk, open.disk, key)
    ensures Covered(looked, key, start, end) && key in open.disk.data ==>
      && ReadAcross(looked, open, key, start, end) == Ok((start, end))
      && end < |open.disk.data[key]| && end < |origin(key)|
      && open.disk.data[key][start..end + 1] == origin(key)[start..end + 1]
    ensures !Covered(looked, key, start, end) || key !in open.disk.data ==> ReadAcross(looked, open, key, start, end).Err?
  {
    if Covered(looked, key, start, end) && key in open.disk.data {
      OneIntervalSuffices(View(looked, key).completed, start, end);
      assert Covers(View(looked, key).completed, end);
    }
  }

  /** A closed range that check_range accepts is read back as exactly the origin's bytes. */
  lemma CachedReadIsOrigin(origin: Key -> Bytes, e: Engine, key: Key, start: u64, end: u64)
    requires Believable(origin, e, key) && start <= end != OPEN_ENDED
    ensures CheckRange(e, key, start, end) ==>
      && ReadExtent(e, key, start, end) == Ok((start, end))
      && end < |e.disk.data[key]| && end < |origin(key)|
      && e.disk.data[key][start..end + 1] == origin(key)[start..end + 1]
    ensures !CheckRange(e, key, start, end) ==> ReadExtent(e, key, start, end).Err?
  {
    hide View, RequestedEnd, HasInterval, Believable, Covered;
    ReadAcrossIsOrigin(origin, e, e, key, start, end);
  }

  /** check_range on a closed range holds exactly when every offset is promised and the file exists. */
  lemma CheckRangeMeaning(origin: Key -> Bytes, e: Engine, key: Key, start: u64, end: u64)
    requires Coherent(origin, e) && start <= end != OPEN_ENDED
    ensures CheckRange(e, key, start, end) <==>
      forall x :: start <= x <= end ==> Covers(View(e, key).completed, x)
  {
    ViewSound(origin, e, key);
    OneIntervalSuffices(View(e, key).completed, start, end);
    assert Covers(View(e, key).completed, start) ==> key in e.disk.data;
  }

  /** An accepted open range ends at the file's last byte and is the origin there, while the recorded total is not exceeded. */
  lemma OpenReadIsOrigin(origin: Key -> Bytes, e: Engine, key: Key, start: u64)
    requires Coherent(origin, e)
    requires TotalFits(View(e, key), FileSize(e.disk, key))
    ensures CheckRange(e, key, start, OPEN_ENDED) && ReadExtent(e, key, start, OPEN_ENDED).Ok? ==>
      var last := ReadExtent(e, key, start, OPEN_ENDED).value.1;
      && last == |e.disk.data[key]| - 1 && start <= last < |origin(key)|
      && e.disk.data[key][start..last + 1] == origin(key)[start..last + 1]
  {
    if CheckRange(e, key, start, OPEN_ENDED) && ReadExtent(e, key, start, OPEN_ENDED).Ok? {
      ViewSound(origin, e, key);
      var t := View(e, key).completed;
      var last := |e.disk.data[key]| - 1;
      var checked := RequestedEnd(e, key, OPEN_ENDED).value;
      assert last <= checked;
      OneIntervalSuffices(t, start, last);
      assert HasInterval(t, start, last);
      assert Covers(t, last);
    }
  }
}
