/** What the cache remembers: a written range stays cached until it is deleted, also across restarts. */
module Durability {
  import opened Base
  import opened IntervalTable
  import opened DiskEngine
  import opened WriteAccounting
  import opened WriteContract
  import opened DiskCoherence
  import opened IndexTransparency
  import opened HonestRuns

  /** A recorded total or content type replaces the older one, an absent one or a zero total does not; the table stays. */
  lemma MetaStored(e: Engine, key: Key, total: Option<u64>, contentType: Option<string>, victim: Key)
    ensures var after := UpdateMetadata(e, key, SetMeta(total, contentType), true, victim).0;
      var m, m' := View(e, key), View(after, key);
      && m'.completed == m.completed
      && (total.Some? && total.value > 0 ==> m'.total == total) && (total.None? || total.value == 0 ==> m'.total == m.total)
      && (contentType.Some? ==> m'.contentType == contentType) && (contentType.None? ==> m'.contentType == m.contentType)
      && (after == e || (key in after.disk.sidecar && after.disk.sidecar[key] == m'))
  {
    hide MetadataIsValid;
  }

  /**
   A sidecar is believed iff it is of a known version, was written for this key, its total
   is not below the file's length, its table is canonical, and every offset it promises
   lies in the file; without a file it may promise nothing.
   */
  lemma LoadMeaning(d: Disk, key: Key)
    ensures match Load(d, key)
      case Some(m) => key in d.sidecar && m == d.sidecar[key]
      case None => true
    ensures Load(d, key).Some? <==>
      && key in d.sidecar
      && var m := d.sidecar[key];
      && m.version <= 1 && m.key == Some(key) && Canonical(m.completed)
      && (m.total.Some? && key in d.data ==> |d.data[key]| <= m.total.value)
      && forall x :: Covers(m.completed, x) ==> key in d.data && x < |d.data[key]|
  {
    if key in d.sidecar {
      var t := d.sidecar[key].completed;
      forall i | 0 <= i < |t| ensures Canonical(t) ==> Covers(t, t[i].hi) { }
      if t != [] && Canonical(t) { assert Covers(t, t[0].hi); }
    }
  }

  /** An open range is accepted iff everything from its start to the end of the resource is promised; without a known total, to the end of the file. An empty resource has no range. */
  lemma OpenRangeMeaning(origin: Key -> Bytes, e: Engine, key: Key, start: u64)
    requires Coherent(origin, e) && key in e.disk.data
    ensures var total := View(e, key).total;
      var length := if total.Some? then total.value else |e.disk.data[key]|;
      && (start < length ==> (CheckRange(e, key, start, OPEN_ENDED) <==> forall x :: start <= x < length ==> Covers(View(e, key).completed, x)))
      && (length == 0 ==> !CheckRange(e, key, start, OPEN_ENDED))
  {
    ViewSound(origin, e, key);
    var total := View(e, key).total;
    var length := if total.Some? then total.value else |e.disk.data[key]|;
    if start < length { OneIntervalSuffices(View(e, key).completed, start, length - 1); }
  }

  // ----- one step -----

  /** The operation neither deletes the key, nor is cut off while deleting it, nor fails to read it in the scan. */
  predicate Spares(op: Op, key: Key)
  {
    match op
    case Delete(k, _) => k != key
    case Restart(inDelete, scan) => inDelete != Some(key) && key !in scan.unreadable
    case _ => true
  }

  /** What the key promised is still promised, and its file is still there. */
  ghost predicate Remembers(e: Engine, after: Engine, key: Key)
  {
    key in e.disk.data && View(e, key).completed != [] ==>
      key in after.disk.data && forall x :: Covers(View(e, key).completed, x) ==> Covers(View(after, key).completed, x)
  }

  /** The key's two files are the same. */
  predicate SamePair(d: Disk, d': Disk, key: Key)
  {
    && (key in d'.data <==> key in d.data) && (key in d.data ==> d'.data[key] == d.data[key])
    && (key in d'.sidecar <==> key in d.sidecar) && (key in d.sidecar ==> d'.sidecar[key] == d.sidecar[key])
  }

  lemma SamePairRemembers(origin: Key -> Bytes, e: Engine, after: Engine, key: Key)
    requires Good(origin, e) && Good(origin, after) && SamePair(e.disk, after.disk, key)
    ensures Remembers(e, after, key)
  {
    hide Good, MetadataIsValid;
    GoodIsTrusty(origin, e);
    GoodIsTrusty(origin, after);
    assert View(e, key) == View(Reloading(e.disk), key) && View(after, key) == View(Reloading(after.disk), key);
  }

  lemma UpdateSparesOthers(e: Engine, k: Key, edit: Edit, commitOk: bool, victim: Key, key: Key)
    requires k != key
    ensures SamePair(e.disk, UpdateMetadata(e, k, edit, commitOk, victim).0.disk, key)
  {
    hide EditMetadata, View;
  }

  lemma OthersSame(e: Engine, op: Op, key: Key)
    requires op.Query? || (op.Delete? && op.key != key) || ((op.Write? || op.RecordMeta?) && op.key != key)
    ensures SamePair(e.disk, Apply(e, op).disk, key)
  {
    hide Drain, FileAfter, UpdateMetadata, Outcome, Limit;
    match op
    case Write(k, start, end, stream, io) =>
      if Limit(start, end).Ok? {
        var d := Drain(stream, Limit(start, end).value, io.failAt, 0, []);
        var e1 := WithData(e, k, FileAfter(Opened(e, k), start, stream, d, io));
        if d.bytes != [] && start + |d.bytes| - 1 <= U64_MAX {
          UpdateSparesOthers(e1, k, AddRange(start, start + |d.bytes| - 1), io.commitOk, io.victim, key);
        }
      }
    case RecordMeta(k, total, contentType, commitOk, victim) => UpdateSparesOthers(e, k, SetMeta(total, contentType), commitOk, victim, key);
    case _ =>
  }

  /** The scan keeps what a query would believe. */
  lemma RestartRemembers(origin: Key -> Bytes, e: Engine, op: Op, key: Key)
    requires op.Restart? && Good(origin, e) && Good(origin, Apply(e, op)) && Spares(op, key)
    ensures Remembers(e, Apply(e, op), key)
  {
    if key in e.disk.data && View(e, key).completed != [] {
      assert View(e, key) == View(Reloading(e.disk), key) by { hide Good; GoodIsTrusty(origin, e); }
      hide Good, MetadataIsValid;
      assert Keeps(Crashed(e.disk, op.inDelete), key);
      assert SamePair(e.disk, Apply(e, op).disk, key);
      SamePairRemembers(origin, e, Apply(e, op), key);
    }
  }

  lemma MetaRemembers(e: Engine, op: Op, key: Key)
    requires op.RecordMeta? && op.key == key
    ensures Remembers(e, Apply(e, op), key)
  {
    if op.commitOk { MetaStored(e, key, op.total, op.contentType, op.victim); }
  }

  /** A longer file leaves the metadata believable while the total is true. */
  lemma GrownRemembers(origin: Key -> Bytes, e: Engine, key: Key, file: Bytes)
    requires Good(origin, e) && TrueSizes(origin, WithData(e, key, file))
    requires key in e.disk.data && |e.disk.data[key]| <= |file| && View(e, key).completed != []
    ensures View(WithData(e, key, file), key) == View(e, key)
  {
    hide Coherent;
  }

  lemma RecordRemembers(e: Engine, key: Key, lo: u64, hi: u64, commitOk: bool, victim: Key)
    requires lo <= hi && Canonical(View(e, key).completed)
    ensures var after := UpdateMetadata(e, key, AddRange(lo, hi), commitOk, victim).0;
      forall x :: Covers(View(e, key).completed, x) ==> Covers(View(after, key).completed, x)
  {
    hide Merge, MetadataIsValid;
    MergeIsUnion(View(e, key).completed, lo, hi);
  }

  lemma TornIsLonger(before: Bytes, after: Bytes, start: nat, bytes: Bytes)
    requires TornBy(before, after, start, bytes)
    ensures |before| <= |after|
  {
  }

  lemma WriteRemembers(origin: Key -> Bytes, e: Engine, op: Op, key: Key)
    requires op.Write? && op.key == key && Good(origin, e) && LegalIo(e, op) && FaithfulOp(origin, op)
    ensures Remembers(e, Apply(e, op), key)
  {
    hide Good, TrueSizes, Drain, Limit, Apply, LegalIo, UpdateMetadata, View, TornBy, Patch, Attempted, FaithfulOp;
    if key in e.disk.data && View(e, key).completed != [] && Limit(op.start, op.end).Ok? {
      var d := Drain(op.stream, Limit(op.start, op.end).value, op.io.failAt, 0, []);
      WriteShape(e, op, d);
      var file := NewFile(e, op, d);
      TornIsLonger(Opened(e, key), file, op.start, Attempted(op.stream, d));
      NewFileKeepsSizes(origin, e, op, d);
      GrownRemembers(origin, e, key, file);
      assert Canonical(View(e, key).completed) by { GoodIsCanonical(origin, e, key); }
      if Records(e, op, d) {
        RecordRemembers(WithData(e, key, file), key, op.start, op.start + |d.bytes| - 1, op.io.commitOk, op.io.victim);
        UpdateIsLocal(WithData(e, key, file), key, AddRange(op.start, op.start + |d.bytes| - 1), op.io.commitOk, op.io.victim);
      }
    } else {
      WriteRefused(e, op);
    }
  }

  lemma GoodIsCanonical(origin: Key -> Bytes, e: Engine, key: Key)
    requires Good(origin, e)
    ensures Canonical(View(e, key).completed) && Coherent(origin, e) && TidyIndex(e, key)
  {
    ViewSound(origin, e, key);
  }

  lemma StepRemembers(origin: Key -> Bytes, e: Engine, op: Op, key: Key)
    requires Good(origin, e) && LegalIo(e, op) && HonestOp(origin, op) && !LeavesStale(e, op) && Spares(op, key)
    ensures Remembers(e, Apply(e, op), key)
  {
    hide Good, Remembers, LegalIo, HonestOp, LeavesStale, Apply, SamePair;
    StepGood(origin, e, op);
    HonestIsFaithful(origin, op);
    if op.Restart? { RestartRemembers(origin, e, op, key); }
    else if op.Write? && op.key == key { WriteRemembers(origin, e, op, key); }
    else if op.RecordMeta? && op.key == key { MetaRemembers(e, op, key); }
    else { OthersSame(e, op, key); SamePairRemembers(origin, e, Apply(e, op), key); }
  }

  // ----- runs -----

  predicate AlwaysSpares(ops: seq<Op>, key: Key)
  {
    forall i :: 0 <= i < |ops| ==> Spares(ops[i], key)
  }

  ghost predicate HonestOps(origin: Key -> Bytes, ops: seq<Op>)
  {
    forall i :: 0 <= i < |ops| ==> HonestOp(origin, ops[i])
  }

  lemma RemembersCached(origin: Key -> Bytes, e: Engine, after: Engine, key: Key, start: u64, end: u64)
    requires Good(origin, e) && Good(origin, after) && Remembers(e, after, key)
    requires start <= end != OPEN_ENDED && CheckRange(e, key, start, end)
    ensures CheckRange(after, key, start, end)
  {
    hide Good, View, HasInterval;
    GoodIsCanonical(origin, e, key);
    GoodIsCanonical(origin, after, key);
    CheckRangeMeaning(origin, e, key, start, end);
    CheckRangeMeaning(origin, after, key, start, end);
    assert Covers(View(e, key).completed, start);
  }

  /** A cached range stays cached through any honest run that does not delete it: writes, failures, evictions, crashes and restarts included. */
  lemma {:induction false} CachedStaysCached(origin: Key -> Bytes, e: Engine, ops: seq<Op>, key: Key, start: u64, end: u64)
    requires Good(origin, e) && LegalRun(e, ops) && NeverStale(e, ops) && HonestOps(origin, ops) && AlwaysSpares(ops, key)
    requires start <= end != OPEN_ENDED && CheckRange(e, key, start, end)
    ensures Good(origin, Run(e, ops)) && CheckRange(Run(e, ops), key, start, end)
    decreases |ops|
  {
    if ops != [] {
      hide Good, Remembers, LegalIo, HonestOp, LeavesStale, Apply, CheckRange, Spares;
      StepGood(origin, e, ops[0]);
      StepRemembers(origin, e, ops[0], key);
      RemembersCached(origin, e, Apply(e, ops[0]), key, start, end);
      assert forall i :: 0 <= i < |ops[1..]| ==> ops[1..][i] == ops[i + 1];
      CachedStaysCached(origin, Apply(e, ops[0]), ops[1..], key, start, end);
    }
  }

  // ----- from a write to a read -----

  lemma WholeIsLongest(stream: Stream, start: u64, end: u64)
    requires Clean(stream) && InRange(start, end, |Payload(stream)|)
    ensures Longest(stream, start, end, |stream|) && stream[..|stream|] == stream
  {
    assert stream[..|stream|] == stream;
  }

  lemma UpdatedIsSeen(e: Engine, key: Key, edit: Edit, victim: Key)
    requires edit.AddRange?
    ensures var after := UpdateMetadata(e, key, edit, true, victim).0; View(after, key).completed == Recorded(after, key)
  {
    hide EditMetadata, View;
    var after := UpdateMetadata(e, key, edit, true, victim).0;
    assert key in after.index && after.index[key] == after.disk.sidecar[key];
    ViewOfIndexed(after, key);
  }

  lemma ViewOfIndexed(e: Engine, key: Key)
    requires key in e.index
    ensures View(e, key) == e.index[key]
  {
  }

  /** After a write that filled its range without a failing call, the range is cached. */
  lemma WrittenIsCached(origin: Key -> Bytes, e: Engine, op: Op)
    requires op.Write? && Good(origin, e) && Smooth(op.io) && Clean(op.stream)
    requires op.start <= op.end != OPEN_ENDED && |Payload(op.stream)| == op.end - op.start + 1
    requires LegalIo(e, op) && FaithfulOp(origin, op)
    ensures Good(origin, Apply(e, op)) && CheckRange(Apply(e, op), op.key, op.start, op.end)
  {
    hide Good, WriteEngine, LegalIo, FaithfulOp, View, UpdateMetadata, Payload, Clean, Longest, Drain, Limit, Patch;
    var key, start, end := op.key, op.start, op.end;
    WholeIsLongest(op.stream, start, end);
    GoodIsCanonical(origin, e, key);
    SmoothWrite(e, key, start, end, op.stream, op.io, |op.stream|);
    StepGood(origin, e, op);
    var after := Apply(e, op);
    LimitIsRange(start, end);
    var d := Drain(op.stream, Limit(start, end).value, None, 0, []);
    DrainTakesLongest(op.stream, start, end, |op.stream|);
    StopIsRecordable(op.stream, Limit(start, end).value, d);
    SmoothState(e, key, start, end, op.stream, op.io, d);
    UpdatedIsSeen(WithData(e, key, Patch(Opened(e, key), start, d.bytes)), key, AddRange(start, end), op.io.victim);
    GoodIsCanonical(origin, after, key);
    CheckRangeMeaning(origin, after, key, start, end);
  }

  /**
   A range that was once written whole is read back as the origin's bytes after any honest
   run that does not delete it, however many restarts it contains.
   */
  lemma WrittenIsReadBack(origin: Key -> Bytes, e: Engine, op: Op, ops: seq<Op>)
    requires op.Write? && Good(origin, e) && Smooth(op.io) && Clean(op.stream)
    requires op.start <= op.end != OPEN_ENDED && |Payload(op.stream)| == op.end - op.start + 1
    requires LegalIo(e, op) && FaithfulOp(origin, op)
    requires var e1 := Apply(e, op);
      LegalRun(e1, ops) && NeverStale(e1, ops) && HonestOps(origin, ops) && AlwaysSpares(ops, op.key)
    ensures var after := Run(Apply(e, op), ops);
      && ReadExtent(after, op.key, op.start, op.end) == Ok((op.start, op.end))
      && op.end < |origin(op.key)| && op.key in after.disk.data && op.end < |after.disk.data[op.key]|
      && after.disk.data[op.key][op.start..op.end + 1] == origin(op.key)[op.start..op.end + 1]
  {
    hide Good, Apply, LegalIo, LegalRun, NeverStale, HonestOps, AlwaysSpares, Run, ReadExtent, Believable;
    WrittenIsCached(origin, e, op);
    CachedStaysCached(origin, Apply(e, op), ops, op.key, op.start, op.end);
    var after := Run(Apply(e, op), ops);
    GoodIsBelievable(origin, after, op.key);
    CachedReadIsOrigin(origin, after, op.key, op.start, op.end);
  }

  lemma GoodIsBelievable(origin: Key -> Bytes, e: Engine, key: Key)
    requires Good(origin, e)
    ensures Believable(origin, e, key)
  {
    ViewSound(origin, e, key);
  }

  /** A delete takes the key out of the index, and off the disk as far as its unlinks work; a whole delete leaves nothing cached, and no other key notices. */
  lemma DeleteForgets(e: Engine, key: Key, outcome: DeleteOutcome, other: Key)
    requires other != key
    ensures var after := DeleteEngine(e, key, outcome);
      && key !in after.index
      && (key in after.disk.data <==> key in e.disk.data && outcome.DataStuck?)
      && (key in after.disk.sidecar <==> key in e.disk.sidecar && !outcome.BothGone?)
      && (outcome.BothGone? ==> View(after, key) == DEFAULT && forall start: u64, end: u64 :: !CheckRange(after, key, start, end))
      && SamePair(e.disk, after.disk, other) && View(after, other) == View(e, other)
  {
  }
}
