/** What `write` owes its caller, in terms of the declared range `start..=end` and the stream alone. */
module WriteContract {
  import opened Base
  import opened IntervalTable
  import opened DiskEngine
  import opened WriteAccounting

  /** `n` bytes from `start` on stay inside the declared range. */
  predicate InRange(start: u64, end: u64, n: nat)
  {
    n <= U64_MAX && (end != OPEN_ENDED ==> n <= end - start + 1)
  }

  /** The first `n` items are error-free and stay inside the range. */
  ghost predicate Storable(stream: Stream, start: u64, end: u64, n: nat)
  {
    n <= |stream| && Clean(stream[..n]) && InRange(start, end, |Payload(stream[..n])|)
  }

  /** No longer prefix could be stored. */
  ghost predicate Longest(stream: Stream, start: u64, end: u64, n: nat)
  {
    Storable(stream, start, end, n) && forall m: nat :: Storable(stream, start, end, m) ==> m <= n
  }

  /** A backward range is refused; any other limits the write to exactly its own bytes. */
  lemma LimitIsRange(start: u64, end: u64)
    ensures end < start ==> Limit(start, end) == Err(InvalidRange)
    ensures start <= end ==> Limit(start, end).Ok? && forall n: nat :: Fits(n, Limit(start, end).value) <==> InRange(start, end, n)
  {
  }

  /** While the disk works, the loop takes the longest prefix. */
  lemma DrainTakesLongest(stream: Stream, start: u64, end: u64, n: nat)
    requires start <= end && Longest(stream, start, end, n)
    ensures var d := Drain(stream, Limit(start, end).value, None, 0, []);
      && d.count == n && d.bytes == Payload(stream[..n]) && StopsRight(stream, Limit(start, end).value, None, d)
  {
    hide Drain, Limit, InRange;
    LimitIsRange(start, end);
    var limit := Limit(start, end).value;
    var d := Drain(stream, limit, None, 0, []);
    DrainStops(stream, limit, None, 0, []);
    DrainIsLongest(stream, limit, n);
    assert Storable(stream, start, end, d.count);
  }

  /** There is always a longest prefix: the one the loop takes while the disk works. */
  lemma LongestExists(stream: Stream, start: u64, end: u64) returns (n: nat)
    requires start <= end
    ensures Longest(stream, start, end, n)
  {
    hide Drain, Limit, InRange;
    LimitIsRange(start, end);
    var limit := Limit(start, end).value;
    n := Drain(stream, limit, None, 0, []).count;
    DrainStops(stream, limit, None, 0, []);
    forall m: nat | Storable(stream, start, end, m) ensures m <= n { DrainIsLongest(stream, limit, m); }
  }

  // ----- nothing outside the range -----

  /** Of the key's file and table, a write changes nothing outside `start..=end`. */
  ghost predicate StaysInRange(e: Engine, after: Engine, key: Key, start: u64, end: u64)
  {
    && (key in after.disk.data ==> |after.disk.data[key]| <= Max(|Opened(e, key)|, end + 1))
    && (forall x :: x < start || x > end ==>
         && (0 <= x < |Opened(e, key)| ==> key in after.disk.data && x < |after.disk.data[key]| && after.disk.data[key][x] == Opened(e, key)[x])
         && (Covers(Recorded(after, key), x) ==> Covers(Recorded(e, key), x) || Covers(View(e, key).completed, x)))
    && after.disk.sidecar - {key} == e.disk.sidecar - {key} && after.disk.data - {key} == e.disk.data - {key}
  }

  lemma AttemptedInRange(stream: Stream, start: u64, end: u64, failAt: Option<nat>)
    requires start <= end
    ensures var d := Drain(stream, Limit(start, end).value, failAt, 0, []);
      InRange(start, end, |d.bytes|) && InRange(start, end, |Attempted(stream, d)|)
  {
    hide Drain, Limit, InRange;
    LimitIsRange(start, end);
    DrainStops(stream, Limit(start, end).value, failAt, 0, []);
  }

  /** The file may be `file` after the write. */
  ghost predicate FileInRange(before: Bytes, file: Bytes, start: u64, end: u64)
  {
    && |file| <= Max(|before|, end + 1)
    && forall x :: (x < start || x > end) && 0 <= x < |before| ==> x < |file| && file[x] == before[x]
  }

  lemma TornOutside(before: Bytes, after: Bytes, start: u64, end: u64, bytes: Bytes)
    requires start <= end != OPEN_ENDED && |bytes| <= end - start + 1 && TornBy(before, after, start, bytes)
    ensures FileInRange(before, after, start, end)
  {
  }

  /** What the index holds for the key is a canonical table, as every table the program builds or accepts. */
  predicate TidyIndex(e: Engine, key: Key) { key in e.index ==> Canonical(e.index[key].completed) }

  /** Where the table that a write extends comes from. */
  lemma BaseTable(e: Engine, key: Key, file: Bytes)
    requires TidyIndex(e, key)
    ensures var base := View(WithData(e, key, file), key).completed;
      Canonical(base) && (base == View(e, key).completed || base == Recorded(e, key) || base == [])
  {
  }

  lemma RecordInRange(e: Engine, grown: Engine, key: Key, lo: u64, hi: u64, commitOk: bool, victim: Key, x: int)
    requires lo <= hi && !(lo <= x <= hi) && grown.disk.sidecar == e.disk.sidecar
    requires var base := View(grown, key).completed;
      Canonical(base) && (base == View(e, key).completed || base == Recorded(e, key) || base == [])
    ensures var after := UpdateMetadata(grown, key, AddRange(lo, hi), commitOk, victim).0;
      Covers(Recorded(after, key), x) ==> Covers(Recorded(e, key), x) || Covers(View(e, key).completed, x)
  {
    hide Merge, View;
    MergeIsUnion(View(grown, key).completed, lo, hi);
  }

  lemma UpdateIsLocal(e: Engine, key: Key, edit: Edit, commitOk: bool, victim: Key)
    ensures var after := UpdateMetadata(e, key, edit, commitOk, victim).0;
      after.disk.data == e.disk.data && after.disk.sidecar - {key} == e.disk.sidecar - {key}
  {
    hide EditMetadata, View;
  }

  lemma GrownStays(e: Engine, key: Key, file: Bytes, start: u64, end: u64)
    requires FileInRange(Opened(e, key), file, start, end)
    ensures StaysInRange(e, WithData(e, key, file), key, start, end)
    ensures StaysInRange(e, e, key, start, end)
  {
    hide View;
  }

  lemma RecordedStays(e: Engine, key: Key, file: Bytes, start: u64, end: u64, hi: u64, commitOk: bool, victim: Key)
    requires FileInRange(Opened(e, key), file, start, end) && start <= hi <= end
    requires TidyIndex(e, key)
    ensures StaysInRange(e, UpdateMetadata(WithData(e, key, file), key, AddRange(start, hi), commitOk, victim).0, key, start, end)
  {
    hide UpdateMetadata, View, FileInRange;
    var grown := WithData(e, key, file);
    var after := UpdateMetadata(grown, key, AddRange(start, hi), commitOk, victim).0;
    GrownStays(e, key, file, start, end);
    BaseTable(e, key, file);
    UpdateIsLocal(grown, key, AddRange(start, hi), commitOk, victim);
    forall x | x < start || x > end ensures Covers(Recorded(after, key), x) ==> Covers(Recorded(e, key), x) || Covers(View(e, key).completed, x) {
      RecordInRange(e, grown, key, start, hi, commitOk, victim, x);
    }
  }

  /** Whatever fails, a write to a closed range grows the file at most to its end and neither changes nor records a byte outside it. */
  lemma WriteStaysInRange(e: Engine, op: Op)
    requires op.Write? && op.start <= op.end != OPEN_ENDED && LegalIo(e, op)
    requires TidyIndex(e, op.key)
    ensures StaysInRange(e, Apply(e, op), op.key, op.start, op.end)
  {
    hide Drain, Limit, Apply, LegalIo, UpdateMetadata, View, TornBy, Patch, Attempted, StaysInRange, FileInRange;
    var key, start, end, io := op.key, op.start, op.end, op.io;
    LimitIsRange(start, end);
    var d := Drain(op.stream, Limit(start, end).value, io.failAt, 0, []);
    AttemptedInRange(op.stream, start, end, io.failAt);
    WriteShape(e, op, d);
    var file := NewFile(e, op, d);
    TornOutside(Opened(e, key), file, start, end, Attempted(op.stream, d));
    GrownStays(e, key, file, start, end);
    if Records(e, op, d) { RecordedStays(e, key, file, start, end, start + |d.bytes| - 1, io.commitOk, io.victim); }
  }

  // ----- the answer -----

  /** No chunk before the end of the stream hits a failing write. */
  predicate DiskTakes(stream: Stream, failAt: Option<nat>) { failAt.None? || failAt.value >= |stream| }

  /** When the loop reaches the end of the stream. */
  lemma DrainEnds(stream: Stream, limit: Option<u64>, failAt: Option<nat>)
    ensures var d := Drain(stream, limit, failAt, 0, []);
      && (d.stop.Ended? <==> Clean(stream) && Fits(|Payload(stream)|, limit) && DiskTakes(stream, failAt))
      && (d.stop.Ended? ==> d.bytes == Payload(stream))
  {
    hide Drain;
    var d := Drain(stream, limit, failAt, 0, []);
    DrainStops(stream, limit, failAt, 0, []);
    DrainPasses(stream, limit, failAt);
    assert stream[..|stream|] == stream;
    if d.count < |stream| && Clean(stream) {
      var m := d.count + 1;
      assert stream[..m] == stream[..d.count] + [stream[d.count]];
      PayloadSnoc(stream[..d.count], stream[d.count]);
      PayloadPrefix(stream, m);
    }
  }

  /** The loop does not get past a chunk whose write fails. */
  lemma DrainPasses(stream: Stream, limit: Option<u64>, failAt: Option<nat>)
    ensures failAt.Some? ==> Drain(stream, limit, failAt, 0, []).count <= failAt.value || failAt.value > |stream|
  {
    if failAt.Some? { DrainStopsAt(stream, limit, failAt.value, 0, []); }
  }

  lemma {:induction false} DrainStopsAt(stream: Stream, limit: Option<u64>, at: nat, k: nat, acc: Bytes)
    requires k <= |stream| && k <= at
    ensures Drain(stream, limit, Some(at), k, acc).count <= at
    decreases |stream| - k
  {
    if k < |stream| && stream[k].Chunk? && k < at { DrainStopsAt(stream, limit, at, k + 1, acc + stream[k].bytes); }
  }

  /** A write succeeds iff the range is ordered, the whole stream is error-free and inside it, and no step fails; it then reports the length of the stream, and otherwise a storage error or the stream's own. */
  lemma WriteAnswer(e: Engine, key: Key, start: u64, end: u64, stream: Stream, io: WriteIo)
    ensures var r, n := WriteEngine(e, key, start, end, stream, io).1, |Payload(stream)|;
      && (r.Ok? <==>
           && start <= end && Clean(stream) && InRange(start, end, n)
           && io.openOk && io.seekOk && DiskTakes(stream, io.failAt)
           && (n == 0 || (io.syncOk && io.commitOk && start + n - 1 <= U64_MAX)))
      && (r.Ok? ==> r.value == n)
      && (end < start ==> r == Err(InvalidRange))
      && (start <= end && r.Err? ==> r.error == Storage || Fault(r.error) in stream)
  {
    hide Drain, Limit, InRange, Fits, FileAfter, View, Merge;
    LimitIsRange(start, end);
    if start <= end {
      DrainEnds(stream, Limit(start, end).value, io.failAt);
      DrainStops(stream, Limit(start, end).value, io.failAt, 0, []);
    }
  }

  // ----- what is stored -----

  predicate Smooth(io: WriteIo) { io.openOk && io.seekOk && io.failAt.None? && io.syncOk && io.commitOk }

  /** The chunk after the first `n` items would overflow the byte counter. */
  predicate Overflows(stream: Stream, n: nat)
  {
    n < |stream| && stream[n].Chunk? && |Payload(stream[..n])| + |stream[n].bytes| > U64_MAX
  }

  /** Why a write that nothing fails stopped after `n` items. */
  function StoppedBy(stream: Stream, n: nat): Result<u64>
    requires n <= |stream| && |Payload(stream[..n])| <= U64_MAX
  {
    if n == |stream| then Ok(|Payload(stream[..n])|)
    else match stream[n]
      case Fault(error) => Err(error)
      case Chunk(_) => Err(Storage)
  }

  /**
   When no call fails, exactly the longest error-free prefix of whole chunks that fits the
   declared range is in the file and in the table, and the answer says why it ends there.
   Nothing is recorded when the byte counter would overflow.
   */
  lemma SmoothWrite(e: Engine, key: Key, start: u64, end: u64, stream: Stream, io: WriteIo, n: nat)
    requires start <= end && Smooth(io) && Longest(stream, start, end, n) && !Overflows(stream, n)
    requires TidyIndex(e, key)
    ensures var bytes := Payload(stream[..n]);
      var (after, r) := WriteEngine(e, key, start, end, stream, io);
      && |bytes| <= U64_MAX
      && after.disk.data == e.disk.data[key := if bytes == [] then Opened(e, key) else Patch(Opened(e, key), start, bytes)]
      && (bytes == [] || start + |bytes| - 1 > U64_MAX ==> after.disk.sidecar == e.disk.sidecar)
      && (bytes == [] || start + |bytes| - 1 <= U64_MAX ==> r == StoppedBy(stream, n))
      && (bytes != [] && start + |bytes| - 1 <= U64_MAX ==>
           var base := View(WithData(e, key, Patch(Opened(e, key), start, bytes)), key).completed;
           forall x :: Covers(Recorded(after, key), x) <==> Covers(base, x) || start <= x < start + |bytes|)
  {
    hide Drain, Limit, InRange, View, Patch, UpdateMetadata, Payload, Longest;
    LimitIsRange(start, end);
    StorableFits(stream, start, end, n);
    var bytes := Payload(stream[..n]);
    DrainTakesLongest(stream, start, end, n);
    var d := Drain(stream, Limit(start, end).value, None, 0, []);
    assert Recordable(d.stop) by { StopIsRecordable(stream, Limit(start, end).value, d); }
    SmoothState(e, key, start, end, stream, io, d);
    var grown := WithData(e, key, Patch(Opened(e, key), start, bytes));
    BaseTable(e, key, Patch(Opened(e, key), start, bytes));
    if bytes != [] && start + |bytes| - 1 <= U64_MAX {
      RecordAdds(grown, key, start, start + |bytes| - 1, io.victim);
    }
  }

  lemma StorableFits(stream: Stream, start: u64, end: u64, n: nat)
    requires Longest(stream, start, end, n)
    ensures n <= |stream| && |Payload(stream[..n])| <= U64_MAX
  {
  }

  lemma StopIsRecordable(stream: Stream, limit: Option<u64>, d: Drained)
    requires StopsRight(stream, limit, None, d) && !Overflows(stream, d.count)
    ensures Recordable(d.stop) && Outcome(d, true) == StoppedBy(stream, d.count)
  {
    hide Payload;
  }

  /** The state and answer of a write once the drained prefix is known. */
  lemma SmoothState(e: Engine, key: Key, start: u64, end: u64, stream: Stream, io: WriteIo, d: Drained)
    requires Limit(start, end).Ok? && Smooth(io) && d == Drain(stream, Limit(start, end).value, None, 0, [])
    requires Recordable(d.stop) && |d.bytes| <= U64_MAX
    ensures var (after, r) := WriteEngine(e, key, start, end, stream, io);
      var grown := WithData(e, key, Patch(Opened(e, key), start, d.bytes));
      if d.bytes == [] then after == WithData(e, key, Opened(e, key)) && r == Outcome(d, true)
      else if start + |d.bytes| - 1 > U64_MAX then after == grown && r.Err?
      else after == UpdateMetadata(grown, key, AddRange(start, start + |d.bytes| - 1), true, io.victim).0 && r == Outcome(d, true)
  {
    hide Drain, Limit, View, Patch, Outcome, EditMetadata, IndexInsert;
  }
}
