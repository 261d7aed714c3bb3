/** What one `write` call may claim: the exact prefix rule of storage/disk.rs. */
module WriteAccounting {
  import opened Base
  import opened IntervalTable
  import opened DiskEngine

  predicate Fits(n: nat, limit: Option<u64>)
  {
    n <= U64_MAX && (limit.Some? ==> n <= limit.value)
  }

  /** The loop stops at a whole-chunk prefix, and the stop says why the next item was not taken. */
  ghost predicate StopsRight(stream: Stream, limit: Option<u64>, failAt: Option<nat>, d: Drained)
  {
    && d.count <= |stream| && Clean(stream[..d.count]) && d.bytes == Payload(stream[..d.count])
    && Fits(|d.bytes|, limit)
    && (d.stop.Ended? <==> d.count == |stream|)
    && (d.count < |stream| ==>
         match stream[d.count]
         case Fault(error) => d.stop == UpstreamFault(error)
         case Chunk(bytes) =>
           if |d.bytes| + |bytes| > U64_MAX then d.stop == CounterOverflow
           else if !Fits(|d.bytes| + |bytes|, limit) then d.stop == Overrun
           else d.stop == DiskFault && failAt == Some(d.count))
  }

  lemma {:induction false} DrainStops(stream: Stream, limit: Option<u64>, failAt: Option<nat>, k: nat, acc: Bytes)
    requires k <= |stream| && Clean(stream[..k]) && acc == Payload(stream[..k]) && Fits(|acc|, limit)
    ensures StopsRight(stream, limit, failAt, Drain(stream, limit, failAt, k, acc))
    decreases |stream| - k
  {
    if k == |stream| {
      assert stream[..k] == stream;
    } else if stream[k].Chunk? && Fits(|acc| + |stream[k].bytes|, limit) && failAt != Some(k) {
      assert stream[..k + 1] == stream[..k] + [stream[k]];
      PayloadSnoc(stream[..k], stream[k]);
      DrainStops(stream, limit, failAt, k + 1, acc + stream[k].bytes);
    }
  }

  /** The prefix taken when the disk does not fail is the longest clean prefix that fits. */
  lemma DrainIsLongest(stream: Stream, limit: Option<u64>, n: nat)
    requires n <= |stream| && Clean(stream[..n]) && Fits(|Payload(stream[..n])|, limit)
    ensures n <= Drain(stream, limit, None, 0, []).count
  {
    DrainStops(stream, limit, None, 0, []);
    var d := Drain(stream, limit, None, 0, []);
    if d.count < n {
      assert stream[..n][d.count] == stream[d.count];
      var m := d.count + 1;
      assert stream[..m] == stream[..d.count] + [stream[d.count]];
      PayloadSnoc(stream[..d.count], stream[d.count]);
      assert stream[..n][..m] == stream[..m];
      PayloadPrefix(stream[..n], m);
    }
  }

  /** `completed` as the sidecar on disk has it. */
  function Recorded(e: Engine, key: Key): Table
  {
    if key in e.disk.sidecar then e.disk.sidecar[key].completed else []
  }

  /** The write keeps its prefix, even one cut short by upstream: the file took every byte, the data is synced, the sidecar committed. */
  predicate Claims(start: u64, d: Drained, io: WriteIo)
  {
    d.bytes != [] && Intact(d.stop) && io.syncOk && io.commitOk && start + |d.bytes| - 1 <= U64_MAX
  }

  /** The engine once the prefix is in the data file and before the sidecar is touched. */
  function Grown(e: Engine, key: Key, start: u64, d: Drained): Engine
  {
    WithData(e, key, Patch(Opened(e, key), start, d.bytes))
  }

  // ----- the shape of a write -----

  lemma TornSame(before: Bytes, start: nat, bytes: Bytes)
    ensures TornBy(before, before, start, bytes)
  {
  }

  lemma PatchIsTorn(before: Bytes, start: nat, bytes: Bytes)
    ensures bytes != [] ==> TornBy(before, Patch(before, start, bytes), start, bytes)
  {
  }

  /** The data file after a write that could open it. */
  function NewFile(e: Engine, op: Op, d: Drained): Bytes
    requires op.Write?
  {
    if op.io.seekOk then FileAfter(Opened(e, op.key), op.start, op.stream, d, op.io) else Opened(e, op.key)
  }

  /** The new file holds the whole prefix, and recording it can be tried. */
  predicate Records(e: Engine, op: Op, d: Drained)
    requires op.Write?
  {
    d.bytes != [] && op.start + |d.bytes| - 1 <= U64_MAX && NewFile(e, op, d) == Patch(Opened(e, op.key), op.start, d.bytes)
  }

  lemma WriteRefused(e: Engine, op: Op)
    requires op.Write?
    ensures Limit(op.start, op.end).Err? ==> Apply(e, op) == e
  {
  }

  /** A write changes nothing, or the data file as a torn write may, or that and then records the prefix that is in the file. */
  lemma WriteShape(e: Engine, op: Op, d: Drained)
    requires op.Write? && LegalIo(e, op) && Limit(op.start, op.end).Ok?
    requires d == Drain(op.stream, Limit(op.start, op.end).value, op.io.failAt, 0, [])
    ensures TornBy(Opened(e, op.key), NewFile(e, op, d), op.start, Attempted(op.stream, d))
    ensures Attempted(op.stream, d) == [] ==> NewFile(e, op, d) == Opened(e, op.key)
    ensures var after, grown := Apply(e, op), WithData(e, op.key, NewFile(e, op, d));
      after == e || after == grown ||
      (Records(e, op, d) && grown == Grown(e, op.key, op.start, d) &&
       after == UpdateMetadata(grown, op.key, AddRange(op.start, op.start + |d.bytes| - 1), op.io.commitOk, op.io.victim).0)
  {
    hide Drain, UpdateMetadata, TornBy, Patch;
    TornSame(Opened(e, op.key), op.start, Attempted(op.stream, d));
    PatchIsTorn(Opened(e, op.key), op.start, d.bytes);
  }

  /** A claiming write is the data write followed by one metadata update. */
  lemma ClaimedState(e: Engine, key: Key, start: u64, end: u64, stream: Stream, io: WriteIo, d: Drained)
    requires Limit(start, end).Ok? && io.openOk && io.seekOk
    requires d == Drain(stream, Limit(start, end).value, io.failAt, 0, []) && Claims(start, d, io)
    ensures WriteEngine(e, key, start, end, stream, io).0 ==
      UpdateMetadata(Grown(e, key, start, d), key, AddRange(start, start + |d.bytes| - 1), true, io.victim).0
  {
    hide UpdateMetadata, Drain, Patch, Outcome;
  }

  /** Recording an interval adds exactly its offsets to the key's table and changes no other key. */
  lemma RecordAdds(e: Engine, key: Key, lo: u64, hi: u64, victim: Key)
    requires lo <= hi
    ensures var after := UpdateMetadata(e, key, AddRange(lo, hi), true, victim).0;
      && after.disk.data == e.disk.data
      && after.disk.sidecar - {key} == e.disk.sidecar - {key}
      && (Canonical(View(e, key).completed) ==>
            forall x :: Covers(Recorded(after, key), x) <==> Covers(View(e, key).completed, x) || lo <= x <= hi)
  {
    var base := View(e, key).completed;
    var after := UpdateMetadata(e, key, AddRange(lo, hi), true, victim).0;
    assert Recorded(after, key) == Merge(base, lo, hi);
    if Canonical(base) { MergeIsUnion(base, lo, hi); }
  }

  /** A claiming write adds exactly the offsets of the prefix the loop took, and nothing else changes. */
  lemma ClaimedWrite(e: Engine, key: Key, start: u64, end: u64, stream: Stream, io: WriteIo, d: Drained)
    requires Limit(start, end).Ok? && io.openOk && io.seekOk
    requires d == Drain(stream, Limit(start, end).value, io.failAt, 0, []) && Claims(start, d, io)
    ensures StopsRight(stream, Limit(start, end).value, io.failAt, d)
    ensures var after := WriteEngine(e, key, start, end, stream, io).0;
      var base := View(Grown(e, key, start, d), key).completed;
      && after.disk.data == Grown(e, key, start, d).disk.data
      && after.disk.sidecar - {key} == e.disk.sidecar - {key}
      && (Canonical(base) ==>
            forall x :: Covers(Recorded(after, key), x) <==> Covers(base, x) || start <= x < start + |d.bytes|)
  {
    hide WriteEngine, UpdateMetadata, View, Drain;
    DrainStops(stream, Limit(start, end).value, io.failAt, 0, []);
    ClaimedState(e, key, start, end, stream, io, d);
    RecordAdds(Grown(e, key, start, d), key, start, start + |d.bytes| - 1, io.victim);
  }

  /** Any other write leaves every sidecar, and every other key's file, as they were. */
  lemma UnclaimedWrite(e: Engine, key: Key, start: u64, end: u64, stream: Stream, io: WriteIo)
    requires Limit(start, end).Ok? && io.openOk && io.seekOk ==>
      !Claims(start, Drain(stream, Limit(start, end).value, io.failAt, 0, []), io)
    ensures var after := WriteEngine(e, key, start, end, stream, io).0;
      after.disk.sidecar == e.disk.sidecar && after.disk.data - {key} == e.disk.data - {key}
  {
  }
}
