/**
 The sparse file cache of storage/disk.rs: per key a data file, a sidecar with the
 table of completed intervals, and an in-memory index of sidecars.

 What the operating system decides is an argument: which open, seek, write, sync,
 commit, unlink or scan fails, what a torn write leaves in the file, which index entry
 is evicted.
 */
module DiskEngine {
  import opened Base
  import opened IntervalTable
  import opened Ranges

  const MAX_INDEXED_KEYS: nat := 4096
  const RANGE_METADATA_VERSION: nat := 1

  datatype RangeMetadata = RangeMetadata(
    version: nat,
    completed: Table,
    key: Option<Key>,
    total: Option<u64>,
    contentType: Option<string>)

  const DEFAULT := RangeMetadata(0, [], None, None, None)

  datatype Disk = Disk(data: map<Key, Bytes>, sidecar: map<Key, RangeMetadata>)

  datatype Engine = Engine(disk: Disk, index: map<Key, RangeMetadata>)

  // ----- metadata -----

  function FileSize(d: Disk, key: Key): Option<nat>
  {
    if key in d.data then Some(|d.data[key]|) else None
  }

  predicate TotalFits(m: RangeMetadata, size: Option<nat>)
  {
    m.total.Some? && size.Some? ==> size.value <= m.total.value
  }

  predicate InFile(t: Table, size: Option<nat>)
  {
    if size.None? then t == []
    else Canonical(t) && forall i :: 0 <= i < |t| ==> t[i].hi < size.value
  }

  predicate MetadataIsValid(m: RangeMetadata, key: Key, size: Option<nat>)
  {
    && m.version <= RANGE_METADATA_VERSION
    && m.key == Some(key)
    && TotalFits(m, size)
    && InFile(m.completed, size)
  }

  function Load(d: Disk, key: Key): Option<RangeMetadata>
  {
    if key in d.sidecar && MetadataIsValid(d.sidecar[key], key, FileSize(d, key))
    then Some(d.sidecar[key]) else None
  }

  function LoadOrDefault(d: Disk, key: Key): RangeMetadata
  {
    match Load(d, key) case Some(m) => m case None => DEFAULT
  }

  /** The metadata every query is answered from. */
  function View(e: Engine, key: Key): RangeMetadata
  {
    if key in e.index then e.index[key] else LoadOrDefault(e.disk, key)
  }

  function IndexInsert(index: map<Key, RangeMetadata>, key: Key, m: RangeMetadata, victim: Key): map<Key, RangeMetadata>
  {
    if |index| >= MAX_INDEXED_KEYS && key !in index then (index - {victim})[key := m] else index[key := m]
  }

  /** with_metadata: a miss loads the sidecar and remembers it. */
  function Touch(e: Engine, key: Key, victim: Key): Engine
  {
    if key in e.index || Load(e.disk, key).None? then e
    else e.(index := IndexInsert(e.index, key, Load(e.disk, key).value, victim))
  }

  datatype Edit = AddRange(lo: u64, hi: u64) | SetMeta(total: Option<u64>, contentType: Option<string>)

  function EditMetadata(m: RangeMetadata, edit: Edit): RangeMetadata
  {
    match edit
    case AddRange(lo, hi) => m.(completed := Merge(m.completed, lo, hi))
    case SetMeta(total, contentType) =>
      m.(total := if total.Some? && total.value > 0 then total else m.total,
         contentType := if contentType.Some? then contentType else m.contentType)
  }

  function Stamp(m: RangeMetadata, key: Key): RangeMetadata
  {
    m.(key := Some(key), version := RANGE_METADATA_VERSION)
  }

  /** update_metadata: read, edit, commit the sidecar, then refresh the index. */
  function UpdateMetadata(e: Engine, key: Key, edit: Edit, commitOk: bool, victim: Key): (Engine, Result<()>)
  {
    var base := View(e, key);
    var edited := EditMetadata(base, edit);
    if edit.SetMeta? && edited == base then (e, Ok(()))
    else if !commitOk then (e, Err(Storage))
    else
      var m := Stamp(edited, key);
      (Engine(e.disk.(sidecar := e.disk.sidecar[key := m]), IndexInsert(e.index, key, m, victim)), Ok(()))
  }

  // ----- writing -----

  datatype Stop = Ended | UpstreamFault(error: Error) | Overrun | CounterOverflow | DiskFault

  datatype Drained = Drained(count: nat, bytes: Bytes, stop: Stop)

  /** The write loop from item `k` on, `acc` being written already; write_all fails at chunk `failAt`. */
  function Drain(stream: Stream, limit: Option<u64>, failAt: Option<nat>, k: nat, acc: Bytes): Drained
    requires k <= |stream|
    decreases |stream| - k
  {
    if k == |stream| then Drained(k, acc, Ended)
    else match stream[k]
      case Fault(error) => Drained(k, acc, UpstreamFault(error))
      case Chunk(bytes) =>
        if |acc| + |bytes| > U64_MAX then Drained(k, acc, CounterOverflow)
        else if limit.Some? && |acc| + |bytes| > limit.value then Drained(k, acc, Overrun)
        else if failAt == Some(k) then Drained(k, acc, DiskFault)
        else Drain(stream, limit, failAt, k + 1, acc + bytes)
  }

  /** What the operating system does to one write call. */
  datatype WriteIo = WriteIo(
    openOk: bool,
    seekOk: bool,
    failAt: Option<nat>,
    syncOk: bool,
    commitOk: bool,
    torn: Bytes,
    victim: Key)

  function Zeros(n: nat): (z: Bytes)
    ensures |z| == n && forall i :: 0 <= i < n ==> z[i] == 0
  {
    seq(n, _ => 0)
  }

  /** A positioned write into a sparse file. */
  function Patch(before: Bytes, start: nat, bytes: Bytes): (after: Bytes)
    ensures |after| == Max(|before|, start + |bytes|)
    ensures forall x :: 0 <= x < |after| ==>
      after[x] == (if start <= x < start + |bytes| then bytes[x - start] else if x < |before| then before[x] else 0)
  {
    var padded := before + Zeros(Max(0, start + |bytes| - |before|));
    padded[..start] + bytes + padded[start + |bytes|..]
  }

  /** `after` may be left by an interrupted write: each byte is old, new or an unwritten hole. */
  predicate TornBy(before: Bytes, after: Bytes, start: nat, bytes: Bytes)
  {
    && |before| <= |after| <= Max(|before|, start + |bytes|)
    && forall x :: 0 <= x < |after| ==>
         || (x < |before| && after[x] == before[x])
         || (x >= |before| && after[x] == 0)
         || (start <= x < start + |bytes| && after[x] == bytes[x - start])
  }

  function Limit(start: u64, end: u64): Result<Option<u64>>
  {
    if end == OPEN_ENDED then Ok(None)
    else match RangeLength(start, end)
      case Ok(n) => Ok(Some(n))
      case Err(error) => Err(error)
  }

  predicate Recordable(stop: Stop) { stop.Ended? || stop.UpstreamFault? || stop.Overrun? }

  /** The bytes handed to the file, including a chunk whose write failed. */
  function Attempted(stream: Stream, d: Drained): Bytes
  {
    if d.stop.DiskFault? && d.count < |stream| && stream[d.count].Chunk? then d.bytes + stream[d.count].bytes else d.bytes
  }

  function Opened(e: Engine, key: Key): Bytes
  {
    if key in e.disk.data then e.disk.data[key] else []
  }

  function WithData(e: Engine, key: Key, bytes: Bytes): Engine
  {
    e.(disk := e.disk.(data := e.disk.data[key := bytes]))
  }

  /** The stops after which the file has taken every byte it was given, so that a sync vouches for them. */
  predicate Intact(stop: Stop) { !stop.DiskFault? && !stop.CounterOverflow? }

  /** What the data file holds after the loop and the sync. */
  function FileAfter(before: Bytes, start: u64, stream: Stream, d: Drained, io: WriteIo): Bytes
  {
    if Attempted(stream, d) == [] then before
    else if io.syncOk && Intact(d.stop) then Patch(before, start, d.bytes)
    else io.torn
  }

  function Outcome(d: Drained, syncOk: bool): Result<u64>
    requires |d.bytes| <= U64_MAX
  {
    match d.stop
    case Ended => if syncOk || d.bytes == [] then Ok(|d.bytes|) else Err(Storage)
    case UpstreamFault(error) => Err(error)
    case Overrun => Err(Storage)
    case CounterOverflow => Err(Storage)
    case DiskFault => Err(Storage)
  }

  lemma {:induction false} DrainBounded(stream: Stream, limit: Option<u64>, failAt: Option<nat>, k: nat, acc: Bytes)
    requires k <= |stream| && |acc| <= U64_MAX
    ensures |Drain(stream, limit, failAt, k, acc).bytes| <= U64_MAX
    decreases |stream| - k
  {
    if k < |stream| && stream[k].Chunk? && |acc| + |stream[k].bytes| <= U64_MAX {
      DrainBounded(stream, limit, failAt, k + 1, acc + stream[k].bytes);
    }
  }

  /** The state and answer of one `write` call. */
  function WriteEngine(e: Engine, key: Key, start: u64, end: u64, stream: Stream, io: WriteIo): (Engine, Result<u64>)
  {
    match Limit(start, end)
    case Err(error) => (e, Err(error))
    case Ok(limit) =>
      if !io.openOk then (e, Err(Storage))
      else if !io.seekOk then (WithData(e, key, Opened(e, key)), Err(Storage))
      else
        var d := Drain(stream, limit, io.failAt, 0, []);
        DrainBounded(stream, limit, io.failAt, 0, []);
        var e1 := WithData(e, key, FileAfter(Opened(e, key), start, stream, d, io));
        if d.bytes != [] && Recordable(d.stop) && io.syncOk then
          var last := start + |d.bytes| - 1;
          if last > U64_MAX then (e1, Err(Storage))
          else
            var (e2, r) := UpdateMetadata(e1, key, AddRange(start, last), io.commitOk, io.victim);
            (e2, if r.Err? then Err(r.error) else Outcome(d, true))
        else (e1, Outcome(d, io.syncOk))
  }

  // ----- reading -----

  function RequestedEnd(e: Engine, key: Key, end: u64): Option<int>
  {
    if end != OPEN_ENDED then Some(end)
    else match View(e, key).total
      case Some(total) => if total == 0 then None else Some(total - 1)
      case None =>
        match FileSize(e.disk, key)
        case Some(size) => if size == 0 then None else Some(size - 1)
        case None => None
  }

  /** The metadata promises the whole range. */
  predicate Covered(e: Engine, key: Key, start: u64, end: u64)
  {
    var last := RequestedEnd(e, key, end);
    last.Some? && HasInterval(View(e, key).completed, start, last.value)
  }

  predicate CheckRange(e: Engine, key: Key, start: u64, end: u64)
  {
    Covered(e, key, start, end) && key in e.disk.data
  }

  /** The span of the data file that is streamed once it is open. */
  function OpenExtent(e: Engine, key: Key, start: u64, end: u64): Result<(u64, int)>
  {
    if key !in e.disk.data || start >= |e.disk.data[key]| then Err(Storage)
    else
      var size := |e.disk.data[key]|;
      var last := if end == OPEN_ENDED then size - 1 else Min(end, size - 1);
      match RangeLength(start, last)
      case Ok(_) => Ok((start, last))
      case Err(error) => Err(error)
  }

  /** The file span `read` streams, or its refusal. */
  function ReadExtent(e: Engine, key: Key, start: u64, end: u64): Result<(u64, int)>
  {
    if !CheckRange(e, key, start, end) then Err(Storage) else OpenExtent(e, key, start, end)
  }

  /** The same when the metadata is looked at in one state and the file opened in a later one. */
  function ReadAcross(looked: Engine, open: Engine, key: Key, start: u64, end: u64): Result<(u64, int)>
  {
    if !Covered(looked, key, start, end) then Err(Storage) else OpenExtent(open, key, start, end)
  }

  /** `items` reads `bytes` back: a prefix of them, ending in an error exactly if it is not all of them. */
  predicate ReadsBack(bytes: Bytes, items: Stream)
  {
    Payload(items) <= bytes && (Clean(items) <==> Payload(items) == bytes)
  }

  /** What happens to one `read` call once the range is covered: the file's stat, open and seek, and what is then streamed. */
  datatype ReadIo = ReadIo(opens: bool, items: Stream)

  /** The stream of an open file is its span, cut short by an error or not. */
  predicate LegalRead(e: Engine, key: Key, start: u64, end: u64, io: ReadIo)
  {
    io.opens && OpenExtent(e, key, start, end).Ok? ==>
      var (lo, hi) := OpenExtent(e, key, start, end).value;
      ReadsBack(e.disk.data[key][lo..hi + 1], io.items)
  }

  // ----- deleting and restarting -----

  datatype DeleteOutcome = BothGone | DataStuck | SidecarStuck

  /** delete: index first, then the data file, then the sidecar; a failing unlink stops it. */
  function DeleteEngine(e: Engine, key: Key, outcome: DeleteOutcome): Engine
  {
    var index := e.index - {key};
    match outcome
    case DataStuck => Engine(e.disk, index)
    case SidecarStuck => Engine(Disk(e.disk.data - {key}, e.disk.sidecar), index)
    case BothGone => Engine(Disk(e.disk.data - {key}, e.disk.sidecar - {key}), index)
  }

  /** enumerate keeps a pair when its data file exists and its sidecar is valid for it. */
  predicate Keeps(d: Disk, key: Key)
  {
    key in d.sidecar && key in d.data && MetadataIsValid(d.sidecar[key], key, FileSize(d, key))
  }

  /**
   What the start-up scan meets: pairs it never reaches, pairs it cannot read, and
   unlinks that fail. The scan ignores all of these.
   */
  datatype ScanIo = ScanIo(unscanned: set<Key>, unreadable: set<Key>, sidecarStuck: set<Key>, dataStuck: set<Key>)

  predicate Discards(d: Disk, io: ScanIo, key: Key)
  {
    key in d.sidecar && key !in io.unscanned && (key in io.unreadable || !Keeps(d, key))
  }

  function Recover(d: Disk, io: ScanIo): Disk
  {
    Disk(map k | k in d.data && (!Discards(d, io, k) || k in io.dataStuck) :: d.data[k],
         map k | k in d.sidecar && (!Discards(d, io, k) || k in io.sidecarStuck) :: d.sidecar[k])
  }

  /** The disk a crash leaves; `inDelete` names a delete it cut in half. */
  function Crashed(d: Disk, inDelete: Option<Key>): Disk
  {
    if inDelete.Some? then d.(data := d.data - {inDelete.value}) else d
  }

  // ----- runs -----

  datatype Op =
    | Write(key: Key, start: u64, end: u64, stream: Stream, io: WriteIo)
    | RecordMeta(key: Key, total: Option<u64>, contentType: Option<string>, commitOk: bool, victim: Key)
    | Query(key: Key, victim: Key)
    | Delete(key: Key, outcome: DeleteOutcome)
    /** A crash, an empty index and the start-up scan. */
    | Restart(inDelete: Option<Key>, scan: ScanIo)

  function Apply(e: Engine, op: Op): Engine
  {
    match op
    case Write(key, start, end, stream, io) => WriteEngine(e, key, start, end, stream, io).0
    case RecordMeta(key, total, contentType, commitOk, victim) =>
      UpdateMetadata(e, key, SetMeta(total, contentType), commitOk, victim).0
    case Query(key, victim) => Touch(e, key, victim)
    case Delete(key, outcome) => DeleteEngine(e, key, outcome)
    case Restart(inDelete, scan) => Engine(Recover(Crashed(e.disk, inDelete), scan), map[])
  }

  const EMPTY := Engine(Disk(map[], map[]), map[])

  function Run(e: Engine, ops: seq<Op>): Engine
    decreases |ops|
  {
    if ops == [] then e else Run(Apply(e, ops[0]), ops[1..])
  }

  /** The file system may only tear a write as `TornBy` allows. */
  predicate LegalIo(e: Engine, op: Op)
  {
    op.Write? && Limit(op.start, op.end).Ok? ==>
      var d := Drain(op.stream, Limit(op.start, op.end).value, op.io.failAt, 0, []);
      TornBy(Opened(e, op.key), op.io.torn, op.start, Attempted(op.stream, d))
  }

  predicate LegalRun(e: Engine, ops: seq<Op>)
    decreases |ops|
  {
    ops == [] || (LegalIo(e, ops[0]) && LegalRun(Apply(e, ops[0]), ops[1..]))
  }
}
