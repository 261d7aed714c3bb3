/** The engine as an object: the methods of storage/disk.rs, each proved against DiskEngine. */
module DiskStorageImpl {
  import opened Base
  import opened IntervalTable
  import opened Ranges
  import opened DiskEngine
  import opened WriteAccounting
  import opened WriteContract

  lemma KeepsIsLocal(d0: Disk, d: Disk, key: Key)
    requires key in d0.sidecar && key in d.sidecar && d0.sidecar[key] == d.sidecar[key]
    requires (key in d0.data <==> key in d.data) && (key in d.data ==> d0.data[key] == d.data[key])
    ensures Keeps(d0, key) <==> Load(d, key).Some? && key in d.data
  {
  }

  lemma SliceJoin(file: Bytes, a: nat, b: nat, c: nat)
    requires a <= b <= c <= |file|
    ensures file[a..c] == file[a..b] + file[b..c]
  {
  }

  lemma WriteIsSafe(e: Engine, key: Key, start: u64, end: u64, stream: Stream, io: WriteIo)
    ensures var (after, r) := WriteEngine(e, key, start, end, stream, io);
      && (r.Ok? ==> Clean(stream) && InRange(start, end, |Payload(stream)|) && r.value == |Payload(stream)|)
      && (start <= end != OPEN_ENDED && LegalIo(e, Write(key, start, end, stream, io)) && TidyIndex(e, key) ==>
           StaysInRange(e, after, key, start, end))
  {
    hide WriteEngine, LegalIo, StaysInRange, TidyIndex, InRange;
    WriteAnswer(e, key, start, end, stream, io);
    var op := Write(key, start, end, stream, io);
    assert Apply(e, op) == WriteEngine(e, key, start, end, stream, io).0;
    if start <= end != OPEN_ENDED && LegalIo(e, op) && TidyIndex(e, key) { WriteStaysInRange(e, op); }
  }

  class DiskStorage {
    var data: map<Key, Bytes>
    var sidecar: map<Key, RangeMetadata>
    var index: map<Key, RangeMetadata>

    function State(): Engine
      reads this
    {
      Engine(Disk(data, sidecar), index)
    }

    constructor (disk: Disk)
      ensures State() == Engine(disk, map[])
    {
      data, sidecar, index := disk.data, disk.sidecar, map[];
    }

    method LoadMetadata(key: Key) returns (m: Option<RangeMetadata>)
      ensures m == Load(State().disk, key)
    {
      if key !in sidecar { return None; }
      var found := sidecar[key];
      if found.version > RANGE_METADATA_VERSION || found.key != Some(key) { return None; }
      if key !in data {
        return if found.completed == [] then Some(found) else None;
      }
      if found.total.Some? && |data[key]| > found.total.value { return None; }
      var fits := TableFits(found.completed, |data[key]|);
      return if fits then Some(found) else None;
    }

    method WithMetadata(key: Key, victim: Key) returns (m: RangeMetadata)
      modifies this`index
      ensures m == View(old(State()), key)
      ensures State() == Touch(old(State()), key, victim)
      ensures View(State(), key) == View(old(State()), key)
    {
      if key in index { return index[key]; }
      var loaded := LoadMetadata(key);
      if loaded.None? { return DEFAULT; }
      m := loaded.value;
      index := IndexInsert(index, key, m, victim);
    }

    method Update(key: Key, edit: Edit, commitOk: bool, victim: Key) returns (r: Result<()>)
      modifies this`sidecar, this`index
      ensures (State(), r) == UpdateMetadata(old(State()), key, edit, commitOk, victim)
    {
      var base: RangeMetadata;
      if key in index {
        base := index[key];
      } else {
        var loaded := LoadMetadata(key);
        base := if loaded.Some? then loaded.value else DEFAULT;
      }
      var edited := EditMetadata(base, edit);
      if edit.SetMeta? && edited == base { return Ok(()); }
      if !commitOk { return Err(Storage); }
      var m := Stamp(edited, key);
      sidecar := sidecar[key := m];
      index := IndexInsert(index, key, m, victim);
      return Ok(());
    }

    /** The streaming write: drain, sync, then record the prefix. */
    method Write(key: Key, start: u64, end: u64, stream: Stream, io: WriteIo) returns (r: Result<u64>)
      modifies this
      ensures (State(), r) == WriteEngine(old(State()), key, start, end, stream, io)
      ensures r.Ok? ==> Clean(stream) && InRange(start, end, |Payload(stream)|) && r.value == |Payload(stream)|
      ensures start <= end != OPEN_ENDED && LegalIo(old(State()), Op.Write(key, start, end, stream, io)) && TidyIndex(old(State()), key) ==>
        StaysInRange(old(State()), State(), key, start, end)
    {
      WriteIsSafe(State(), key, start, end, stream, io);
      hide UpdateMetadata, FileAfter, Drain, Outcome, LegalIo, StaysInRange, TidyIndex, InRange, Payload, Clean;
      var limit := Limit(start, end);
      if limit.Err? { return Err(limit.error); }
      if !io.openOk { return Err(Storage); }
      var file := if key in data then data[key] else [];
      if !io.seekOk { data := data[key := file]; return Err(Storage); }
      var d := DrainLoop(stream, limit.value, io.failAt);
      data := data[key := FileAfter(file, start, stream, d, io)];
      if d.bytes != [] && Recordable(d.stop) && io.syncOk {
        if start + |d.bytes| - 1 > U64_MAX { return Err(Storage); }
        var recorded := Update(key, AddRange(start, start + |d.bytes| - 1), io.commitOk, io.victim);
        return if recorded.Err? then Err(recorded.error) else Outcome(d, true);
      }
      return Outcome(d, io.syncOk);
    }

    static method DrainLoop(stream: Stream, limit: Option<u64>, failAt: Option<nat>) returns (d: Drained)
      ensures d == Drain(stream, limit, failAt, 0, [])
      ensures StopsRight(stream, limit, failAt, d)
    {
      DrainStops(stream, limit, failAt, 0, []);
      var k, written := 0, [];
      while k < |stream|
        invariant 0 <= k <= |stream|
        invariant Drain(stream, limit, failAt, 0, []) == Drain(stream, limit, failAt, k, written)
      {
        if stream[k].Fault? { return Drained(k, written, UpstreamFault(stream[k].error)); }
        var chunk := stream[k].bytes;
        if |written| + |chunk| > U64_MAX { return Drained(k, written, CounterOverflow); }
        if limit.Some? && |written| + |chunk| > limit.value { return Drained(k, written, Overrun); }
        if failAt == Some(k) { return Drained(k, written, DiskFault); }
        written := written + chunk;
        k := k + 1;
      }
      return Drained(k, written, Ended);
    }

    method Check(key: Key, start: u64, end: u64, victim: Key) returns (covered: bool)
      modifies this`index
      ensures covered == CheckRange(old(State()), key, start, end) && (covered ==> key in data)
      ensures State() == Touch(old(State()), key, victim) && State().disk == old(State()).disk
    {
      var last: int := end;
      if end == OPEN_ENDED {
        var known := WithMetadata(key, victim);
        if known.total.Some? {
          if known.total.value == 0 { return false; }
          last := known.total.value - 1;
        } else {
          if key !in data || |data[key]| == 0 { return false; }
          last := |data[key]| - 1;
        }
      }
      var m := WithMetadata(key, victim);
      covered := HasInterval(m.completed, start, last) && key in data;
    }

    /** The check and then the read of the open file. `took(k)` is what the k-th read of the file returns. */
    method Read(key: Key, start: u64, end: u64, chunkSize: nat, opens: bool, took: nat -> Option<nat>, victim: Key) returns (r: Result<Stream>)
      modifies this`index
      ensures State().disk == old(State()).disk
      ensures r.Ok? <==> ReadExtent(old(State()), key, start, end).Ok? && opens
      ensures r.Ok? ==>
        && LegalRead(old(State()), key, start, end, ReadIo(opens, r.value))
        && (chunkSize > 0 && (forall k: nat :: took(k).Some? && took(k).value > 0) ==> Clean(r.value))
    {
      hide CheckRange, Touch, ReadsBack;
      var covered := Check(key, start, end, victim);
      if !covered { return Err(Storage); }
      r := OpenAndRead(key, start, end, chunkSize, opens, took);
    }

    /** What `read` does after its check, on the state it then meets: the span of the open file, sequentially. */
    method OpenAndRead(key: Key, start: u64, end: u64, chunkSize: nat, opens: bool, took: nat -> Option<nat>) returns (r: Result<Stream>)
      ensures r.Ok? <==> OpenExtent(State(), key, start, end).Ok? && opens
      ensures r.Ok? ==>
        && LegalRead(State(), key, start, end, ReadIo(opens, r.value))
        && (chunkSize > 0 && (forall k: nat :: took(k).Some? && took(k).value > 0) ==> Clean(r.value))
    {
      hide ReadsBack;
      if !opens || key !in data { return Err(Storage); }
      var size := |data[key]|;
      if start >= size { return Err(Storage); }
      var last := if end == OPEN_ENDED then size - 1 else Min(end, size - 1);
      var length := RangeLength(start, last);
      if length.Err? { return Err(length.error); }
      var items := ReadLoop(data[key], start, length.value, chunkSize, took);
      return Ok(items);
    }

    /** One seek, then sequential reads of at most `chunkSize` bytes: short, failing, or empty at a truncated end. */
    static method ReadLoop(file: Bytes, start: nat, total: nat, chunkSize: nat, took: nat -> Option<nat>) returns (items: Stream)
      requires 0 < total && start + total <= |file|
      ensures ReadsBack(file[start..start + total], items)
      ensures chunkSize > 0 && (forall k: nat :: took(k).Some? && took(k).value > 0) ==> Clean(items)
    {
      var count, k := 0, 0;
      items := [];
      while count < total
        invariant 0 <= count <= total
        invariant Clean(items) && Payload(items) == file[start..start + count]
        decreases total - count
      {
        SliceJoin(file, start, start + count, start + total);
        var read := took(k);
        var n := if read.Some? then Min(read.value, Min(chunkSize, total - count)) else 0;
        if n == 0 {
          PayloadSnoc(items, Fault(Storage));
          assert (items + [Fault(Storage)])[|items|].Fault?;
          return items + [Fault(Storage)];
        }
        var chunk := file[start + count..start + count + n];
        PayloadSnoc(items, Chunk(chunk));
        SliceJoin(file, start, start + count, start + count + n);
        items := items + [Chunk(chunk)];
        count, k := count + n, k + 1;
      }
    }

    method Remove(key: Key, outcome: DeleteOutcome) returns (r: Result<()>)
      modifies this
      ensures State() == DeleteEngine(old(State()), key, outcome)
      ensures r.Ok? <==> outcome.BothGone?
    {
      index := index - {key};
      if outcome.DataStuck? { return Err(Storage); }
      data := data - {key};
      if outcome.SidecarStuck? { return Err(Storage); }
      sidecar := sidecar - {key};
      return Ok(());
    }

    /**
     The start-up scan: discarded pairs are unlinked as far as that works, and every
     kept key it reaches is listed once with its file length. `aborts` tells whether
     reading a directory failed.
     */
    method Enumerate(io: ScanIo, aborts: bool) returns (r: Result<seq<(Key, nat)>>)
      modifies this`data, this`sidecar
      ensures State().disk == Recover(old(State()).disk, io)
      ensures r.Err? <==> aborts
      ensures r.Ok? ==> Listed(old(State()).disk, io, {}, r.value)
    {
      ghost var d0 := State().disk;
      var todo := sidecar.Keys - io.unscanned;
      var entries: seq<(Key, nat)> := [];
      assert Scanned(d0, State().disk, io, todo, entries);
      hide Load, Keeps, Scanned, Listed, Recover, Discards;
      while todo != {}
        invariant Scanned(d0, State().disk, io, todo, entries)
        decreases todo
      {
        var key :| key in todo;
        ScanStep(d0, State().disk, io, todo, entries, key);
        var loaded := LoadMetadata(key);
        if key in io.unreadable || loaded.None? || key !in data {
          if key !in io.sidecarStuck { sidecar := sidecar - {key}; }
          if key !in io.dataStuck { data := data - {key}; }
        } else {
          entries := entries + [(key, |data[key]|)];
        }
        todo := todo - {key};
      }
      ScanDone(d0, State().disk, io, entries);
      return if aborts then Err(Storage) else Ok(entries);
    }
  }

  /** Of `d0`'s pairs, those outside `todo` have been scanned; `d` is what is left on disk. */
  ghost predicate Scanned(d0: Disk, d: Disk, io: ScanIo, todo: set<Key>, entries: seq<(Key, nat)>)
  {
    && todo <= d0.sidecar.Keys - io.unscanned
    && (forall k :: k in d.sidecar <==> k in d0.sidecar && (k in todo || !Discards(d0, io, k) || k in io.sidecarStuck))
    && (forall k :: k in d.data <==> k in d0.data && (k in todo || !Discards(d0, io, k) || k in io.dataStuck))
    && (forall k :: k in d.sidecar ==> d.sidecar[k] == d0.sidecar[k])
    && (forall k :: k in d.data ==> d.data[k] == d0.data[k])
    && Listed(d0, io, todo, entries)
  }

  predicate Kept(d0: Disk, io: ScanIo, key: Key)
  {
    key in d0.sidecar && key in d0.data && key !in io.unscanned && !Discards(d0, io, key)
  }

  /** `entries` lists each kept pair outside `todo` once, with the length of its data file. */
  ghost predicate Listed(d0: Disk, io: ScanIo, todo: set<Key>, entries: seq<(Key, nat)>)
  {
    && (forall i, j :: 0 <= i < j < |entries| ==> entries[i].0 != entries[j].0)
    && (forall i :: 0 <= i < |entries| ==>
         Kept(d0, io, entries[i].0) && entries[i].0 !in todo && entries[i].1 == |d0.data[entries[i].0]|)
    && (forall k :: Kept(d0, io, k) && k !in todo ==> exists i :: 0 <= i < |entries| && entries[i].0 == k)
  }

  /** The pair after the scan of one key that is discarded. */
  function Discarded(d: Disk, io: ScanIo, key: Key): Disk
  {
    Disk(if key in io.dataStuck then d.data else d.data - {key}, if key in io.sidecarStuck then d.sidecar else d.sidecar - {key})
  }

  lemma ScanStep(d0: Disk, d: Disk, io: ScanIo, todo: set<Key>, entries: seq<(Key, nat)>, key: Key)
    requires Scanned(d0, d, io, todo, entries) && key in todo
    ensures if key in io.unreadable || Load(d, key).None? || key !in d.data then Scanned(d0, Discarded(d, io, key), io, todo - {key}, entries)
      else Scanned(d0, d, io, todo - {key}, entries + [(key, |d.data[key]|)])
  {
    KeepsIsLocal(d0, d, key);
    assert Discards(d0, io, key) <==> key in io.unreadable || Load(d, key).None? || key !in d.data;
    hide Load, Keeps, Discards;
    if !Discards(d0, io, key) { ListedSnoc(d0, io, todo, entries, key); }
    else { ListedSkip(d0, io, todo, entries, key); }
  }

  lemma ListedSkip(d0: Disk, io: ScanIo, todo: set<Key>, entries: seq<(Key, nat)>, key: Key)
    requires Listed(d0, io, todo, entries) && Discards(d0, io, key)
    ensures Listed(d0, io, todo - {key}, entries)
  {
    hide Discards;
  }

  lemma ListedSnoc(d0: Disk, io: ScanIo, todo: set<Key>, entries: seq<(Key, nat)>, key: Key)
    requires Listed(d0, io, todo, entries) && key in todo && Kept(d0, io, key)
    ensures Listed(d0, io, todo - {key}, entries + [(key, |d0.data[key]|)])
  {
    hide Discards;
    var more := entries + [(key, |d0.data[key]|)];
    assert more[|entries|].0 == key;
    forall k | Kept(d0, io, k) && k !in todo - {key} ensures exists i :: 0 <= i < |more| && more[i].0 == k {
      if k != key {
        var i :| 0 <= i < |entries| && entries[i].0 == k;
        assert more[i].0 == k;
      }
    }
  }

  lemma ScanDone(d0: Disk, d: Disk, io: ScanIo, entries: seq<(Key, nat)>)
    requires Scanned(d0, d, io, {}, entries)
    ensures d == Recover(d0, io) && Listed(d0, io, {}, entries)
  {
    hide Discards, Listed;
    assert d.data == Recover(d0, io).data && d.sidecar == Recover(d0, io).sidecar;
  }
}
