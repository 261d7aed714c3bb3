/**
 Concurrent readers of one P2P source (p2p.rs, cached_verified_provider): memory cache,
 per-piece lock, second look, disk, provider. Each lock-protected access is one step.
 */
module PieceFetch {
  import opened Base
  import opened PieceCache
  import opened PieceManifest

  datatype Reader =
    | Missed(index: nat)
    | Holding(index: nat)
    | Fetching(index: nat)
    | Got(index: nat, piece: Bytes)

  /** What happened, in order: a verified provider fetch, its loss to a disk error, an eviction. */
  datatype Event = Fetched(index: nat) | Dropped(index: nat) | Evicted(index: nat)

  datatype State = State(cache: Cache, readers: map<nat, Reader>, log: seq<Event>)

  const INIT := State(EMPTY_CACHE, map[], [])

  datatype Step =
    | Start(reader: nat, index: nat)
    | Lock(reader: nat)
    /** The second look; on a miss the disk may hold a verified copy. */
    | Look(reader: nat, onDisk: Option<Bytes>)
    | ProviderErr(reader: nat)
    | ProviderOk(reader: nat, piece: Bytes)
    /** Writing the piece to disk and trimming the disk cache, which may fail; then the memory cache. */
    | Store(reader: nat, diskOk: bool)

  predicate HasLock(p: Reader) { !p.Missed? }

  predicate Locked(s: State, index: nat)
  {
    exists r :: r in s.readers && HasLock(s.readers[r]) && s.readers[r].index == index
  }

  function EvictEvents(order: seq<nat>): (log: seq<Event>)
    ensures |log| == |order| && forall i :: 0 <= i < |order| ==> log[i] == Evicted(order[i])
  {
    seq(|order|, i requires 0 <= i < |order| => Evicted(order[i]))
  }

  /** Inserting a piece, with the evictions it causes on record. */
  function Keep(s: State, index: nat, piece: Bytes): State
  {
    if !Cacheable(s.cache, index, piece) then s
    else s.(cache := Insert(s.cache, index, piece),
            log := s.log + EvictEvents(s.cache.order[..Evictions(s.cache, |piece|)]))
  }

  /** Steps that are not enabled leave the state alone. A verified piece is never longer than a piece may be. */
  function Next(s: State, step: Step): State
  {
    var r := step.reader;
    match step
    case Start(_, index) =>
      if r in s.readers || index in s.cache.entries then s else s.(readers := s.readers[r := Missed(index)])
    case Lock(_) =>
      if r in s.readers && s.readers[r].Missed? && !Locked(s, s.readers[r].index) then
        s.(readers := s.readers[r := Holding(s.readers[r].index)])
      else s
    case Look(_, onDisk) =>
      if !(r in s.readers && s.readers[r].Holding?) then s
      else
        var index := s.readers[r].index;
        if index in s.cache.entries then s.(readers := s.readers - {r})
        else if onDisk.Some? && |onDisk.value| <= MAX_P2P_PIECE_BYTES then Keep(s, index, onDisk.value).(readers := s.readers - {r})
        else s.(readers := s.readers[r := Fetching(index)])
    case ProviderErr(_) =>
      if r in s.readers && s.readers[r].Fetching? then s.(readers := s.readers - {r}) else s
    case ProviderOk(_, piece) =>
      if r in s.readers && s.readers[r].Fetching? && |piece| <= MAX_P2P_PIECE_BYTES then
        s.(readers := s.readers[r := Got(s.readers[r].index, piece)], log := s.log + [Fetched(s.readers[r].index)])
      else s
    case Store(_, diskOk) =>
      if !(r in s.readers && s.readers[r].Got?) then s
      else
        var Got(index, piece) := s.readers[r];
        if diskOk then Keep(s, index, piece).(readers := s.readers - {r})
        else s.(readers := s.readers - {r}, log := s.log + [Dropped(index)])
  }

  function Exec(s: State, steps: seq<Step>): State
    decreases |steps|
  {
    if steps == [] then s else Exec(Next(s, steps[0]), steps[1..])
  }

  /** The latest fetch of the piece has been neither dropped nor evicted. */
  predicate Fresh(log: seq<Event>, index: nat)
  {
    if log == [] then false
    else
      var last := log[|log| - 1];
      if last.index == index then last.Fetched? else Fresh(log[..|log| - 1], index)
  }

  /** No fetch of a piece whose previous fetch is still fresh. */
  predicate Separated(log: seq<Event>)
  {
    log == [] || (
      var init := log[..|log| - 1];
      Separated(init) && (log[|log| - 1].Fetched? ==> !Fresh(init, log[|log| - 1].index)))
  }

  lemma FreshSnoc(log: seq<Event>, e: Event, index: nat)
    ensures Fresh(log + [e], index) <==> if e.index == index then e.Fetched? else Fresh(log, index)
    ensures Separated(log + [e]) <==> Separated(log) && (e.Fetched? ==> !Fresh(log, e.index))
  {
    assert (log + [e])[..|log|] == log;
  }

  lemma {:induction false} FreshEvictions(log: seq<Event>, gone: seq<nat>, index: nat)
    ensures Fresh(log + EvictEvents(gone), index) <==> index !in gone && Fresh(log, index)
    ensures Separated(log + EvictEvents(gone)) <==> Separated(log)
  {
    if gone == [] {
      assert log + EvictEvents(gone) == log;
    } else {
      var n := |gone| - 1;
      FreshEvictions(log, gone[..n], index);
      FreshSnoc(log + EvictEvents(gone[..n]), Evicted(gone[n]), index);
      assert log + EvictEvents(gone) == log + EvictEvents(gone[..n]) + [Evicted(gone[n])];
      assert gone == gone[..n] + [gone[n]];
    }
  }

  // ----- invariant -----

  ghost predicate OneHolder(s: State)
  {
    forall a, b :: a in s.readers && b in s.readers && a != b && HasLock(s.readers[a]) && HasLock(s.readers[b]) ==>
      s.readers[a].index != s.readers[b].index
  }

  /** Whoever fetches a piece holds its lock and the cache does not have it. */
  ghost predicate FetchersMissed(s: State)
  {
    forall r :: r in s.readers && (s.readers[r].Fetching? || s.readers[r].Got?) ==> s.readers[r].index !in s.cache.entries
  }

  ghost predicate PiecesFit(s: State)
  {
    forall r :: r in s.readers && s.readers[r].Got? ==> |s.readers[r].piece| <= MAX_P2P_PIECE_BYTES
  }

  /** A fresh piece is in the cache or on its way there. */
  ghost predicate FreshIsCached(s: State)
  {
    forall index :: Fresh(s.log, index) ==>
      index in s.cache.entries || exists r :: r in s.readers && s.readers[r].Got? && s.readers[r].index == index
  }

  ghost predicate Inv(s: State)
  {
    Valid(s.cache) && OneHolder(s) && FetchersMissed(s) && PiecesFit(s) && FreshIsCached(s) && Separated(s.log)
  }

  /** What keeping a piece does to cache and log, seen by one other piece. */
  lemma KeepEffect(s: State, index: nat, piece: Bytes, other: nat)
    requires Valid(s.cache) && index !in s.cache.entries && |piece| <= MAX_P2P_PIECE_BYTES
    ensures var s' := Keep(s, index, piece);
      && Valid(s'.cache) && index in s'.cache.entries
      && (other != index && other in s'.cache.entries ==> other in s.cache.entries)
      && (Fresh(s'.log, other) ==> Fresh(s.log, other))
      && (Fresh(s'.log, other) && other in s.cache.entries ==> other in s'.cache.entries)
      && (Separated(s'.log) <==> Separated(s.log))
  {
    hide Valid, Insert, Fresh, Separated, Evictions;
    InsertValid(s.cache, index, piece);
    InsertKeeps(s.cache, index, piece);
    var n := Evictions(s.cache, |piece|);
    FreshEvictions(s.log, s.cache.order[..n], other);
    KeysAreOrder(s.cache);
    assert s.cache.order == s.cache.order[..n] + s.cache.order[n..];
  }

  lemma KeepInv(s: State, r: nat, index: nat, piece: Bytes)
    requires Inv(s) && index !in s.cache.entries && |piece| <= MAX_P2P_PIECE_BYTES
    requires r in s.readers && HasLock(s.readers[r]) && s.readers[r].index == index
    ensures Inv(Keep(s, index, piece).(readers := s.readers - {r}))
  {
    hide Valid, Fresh, Separated, Keep;
    var k := Keep(s, index, piece);
    KeepEffect(s, index, piece, 0);
    var s' := k.(readers := s.readers - {r});
    forall i | Fresh(s'.log, i)
      ensures i in s'.cache.entries || exists q :: q in s'.readers && s'.readers[q].Got? && s'.readers[q].index == i
    {
      KeepEffect(s, index, piece, i);
      if i !in s.cache.entries {
        var q :| q in s.readers && s.readers[q].Got? && s.readers[q].index == i;
        if q != r { assert s'.readers[q] == s.readers[q]; }
      }
    }
    forall q | q in s'.readers && (s'.readers[q].Fetching? || s'.readers[q].Got?) ensures s'.readers[q].index !in s'.cache.entries {
      KeepEffect(s, index, piece, s.readers[q].index);
    }
  }

  lemma StoreInv(s: State, r: nat, diskOk: bool)
    requires Inv(s)
    ensures Inv(Next(s, Store(r, diskOk)))
  {
    if r in s.readers && s.readers[r].Got? {
      var Got(index, piece) := s.readers[r];
      if diskOk { KeepInv(s, r, index, piece); }
      else { LogInv(s, r, Dropped(index)); }
    }
  }

  /** A fetch that completes, or one that is dropped: the log grows and the reader moves on. */
  lemma LogInv(s: State, r: nat, e: Event)
    requires Inv(s) && r in s.readers && s.readers[r].index == e.index
    requires e.Dropped? && s.readers[r].Got?
    ensures Inv(s.(readers := s.readers - {r}, log := s.log + [e]))
  {
    hide Valid, Fresh, Separated;
    var s' := s.(readers := s.readers - {r}, log := s.log + [e]);
    FreshSnoc(s.log, e, e.index);
    forall i | Fresh(s'.log, i)
      ensures i in s'.cache.entries || exists q :: q in s'.readers && s'.readers[q].Got? && s'.readers[q].index == i
    {
      FreshSnoc(s.log, e, i);
      if i !in s.cache.entries {
        var q :| q in s.readers && s.readers[q].Got? && s.readers[q].index == i;
        assert s'.readers[q] == s.readers[q];
      }
    }
  }

  lemma FetchInv(s: State, r: nat, piece: Bytes)
    requires Inv(s)
    ensures Inv(Next(s, ProviderOk(r, piece)))
  {
    hide Valid, Fresh, Separated;
    if r in s.readers && s.readers[r].Fetching? && |piece| <= MAX_P2P_PIECE_BYTES {
      var index := s.readers[r].index;
      var s' := Next(s, ProviderOk(r, piece));
      FreshSnoc(s.log, Fetched(index), index);
      assert !Fresh(s.log, index);
      forall i | Fresh(s'.log, i)
        ensures i in s'.cache.entries || exists q :: q in s'.readers && s'.readers[q].Got? && s'.readers[q].index == i
      {
        FreshSnoc(s.log, Fetched(index), i);
        if i == index {
          assert s'.readers[r].Got?;
        } else if i !in s.cache.entries {
          var q :| q in s.readers && s.readers[q].Got? && s.readers[q].index == i;
          assert s'.readers[q] == s.readers[q];
        }
      }
    }
  }

  lemma FreshStays(s: State, s': State)
    requires FreshIsCached(s) && s'.cache == s.cache && s'.log == s.log
    requires forall q :: q in s.readers && s.readers[q].Got? ==> q in s'.readers && s'.readers[q] == s.readers[q]
    ensures FreshIsCached(s')
  {
  }

  lemma QuietInv(s: State, step: Step)
    requires Inv(s) && (step.Start? || step.Lock? || step.ProviderErr?)
    ensures Inv(Next(s, step))
  {
    hide Valid, Fresh, Separated;
    FreshStays(s, Next(s, step));
  }

  lemma LookInv(s: State, r: nat, onDisk: Option<Bytes>)
    requires Inv(s)
    ensures Inv(Next(s, Look(r, onDisk)))
  {
    hide Valid, Fresh, Separated, Keep, FreshIsCached;
    if r in s.readers && s.readers[r].Holding? {
      var index := s.readers[r].index;
      if index !in s.cache.entries && onDisk.Some? && |onDisk.value| <= MAX_P2P_PIECE_BYTES {
        KeepInv(s, r, index, onDisk.value);
      } else {
        FreshStays(s, Next(s, Look(r, onDisk)));
      }
    }
  }

  lemma StepInv(s: State, step: Step)
    requires Inv(s)
    ensures Inv(Next(s, step))
  {
    hide Inv, Next;
    match step
    case Start(_, _) => QuietInv(s, step);
    case Lock(_) => QuietInv(s, step);
    case ProviderErr(_) => QuietInv(s, step);
    case Look(r, onDisk) => LookInv(s, r, onDisk);
    case ProviderOk(r, piece) => FetchInv(s, r, piece);
    case Store(r, diskOk) => StoreInv(s, r, diskOk);
  }

  lemma {:induction false} ExecInv(s: State, steps: seq<Step>)
    requires Inv(s)
    ensures Inv(Exec(s, steps))
    decreases |steps|
  {
    hide Inv, Next;
    if steps != [] {
      StepInv(s, steps[0]);
      ExecInv(Next(s, steps[0]), steps[1..]);
    }
  }

  lemma {:induction false} FreshSince(log: seq<Event>, a: nat)
    requires a < |log| && log[a].Fetched?
    ensures Fresh(log, log[a].index) || exists c :: a < c < |log| && log[c].index == log[a].index
  {
    var n := |log| - 1;
    if a < n && log[n].index != log[a].index {
      FreshSince(log[..n], a);
      if !Fresh(log[..n], log[a].index) {
        var c :| a < c < n && log[..n][c].index == log[a].index;
        assert log[c] == log[..n][c];
      }
    }
  }

  /** Between two fetches of a piece lies an eviction of it, or the first was lost to a disk error. */
  lemma {:induction false} SeparatedMeans(log: seq<Event>, a: nat, b: nat)
    requires Separated(log) && a < b < |log| && log[a].Fetched? && log[b] == log[a]
    ensures exists c :: a < c < b && log[c].index == log[a].index && !log[c].Fetched?
    decreases |log|
  {
    var n := |log| - 1;
    var init := log[..n];
    if b < n {
      SeparatedMeans(init, a, b);
      var c :| a < c < b && init[c].index == init[a].index && !init[c].Fetched?;
      assert log[c] == init[c];
    } else {
      FreshSince(init, a);
      var c :| a < c < n && init[c].index == init[a].index;
      assert log[c] == init[c];
      if init[c].Fetched? {
        SeparatedMeans(init, a, c);
        var d :| a < d < c && init[d].index == init[a].index && !init[d].Fetched?;
        assert log[d] == init[d];
      }
    }
  }

  lemma InitInv()
    ensures Inv(INIT)
  {
    assert Size(map[], []) == 0;
  }

  /** For any number of concurrent readers: no second provider fetch of a piece that is still cached or about to be. */
  lemma FetchedOncePerEviction(steps: seq<Step>, a: nat, b: nat)
    ensures var log := Exec(INIT, steps).log;
      a < b < |log| && log[a].Fetched? && log[b] == log[a] ==>
        exists c :: a < c < b && (log[c] == Evicted(log[a].index) || log[c] == Dropped(log[a].index))
  {
    hide Exec, Valid;
    InitInv();
    ExecInv(INIT, steps);
    var log := Exec(INIT, steps).log;
    if a < b < |log| && log[a].Fetched? && log[b] == log[a] {
      SeparatedMeans(log, a, b);
    }
  }

  /**
   What each step does for its reader: a cached piece needs no lock, a missed one is looked
   for under its lock by one reader at a time, a second look that finds it or a fetch that
   fails ends the read, and nothing but a fetch, its loss or an insertion touches log and cache.
   */
  lemma ReaderSteps(s: State, r: nat, index: nat, onDisk: Option<Bytes>)
    requires Inv(s)
    ensures r !in s.readers ==>
      Next(s, Start(r, index)) == if index in s.cache.entries then s else s.(readers := s.readers[r := Missed(index)])
    ensures r in s.readers && s.readers[r].Missed? ==>
      var i := s.readers[r].index;
      Next(s, Lock(r)) == if exists q :: q in s.readers && !s.readers[q].Missed? && s.readers[q].index == i then s else s.(readers := s.readers[r := Holding(i)])
    ensures r in s.readers && s.readers[r].Holding? ==>
      var i, s' := s.readers[r].index, Next(s, Look(r, onDisk));
      && (i in s.cache.entries ==> s' == s.(readers := s.readers - {r}))
      && (i !in s.cache.entries && onDisk.None? ==> s' == s.(readers := s.readers[r := Fetching(i)]))
      && (i !in s.cache.entries && onDisk.Some? && |onDisk.value| <= MAX_P2P_PIECE_BYTES ==>
           r !in s'.readers && i in s'.cache.entries && s'.cache.entries[i] == onDisk.value && Fetched(i) !in s'.log[|s.log|..])
    ensures r in s.readers && s.readers[r].Fetching? ==> Next(s, ProviderErr(r)) == s.(readers := s.readers - {r})
    ensures r in s.readers && s.readers[r].Got? ==>
      var Got(i, piece) := s.readers[r];
      && r !in Next(s, Store(r, true)).readers && i in Next(s, Store(r, true)).cache.entries && Next(s, Store(r, true)).cache.entries[i] == piece
      && Next(s, Store(r, false)) == s.(readers := s.readers - {r}, log := s.log + [Dropped(i)])
  {
    hide Valid, Fresh, Separated, Insert, Evictions;
    if r in s.readers && s.readers[r].Holding? && onDisk.Some? && |onDisk.value| <= MAX_P2P_PIECE_BYTES && s.readers[r].index !in s.cache.entries {
      InsertKeeps(s.cache, s.readers[r].index, onDisk.value);
      KeptLog(s, s.readers[r].index, onDisk.value);
    }
    if r in s.readers && s.readers[r].Got? { InsertKeeps(s.cache, s.readers[r].index, s.readers[r].piece); }
  }

  lemma KeptLog(s: State, index: nat, piece: Bytes)
    ensures s.log <= Keep(s, index, piece).log && Fetched(index) !in Keep(s, index, piece).log[|s.log|..]
  {
    hide Insert, Cacheable;
    if Cacheable(s.cache, index, piece) {
      assert Keep(s, index, piece).log[|s.log|..] == EvictEvents(s.cache.order[..Evictions(s.cache, |piece|)]);
    }
  }

  /** A fetched piece ends up in the memory cache exactly when the disk step works. */
  lemma StoreCachesIffDiskOk(s: State, r: nat, diskOk: bool)
    requires Inv(s) && r in s.readers && s.readers[r].Got?
    ensures s.readers[r].index in Next(s, Store(r, diskOk)).cache.entries <==> diskOk
  {
  }

  lemma {:induction false} NoDrops(s: State, steps: seq<Step>)
    requires forall i :: 0 <= i < |steps| && steps[i].Store? ==> steps[i].diskOk
    requires forall k :: 0 <= k < |s.log| ==> !s.log[k].Dropped?
    ensures forall k :: 0 <= k < |Exec(s, steps).log| ==> !Exec(s, steps).log[k].Dropped?
    decreases |steps|
  {
    if steps != [] {
      hide Insert, Evictions, Locked;
      assert forall i :: 0 <= i < |steps[1..]| ==> steps[1..][i] == steps[i + 1];
      NoDrops(Next(s, steps[0]), steps[1..]);
    }
  }

  /** While the disk works, two provider fetches of a piece are separated by its eviction. */
  lemma HealthyDiskFetchesOncePerEviction(steps: seq<Step>, a: nat, b: nat)
    requires forall i :: 0 <= i < |steps| && steps[i].Store? ==> steps[i].diskOk
    ensures var log := Exec(INIT, steps).log;
      a < b < |log| && log[a].Fetched? && log[b] == log[a] ==> exists c :: a < c < b && log[c] == Evicted(log[a].index)
  {
    hide Exec;
    NoDrops(INIT, steps);
    FetchedOncePerEviction(steps, a, b);
  }

  // ----- what a disk error costs -----

  /** From `s`, `more` leads to another fetch of the piece with no eviction of it on the way. */
  ghost predicate Refetches(s: State, more: seq<Step>, index: nat)
  {
    var log := Exec(s, more).log;
    exists b :: |s.log| <= b < |log| && log[b] == Fetched(index) && Evicted(index) !in log[|s.log|..b]
  }

  /** A reader that comes back for a lost piece. */
  function ComeBack(r: nat, index: nat, piece: Bytes): seq<Step>
  {
    [Start(r, index), Lock(r), Look(r, None), ProviderOk(r, piece)]
  }

  /** In every reachable state a lost piece can be fetched again at once: the log gains nothing but the loss and the fetch. */
  lemma DiskErrorRefetches(s: State, r: nat)
    requires Inv(s) && r in s.readers && s.readers[r].Got?
    ensures var Got(index, piece) := s.readers[r];
      Exec(Next(s, Store(r, false)), ComeBack(r, index, piece)).log == s.log + [Dropped(index), Fetched(index)]
  {
    hide Valid, Fresh, Separated;
    var Got(index, piece) := s.readers[r];
    var s0 := Next(s, Store(r, false));
    var round := ComeBack(r, index, piece);
    var s1 := Next(s0, round[0]);
    assert s1 == s0.(readers := s0.readers[r := Missed(index)]);
    assert !Locked(s1, index);
    var s2 := Next(s1, round[1]);
    assert s2 == s0.(readers := s0.readers[r := Holding(index)]);
    var s3 := Next(s2, round[2]);
    assert s3 == s0.(readers := s0.readers[r := Fetching(index)]);
    ExecFour(s0, round);
    assert s.log + [Dropped(index)] + [Fetched(index)] == s.log + [Dropped(index), Fetched(index)];
  }

  lemma ExecFour(s: State, round: seq<Step>)
    requires |round| == 4
    ensures Exec(s, round) == Next(Next(Next(Next(s, round[0]), round[1]), round[2]), round[3])
  {
    hide Next;
    var a, b, c := round[1..], round[2..], round[3..];
    assert a[1..] == b && b[1..] == c && c[1..] == [];
    var s1 := Next(s, round[0]);
    var s2 := Next(s1, a[0]);
    assert Exec(s2, b) == Exec(Next(s2, b[0]), c);
    assert Exec(Next(s2, b[0]), c) == Next(Next(s2, b[0]), c[0]);
  }

  /** Since log position `n` the piece was evicted, or it is cached and was neither fetched nor lost. */
  ghost predicate Settled(s: State, index: nat, n: nat)
  {
    n <= |s.log| && forall b :: n <= b <= |s.log| && Evicted(index) !in s.log[n..b] ==>
      Fetched(index) !in s.log[n..b] && (b == |s.log| ==> index in s.cache.entries)
  }

  lemma SplitLog(log: seq<Event>, more: seq<Event>, n: nat, b: nat, e: Event)
    requires log <= more && n <= |log| && n <= b <= |more|
    ensures b <= |log| ==> more[n..b] == log[n..b]
    ensures b > |log| ==> (e in more[n..b] <==> e in log[n..] || e in more[|log|..b])
    ensures b > |log| && e !in more[|log|..] ==> e !in more[|log|..b]
  {
    var added := more[|log|..];
    assert more == log + added;
    if b <= |log| {
      assert (log + added)[n..b] == log[n..b];
    } else {
      assert (log + added)[n..b] == log[n..] + added[..b - |log|];
      assert (log + added)[|log|..b] == added[..b - |log|];
    }
  }

  lemma StepSettled(s: State, step: Step, index: nat, n: nat)
    requires Inv(s) && Settled(s, index, n)
    ensures Settled(Next(s, step), index, n)
  {
    hide Next, Inv;
    var s' := Next(s, step);
    StepLog(s, step, index);
    forall b | n <= b <= |s'.log| && Evicted(index) !in s'.log[n..b]
      ensures Fetched(index) !in s'.log[n..b] && (b == |s'.log| ==> index in s'.cache.entries)
    {
      SplitLog(s.log, s'.log, n, b, Evicted(index));
      SplitLog(s.log, s'.log, n, b, Fetched(index));
      assert s.log[n..|s.log|] == s.log[n..] && s'.log[|s.log|..|s'.log|] == s'.log[|s.log|..];
    }
  }

  /** A cached piece leaves the cache only with its eviction on record. */
  lemma KeepLog(s: State, index: nat, piece: Bytes, other: nat)
    requires Valid(s.cache) && other in s.cache.entries
    ensures var s' := Keep(s, index, piece);
      && s.log <= s'.log && Fetched(other) !in s'.log[|s.log|..]
      && (Evicted(other) !in s'.log[|s.log|..] ==> other in s'.cache.entries)
  {
    hide Valid, Insert, Evictions;
    if Cacheable(s.cache, index, piece) {
      InsertKeeps(s.cache, index, piece);
      KeysAreOrder(s.cache);
      var n := Evictions(s.cache, |piece|);
      hide Cacheable;
      assert Keep(s, index, piece).log[|s.log|..] == EvictEvents(s.cache.order[..n]);
      OnRecord(s.cache.order, n, other);
    }
  }

  lemma OnRecord(order: seq<nat>, n: nat, index: nat)
    requires n <= |order| && index in order
    ensures index in order[n..] || Evicted(index) in EvictEvents(order[..n])
    ensures Fetched(index) !in EvictEvents(order[..n])
  {
    var i :| 0 <= i < |order| && order[i] == index;
    if i < n { assert EvictEvents(order[..n])[i] == Evicted(index); } else { assert order[n..][i - n] == index; }
  }

  /** What one step adds to the log, for a piece that is cached before it. */
  lemma StepLog(s: State, step: Step, index: nat)
    requires Inv(s)
    ensures var s' := Next(s, step);
      && s.log <= s'.log
      && (index in s.cache.entries ==>
           && Fetched(index) !in s'.log[|s.log|..]
           && (Evicted(index) !in s'.log[|s.log|..] ==> index in s'.cache.entries))
  {
    hide Keep, Valid, Fresh, Separated, Locked;
    var r := step.reader;
    KeepGrows(s, step);
    if index in s.cache.entries && r in s.readers {
      if step.Store? && s.readers[r].Got? { KeepLog(s, s.readers[r].index, s.readers[r].piece, index); }
      if step.Look? && step.onDisk.Some? { KeepLog(s, s.readers[r].index, step.onDisk.value, index); }
    }
  }

  lemma KeepGrows(s: State, step: Step)
    ensures s.log <= Next(s, step).log
  {
    hide Insert, Evictions, Locked;
  }

  lemma {:induction false} ExecSettled(s: State, more: seq<Step>, index: nat, n: nat)
    requires Inv(s) && Settled(s, index, n)
    ensures Settled(Exec(s, more), index, n)
    decreases |more|
  {
    hide Inv, Next, Settled;
    if more != [] {
      StepInv(s, more[0]);
      StepSettled(s, more[0], index, n);
      ExecSettled(Next(s, more[0]), more[1..], index, n);
    }
  }

  /**
   The exact condition, in every reachable state: after a provider fetch the piece can be
   fetched again without having been evicted iff the disk step of the first fetch fails.
   */
  lemma RefetchIffDiskFails(steps: seq<Step>, r: nat, diskOk: bool)
    ensures var s := Exec(INIT, steps);
      r in s.readers && s.readers[r].Got? ==>
        ((exists more: seq<Step> :: Refetches(Next(s, Store(r, diskOk)), more, s.readers[r].index)) <==> !diskOk)
  {
    InitInv();
    ExecInv(INIT, steps);
    var s := Exec(INIT, steps);
    hide Inv, Next;
    if r in s.readers && s.readers[r].Got? {
      var s0, index := Next(s, Store(r, diskOk)), s.readers[r].index;
      StepInv(s, Store(r, diskOk));
      if diskOk {
        StoreCachesIffDiskOk(s, r, true);
        forall more: seq<Step> ensures !Refetches(s0, more, index) { CachedIsNotRefetched(s0, more, index); }
      } else {
        LostIsRefetched(s, r);
      }
    }
  }

  lemma CachedIsNotRefetched(s: State, more: seq<Step>, index: nat)
    requires Inv(s) && index in s.cache.entries
    ensures !Refetches(s, more, index)
  {
    hide Exec, Inv;
    var n := |s.log|;
    ExecSettled(s, more, index, n);
    var log := Exec(s, more).log;
    forall b | n <= b < |log| && log[b] == Fetched(index) ensures Evicted(index) in log[n..b] {
      assert log[n..b + 1] == log[n..b] + [Fetched(index)];
      assert Fetched(index) in log[n..b + 1];
    }
  }

  lemma LostIsRefetched(s: State, r: nat)
    requires Inv(s) && r in s.readers && s.readers[r].Got?
    ensures exists more: seq<Step> :: Refetches(Next(s, Store(r, false)), more, s.readers[r].index)
  {
    hide Exec, Inv;
    var Got(index, piece) := s.readers[r];
    DiskErrorRefetches(s, r);
    var s0, more := Next(s, Store(r, false)), ComeBack(r, index, piece);
    var log := Exec(s0, more).log;
    assert log[|s0.log|] == Fetched(index) && log[|s0.log|..|s0.log|] == [];
    assert Refetches(s0, more, index);
  }
}
