/**
 Writers, readers, warm-up and cleanup of storage/manager.rs interleaved at lock
 granularity. Every access carries the stamp the system clock gave it, which may repeat
 or go back. Ticks count steps and say which of two came later.
 */
module ManagerRuns {
  import opened Base
  import opened Bookkeeping

  /** A write holds its key's mutation shard from before the engine call until after the accounting. */
  datatype Writer = Writing(key: Key) | Stored(key: Key, start: u64, written: u64)

  /** An eviction candidate: the entry as it was when it was selected. */
  datatype Victim = Victim(key: Key, lastAccess: nat, selectedAt: nat)

  datatype Access = Access(tick: nat, stamp: nat)

  datatype State = State(
    books: Books,
    tick: nat,
    writers: map<nat, Writer>,
    victims: seq<Victim>,
    /** The last read of each key through the manager, or successful rewrite. */
    accessed: map<Key, Access>,
    /** The tick at which the engine last changed each key's content, also in a write that then failed. */
    changed: map<Key, nat>)

  const INIT := State(Books(map[], 0), 0, map[], [], map[], map[])

  datatype Step =
    | BeginWrite(writer: nat, writeKey: Key)
    | EngineOk(writer: nat, start: u64, written: u64)
    | EngineErr(writer: nat)
    | Account(writer: nat, stamp: nat)
    | Read(key: Key, stamp: nat)
    | Warm(listing: seq<(Key, u64)>)
    | Select(order: Listing, budget: Budget)
    | Evict(deleteOk: bool)

  /** The shard of a key; two keys may share one. */
  type Shards = Key -> nat

  predicate ShardBusy(s: State, shard: Shards, key: Key)
  {
    exists w :: w in s.writers && shard(s.writers[w].key) == shard(key)
  }

  /** The victim's entry is still the one that was selected. */
  predicate Unchanged(s: State, v: Victim)
  {
    v.key in s.books.entries && s.books.entries[v.key].lastAccess == v.lastAccess
  }

  predicate Deletes(s: State, shard: Shards, step: Step)
  {
    step.Evict? && step.deleteOk && s.victims != [] && !ShardBusy(s, shard, s.victims[0].key) && Unchanged(s, s.victims[0])
  }

  function Snapshot(order: Listing, now: nat): (v: seq<Victim>)
    ensures |v| == |order|
    ensures forall i :: 0 <= i < |v| ==> v[i] == Victim(order[i].0, order[i].1.lastAccess, now)
  {
    seq(|order|, i requires 0 <= i < |order| => Victim(order[i].0, order[i].1.lastAccess, now))
  }

  /** Steps that are not enabled leave the state alone. */
  ghost function Next(s: State, shard: Shards, step: Step): State
  {
    var now := s.tick + 1;
    match step
    case BeginWrite(w, key) =>
      if w in s.writers || ShardBusy(s, shard, key) then s else s.(writers := s.writers[w := Writing(key)])
    case EngineOk(w, start, written) =>
      if w in s.writers && s.writers[w].Writing? then
        s.(writers := s.writers[w := Stored(s.writers[w].key, start, written)], tick := now, changed := s.changed[s.writers[w].key := now])
      else s
    case EngineErr(w) =>
      if w in s.writers && s.writers[w].Writing? then
        s.(writers := s.writers - {w}, tick := now, changed := s.changed[s.writers[w].key := now])
      else s
    case Account(w, stamp) =>
      if w in s.writers && s.writers[w].Stored? then
        var Stored(key, start, written) := s.writers[w];
        s.(books := AccountWrite(s.books, key, start, written, stamp), tick := now,
           writers := s.writers - {w}, accessed := s.accessed[key := Access(now, stamp)])
      else s
    case Read(key, stamp) =>
      s.(books := TouchEntry(s.books, key, stamp), tick := now, accessed := s.accessed[key := Access(now, stamp)])
    case Warm(listing) => s.(books := WarmUp(s.books, listing))
    case Select(order, budget) =>
      if s.victims == [] && LruOrder(s.books.entries, order) then
        s.(victims := Snapshot(Victims(order, s.books.total, budget), now), tick := now)
      else s
    case Evict(deleteOk) =>
      if s.victims == [] || ShardBusy(s, shard, s.victims[0].key) then s
      else if Deletes(s, shard, step) then
        s.(books := Forget(s.books, s.victims[0].key), victims := s.victims[1..])
      else s.(victims := s.victims[1..])
  }

  ghost function Exec(s: State, shard: Shards, steps: seq<Step>): State
    decreases |steps|
  {
    if steps == [] then s else Exec(Next(s, shard, steps[0]), shard, steps[1..])
  }

  // ----- accounting -----

  /** One step from exact books leaves them exact iff the usages still fit the counter. */
  lemma StepAccurate(s: State, shard: Shards, step: Step)
    requires Accurate(s.books)
    ensures var s' := Next(s, shard, step); Accurate(s'.books) <==> Sum(s'.books.entries) <= U64_MAX
  {
    match step
    case Account(w, stamp) =>
      if w in s.writers && s.writers[w].Stored? {
        var Stored(key, start, written) := s.writers[w];
        AccountWriteExact(s.books, key, start, written, stamp);
      }
    case Read(key, stamp) => TouchExact(s.books, key, stamp);
    case Warm(listing) => WarmUpExact(s.books, listing);
    case Evict(_) => if s.victims != [] { ForgetExact(s.books, s.victims[0].key); }
    case BeginWrite(_, _) =>
    case EngineOk(_, _, _) =>
    case EngineErr(_) =>
    case Select(_, _) =>
  }

  ghost predicate AlwaysAccurate(s: State, shard: Shards, steps: seq<Step>)
    decreases |steps|
  {
    Accurate(s.books) && (steps == [] || AlwaysAccurate(Next(s, shard, steps[0]), shard, steps[1..]))
  }

  ghost predicate AlwaysFits(s: State, shard: Shards, steps: seq<Step>)
    decreases |steps|
  {
    Sum(s.books.entries) <= U64_MAX && (steps == [] || AlwaysFits(Next(s, shard, steps[0]), shard, steps[1..]))
  }

  /** Over any interleaving the counter equals the sum of all usages throughout iff that sum always fits 64 bits. */
  lemma {:induction false} RunAccurate(s: State, shard: Shards, steps: seq<Step>)
    requires Accurate(s.books)
    ensures AlwaysAccurate(s, shard, steps) <==> AlwaysFits(s, shard, steps)
    decreases |steps|
  {
    if steps != [] {
      hide Next;
      StepAccurate(s, shard, steps[0]);
      var s' := Next(s, shard, steps[0]);
      if Accurate(s'.books) { RunAccurate(s', shard, steps[1..]); }
    }
  }

  // ----- eviction -----

  predicate AccessedSince(s: State, v: Victim)
  {
    v.key in s.accessed && s.accessed[v.key].tick >= v.selectedAt
  }

  /** A pending victim is still booked, with the stamp of the last access since, if there was one. */
  ghost predicate VictimOk(s: State, v: Victim)
  {
    && v.key in s.books.entries && v.selectedAt <= s.tick
    && s.books.entries[v.key].lastAccess == (if AccessedSince(s, v) then s.accessed[v.key].stamp else v.lastAccess)
  }

  ghost predicate Inv(s: State, shard: Shards)
  {
    && (forall k :: k in s.accessed ==> s.accessed[k].tick <= s.tick)
    && (forall i :: 0 <= i < |s.victims| ==> VictimOk(s, s.victims[i]))
    && (forall i, j :: 0 <= i < j < |s.victims| ==> s.victims[i].key != s.victims[j].key)
    && (forall a, b :: a in s.writers && b in s.writers && a != b ==> shard(s.writers[a].key) != shard(s.writers[b].key))
  }

  lemma SelectKeeps(s: State, shard: Shards, order: Listing, budget: Budget)
    requires Inv(s, shard)
    ensures Inv(Next(s, shard, Select(order, budget)), shard)
  {
    var s' := Next(s, shard, Select(order, budget));
    if s.victims == [] && LruOrder(s.books.entries, order) {
      var chosen := Victims(order, s.books.total, budget);
      assert chosen == order[..|chosen|];
      forall i | 0 <= i < |s'.victims| ensures VictimOk(s', s'.victims[i]) {
        assert chosen[i] == order[i];
      }
      forall i, j | 0 <= i < j < |s'.victims| ensures s'.victims[i].key != s'.victims[j].key {
        assert chosen[i] == order[i] && chosen[j] == order[j];
      }
    }
  }

  lemma WarmKeeps(s: State, shard: Shards, listing: seq<(Key, u64)>)
    requires Inv(s, shard)
    ensures Inv(Next(s, shard, Warm(listing)), shard)
  {
    hide Sum;
    WarmSum(s.books.entries, listing);
    var s' := Next(s, shard, Warm(listing));
    forall i | 0 <= i < |s'.victims| ensures VictimOk(s', s'.victims[i]) { assert VictimOk(s, s.victims[i]); }
  }

  lemma EvictKeeps(s: State, shard: Shards, deleteOk: bool)
    requires Inv(s, shard)
    ensures Inv(Next(s, shard, Evict(deleteOk)), shard)
  {
    var s' := Next(s, shard, Evict(deleteOk));
    if s'.victims != s.victims {
      forall i | 0 <= i < |s'.victims| ensures VictimOk(s', s'.victims[i]) {
        assert s'.victims[i] == s.victims[i + 1];
        assert VictimOk(s, s.victims[i + 1]);
        assert s.victims[0].key != s.victims[i + 1].key;
      }
    }
  }

  /** An access stamps the entry after any selection. */
  lemma AccessKeeps(s: State, shard: Shards, step: Step)
    requires Inv(s, shard) && (step.Account? || step.Read?)
    ensures Inv(Next(s, shard, step), shard)
  {
    var s' := Next(s, shard, step);
    forall i | 0 <= i < |s'.victims| ensures VictimOk(s', s'.victims[i]) { assert VictimOk(s, s.victims[i]); }
  }

  lemma StepKeeps(s: State, shard: Shards, step: Step)
    requires Inv(s, shard)
    ensures Inv(Next(s, shard, step), shard)
  {
    match step
    case Account(_, _) => AccessKeeps(s, shard, step);
    case Read(_, _) => AccessKeeps(s, shard, step);
    case Warm(listing) => WarmKeeps(s, shard, listing);
    case Select(order, budget) => SelectKeeps(s, shard, order, budget);
    case Evict(deleteOk) => EvictKeeps(s, shard, deleteOk);
    case BeginWrite(_, _) => IdleKeeps(s, shard, step);
    case EngineOk(_, _, _) => IdleKeeps(s, shard, step);
    case EngineErr(_) => IdleKeeps(s, shard, step);
  }

  lemma IdleKeeps(s: State, shard: Shards, step: Step)
    requires Inv(s, shard) && (step.BeginWrite? || step.EngineOk? || step.EngineErr?)
    ensures Inv(Next(s, shard, step), shard)
  {
  }

  lemma {:induction false} ExecInv(s: State, shard: Shards, steps: seq<Step>)
    requires Inv(s, shard)
    ensures Inv(Exec(s, shard, steps), shard)
    decreases |steps|
  {
    hide Inv, Next;
    if steps != [] {
      StepKeeps(s, shard, steps[0]);
      ExecInv(Next(s, shard, steps[0]), shard, steps[1..]);
    }
  }

  /** Some write holds the lock of the key's shard. */
  ghost predicate InUse(s: State, shard: Shards, key: Key)
  {
    exists w, k :: k in s.writers && w == s.writers[k] && shard(w.key) == shard(key)
  }

  /** A write starts iff no other holds its shard, and holds it until it is accounted for or has failed. */
  lemma WriteHoldsShard(s: State, shard: Shards, w: nat, key: Key, stamp: nat)
    requires Inv(s, shard)
    ensures w !in s.writers ==>
      Next(s, shard, BeginWrite(w, key)).writers == if InUse(s, shard, key) then s.writers else s.writers[w := Writing(key)]
    ensures w in s.writers && s.writers[w].Writing? ==>
      && (forall start: u64, written: u64 :: Next(s, shard, EngineOk(w, start, written)).writers == s.writers[w := Stored(s.writers[w].key, start, written)])
      && Next(s, shard, EngineErr(w)).writers == s.writers - {w} && Next(s, shard, EngineErr(w)).books == s.books
    ensures w in s.writers && s.writers[w].Stored? ==>
      var Stored(k, start, written) := s.writers[w];
      var s' := Next(s, shard, Account(w, stamp));
      && s'.writers == s.writers - {w} && s'.books.entries - {k} == s.books.entries - {k}
      && k in s'.books.entries && s'.books.entries[k] == Entry(Max(Booked(s.books, k), SatAdd(start, written)), stamp)
  {
    if w in s.writers && s.writers[w].Stored? {
      var Stored(k, start, written) := s.writers[w];
      AccountOne(s.books, k, Accounted(start, written, stamp));
    }
    if ShardBusy(s, shard, key) {
      var k :| k in s.writers && shard(s.writers[k].key) == shard(key);
      assert s.writers[k] == s.writers[k];
    }
  }

  /**
   In every reachable state the next victim is deleted iff its shard is free, the unlink
   works and it was neither read nor successfully rewritten since it was selected, unless
   the last such access carries the very stamp it was selected with; and no write to it is
   then under way.
   */
  lemma CleanupSparesAccessed(shard: Shards, steps: seq<Step>, deleteOk: bool)
    ensures var s := Exec(INIT, shard, steps);
      s.victims != [] ==>
        && var v := s.victims[0];
        && (Deletes(s, shard, Evict(deleteOk)) <==>
             deleteOk && !InUse(s, shard, v.key) && (AccessedSince(s, v) ==> s.accessed[v.key].stamp == v.lastAccess))
        && v.key in s.books.entries
        && (v.key !in Next(s, shard, Evict(deleteOk)).books.entries <==> Deletes(s, shard, Evict(deleteOk)))
        && Next(s, shard, Evict(deleteOk)).books.entries - {v.key} == s.books.entries - {v.key}
        && (Deletes(s, shard, Evict(deleteOk)) ==> forall w :: w in s.writers ==> s.writers[w].key != v.key)
  {
    hide Exec;
    ExecInv(INIT, shard, steps);
    var s := Exec(INIT, shard, steps);
    if s.victims != [] { assert VictimOk(s, s.victims[0]); }
  }

  const BOOKED := State(Books(map["a" := Entry(4, 9)], 4), 2, map[], [], map["a" := Access(2, 9)], map["a" := 1])
  const LISTED := [("a", Entry(4, 9))]
  const CHOSEN := BOOKED.(victims := [Victim("a", 9, 3)], tick := 3)

  /** A first write, a selection, and a second write that fails in the engine. */
  const UNLUCKY := [BeginWrite(0, "a"), EngineOk(0, 0, 4), Account(0, 9), Select(LISTED, Budget(0, 0, 0)), BeginWrite(0, "a"), EngineErr(0)]

  /** A first write, a selection, and a read in the same instant of the system clock. */
  const INSTANT := UNLUCKY[..4] + [Read("a", 9)]

  lemma FirstWrite(shard: Shards)
    ensures Next(Next(Next(INIT, shard, BeginWrite(0, "a")), shard, EngineOk(0, 0, 4)), shard, Account(0, 9)) == BOOKED
  {
  }

  lemma Selection(shard: Shards)
    ensures Next(BOOKED, shard, Select(LISTED, Budget(0, 0, 0))) == CHOSEN
  {
  }

  lemma SecondWrite(shard: Shards)
    ensures Next(Next(CHOSEN, shard, BeginWrite(0, "a")), shard, EngineErr(0)) == CHOSEN.(tick := 4, changed := map["a" := 4])
  {
    assert Next(CHOSEN, shard, BeginWrite(0, "a")) == CHOSEN.(writers := map[0 := Writing("a")]);
  }

  /** A write that ends in an error changes the content but not the books, so it does not protect the entry. */
  lemma FailedWriteIsNotProtected(shard: Shards)
    ensures var s := Exec(INIT, shard, UNLUCKY);
      && s.victims == [Victim("a", 9, 3)]
      && "a" in s.changed && s.changed["a"] > s.victims[0].selectedAt
      && Deletes(s, shard, Evict(true))
  {
    hide Exec, Next;
    ExecChosen(shard, UNLUCKY[..4]);
    SecondWrite(shard);
    assert UNLUCKY[..5][..4] == UNLUCKY[..4];
    ExecLast(INIT, shard, UNLUCKY);
    ExecLast(INIT, shard, UNLUCKY[..5]);
  }

  lemma ExecChosen(shard: Shards, steps: seq<Step>)
    requires steps == UNLUCKY[..4]
    ensures Exec(INIT, shard, steps) == CHOSEN
  {
    hide Exec, Next;
    FirstWrite(shard);
    Selection(shard);
    ExecFour(shard, steps);
  }

  lemma ExecFour(shard: Shards, steps: seq<Step>)
    requires |steps| == 4
    ensures Exec(INIT, shard, steps) ==
      Next(Next(Next(Next(INIT, shard, steps[0]), shard, steps[1]), shard, steps[2]), shard, steps[3])
  {
    hide Next;
    ExecLast(INIT, shard, steps);
    var b := steps[..3];
    ExecLast(INIT, shard, b);
    var c := b[..2];
    ExecLast(INIT, shard, c);
    ExecLast(INIT, shard, c[..1]);
  }

  /** A read that gets the stamp of the access before it leaves no trace in the books, so it does not protect the entry. */
  lemma RepeatedStampIsNotProtected(shard: Shards)
    ensures var s := Exec(INIT, shard, INSTANT);
      s.victims == [Victim("a", 9, 3)] && AccessedSince(s, s.victims[0]) && Deletes(s, shard, Evict(true))
  {
    assert Next(CHOSEN, shard, Read("a", 9)) == CHOSEN.(tick := 4, accessed := map["a" := Access(4, 9)]);
    hide Exec, Next;
    assert INSTANT[..4] == UNLUCKY[..4];
    ExecChosen(shard, INSTANT[..4]);
    ExecLast(INIT, shard, INSTANT);
  }

  lemma {:induction false} ExecLast(s: State, shard: Shards, steps: seq<Step>)
    requires steps != []
    ensures Exec(s, shard, steps) == Next(Exec(s, shard, steps[..|steps| - 1]), shard, steps[|steps| - 1])
    decreases |steps|
  {
    hide Next;
    if |steps| > 1 {
      ExecLast(Next(s, shard, steps[0]), shard, steps[1..]);
      assert steps[1..][..|steps| - 2] == steps[..|steps| - 1][1..];
    }
  }
}
