/** The disk-usage books of storage/manager.rs and the choice of what to evict. */
module Bookkeeping {
  import opened Base

  datatype Entry = Entry(usage: u64, lastAccess: nat)

  type Entries = map<Key, Entry>

  datatype Books = Books(entries: Entries, total: u64)

  // ----- sums -----

  ghost function Sum(m: Entries): nat
  {
    if m == map[] then 0 else
      var k :| k in m;
      m[k].usage + Sum(m - {k})
  }

  lemma {:induction false} SumRemove(m: Entries, k: Key)
    requires k in m
    ensures Sum(m) == m[k].usage + Sum(m - {k})
    decreases |m|
  {
    var p :| p in m && Sum(m) == m[p].usage + Sum(m - {p});
    if p != k {
      SumRemove(m - {p}, k);
      SumRemove(m - {k}, p);
      assert m - {p} - {k} == m - {k} - {p};
    }
  }

  lemma SumInsert(m: Entries, k: Key, e: Entry)
    ensures Sum(m[k := e]) == Sum(m - {k}) + e.usage
  {
    SumRemove(m[k := e], k);
    assert m[k := e] - {k} == m - {k};
  }

  ghost predicate Accurate(b: Books) { b.total == Sum(b.entries) }

  // ----- the critical sections -----

  /** The accounting half of `write`: the file grew to `start + written` if that is further than before. */
  function AccountWrite(b: Books, key: Key, start: u64, written: u64, now: nat): Books
  {
    var end := SatAdd(start, written);
    if key in b.entries then
      var usage := b.entries[key].usage;
      if end > usage then Books(b.entries[key := Entry(end, now)], SatAdd(SatSub(b.total, usage), end))
      else Books(b.entries[key := Entry(usage, now)], b.total)
    else Books(b.entries[key := Entry(end, now)], SatAdd(b.total, end))
  }

  function TouchEntry(b: Books, key: Key, now: nat): Books
  {
    if key in b.entries then b.(entries := b.entries[key := b.entries[key].(lastAccess := now)]) else b
  }

  /** Warm-up inserts listed keys that are not booked yet, oldest possible access time. */
  function WarmEntries(entries: Entries, listing: seq<(Key, u64)>): Entries
  {
    if listing == [] then entries
    else
      var before := WarmEntries(entries, listing[..|listing| - 1]);
      var (key, size) := listing[|listing| - 1];
      if key in before then before else before[key := Entry(size, 0)]
  }

  function Recovered(entries: Entries, listing: seq<(Key, u64)>): u64
  {
    if listing == [] then 0
    else
      var (key, size) := listing[|listing| - 1];
      var before := Recovered(entries, listing[..|listing| - 1]);
      if key in WarmEntries(entries, listing[..|listing| - 1]) then before else SatAdd(before, size)
  }

  function WarmUp(b: Books, listing: seq<(Key, u64)>): Books
  {
    Books(WarmEntries(b.entries, listing), SatAdd(b.total, Recovered(b.entries, listing)))
  }

  function Forget(b: Books, key: Key): Books
  {
    if key in b.entries then Books(b.entries - {key}, SatSub(b.total, b.entries[key].usage)) else b
  }

  // ----- accounting -----

  /** The counter is exact after a write iff the true sum fits it. */
  lemma AccountWriteExact(b: Books, key: Key, start: u64, written: u64, now: nat)
    requires Accurate(b)
    ensures var b' := AccountWrite(b, key, start, written, now); Accurate(b') <==> Sum(b'.entries) <= U64_MAX
  {
    var b' := AccountWrite(b, key, start, written, now);
    SumInsert(b.entries, key, b'.entries[key]);
    if key in b.entries { SumRemove(b.entries, key); } else { assert b.entries - {key} == b.entries; }
  }

  /** An accounted write of `written` bytes at `start`. */
  datatype Accounted = Accounted(start: u64, written: u64, now: nat)

  function AccountAll(b: Books, key: Key, writes: seq<Accounted>): Books
  {
    if writes == [] then b
    else
      var w := writes[|writes| - 1];
      AccountWrite(AccountAll(b, key, writes[..|writes| - 1]), key, w.start, w.written, w.now)
  }

  /** What was booked for the key before. */
  function Booked(b: Books, key: Key): nat { if key in b.entries then b.entries[key].usage else 0 }

  /** A key's usage is the furthest of what was booked and the ends its writes reached, it was accessed at the last one, and other keys are untouched. */
  lemma {:induction false} UsageIsFurthestEnd(b: Books, key: Key, writes: seq<Accounted>)
    requires writes != []
    ensures var entries := AccountAll(b, key, writes).entries;
      && key in entries && entries[key].lastAccess == writes[|writes| - 1].now && entries - {key} == b.entries - {key}
      && Booked(b, key) <= entries[key].usage
      && (forall i :: 0 <= i < |writes| ==> SatAdd(writes[i].start, writes[i].written) <= entries[key].usage)
      && (entries[key].usage == Booked(b, key) || exists i :: 0 <= i < |writes| && SatAdd(writes[i].start, writes[i].written) == entries[key].usage)
  {
    var n := |writes| - 1;
    var before := AccountAll(b, key, writes[..n]);
    var entries := AccountAll(b, key, writes).entries;
    hide SatAdd, SatSub;
    AccountOne(before, key, writes[n]);
    if n > 0 {
      UsageIsFurthestEnd(b, key, writes[..n]);
      assert forall j :: 0 <= j < n ==> writes[..n][j] == writes[j];
    }
    hide AccountAll;
    assert SatAdd(writes[n].start, writes[n].written) <= entries[key].usage;
    if entries[key].usage != SatAdd(writes[n].start, writes[n].written) && entries[key].usage != Booked(b, key) {
      var i :| 0 <= i < n && SatAdd(writes[..n][i].start, writes[..n][i].written) == before.entries[key].usage;
      assert SatAdd(writes[i].start, writes[i].written) == entries[key].usage;
    }
  }

  lemma AccountOne(b: Books, key: Key, w: Accounted)
    ensures var entries, end := AccountWrite(b, key, w.start, w.written, w.now).entries, SatAdd(w.start, w.written);
      && key in entries && entries[key] == Entry(Max(Booked(b, key), end), w.now) && entries - {key} == b.entries - {key}
  {
  }

  lemma TouchExact(b: Books, key: Key, now: nat)
    ensures Sum(TouchEntry(b, key, now).entries) == Sum(b.entries) && TouchEntry(b, key, now).total == b.total
  {
    if key in b.entries {
      SumInsert(b.entries, key, b.entries[key].(lastAccess := now));
      SumRemove(b.entries, key);
    }
  }

  /** An evicted key leaves the books, the others stay, and the counter stays exact. */
  lemma ForgetExact(b: Books, key: Key)
    requires Accurate(b)
    ensures Accurate(Forget(b, key)) && Sum(Forget(b, key).entries) == Sum(b.entries) - Booked(b, key)
    ensures key !in Forget(b, key).entries
    ensures forall k :: k != key ==> (k in Forget(b, key).entries <==> k in b.entries)
    ensures forall k :: k != key && k in b.entries ==> Forget(b, key).entries[k] == b.entries[k]
  {
    if key in b.entries { SumRemove(b.entries, key); }
  }

  /** Warm-up adds each unbooked key once, so the recovered sum is the growth of the books, up to saturation. */
  lemma {:induction false} WarmSum(entries: Entries, listing: seq<(Key, u64)>)
    ensures Sum(WarmEntries(entries, listing)) >= Sum(entries)
    ensures Recovered(entries, listing) == Min(Sum(WarmEntries(entries, listing)) - Sum(entries), U64_MAX)
    ensures forall k :: k in entries ==> k in WarmEntries(entries, listing) && WarmEntries(entries, listing)[k] == entries[k]
  {
    if listing != [] {
      var n := |listing| - 1;
      WarmSum(entries, listing[..n]);
      var before := WarmEntries(entries, listing[..n]);
      var (key, size) := listing[n];
      if key !in before {
        SumInsert(before, key, Entry(size, 0));
        assert before - {key} == before;
      }
    }
  }

  /** The listing names the key at position `i` for the first time. */
  predicate FirstListed(listing: seq<(Key, u64)>, i: nat)
  {
    i < |listing| && forall j :: 0 <= j < i ==> listing[j].0 != listing[i].0
  }

  predicate Listed(listing: seq<(Key, u64)>, key: Key)
  {
    exists i :: 0 <= i < |listing| && listing[i].0 == key
  }

  /** Booked afterwards are the old keys, unchanged, and the listed ones, each with the size of its first listing and the oldest access time. */
  ghost predicate WarmedBy(entries: Entries, after: Entries, listing: seq<(Key, u64)>)
  {
    && (forall k :: k in after <==> k in entries || Listed(listing, k))
    && (forall k :: k in entries ==> after[k] == entries[k])
    && (forall i: nat :: FirstListed(listing, i) && listing[i].0 !in entries ==> after[listing[i].0] == Entry(listing[i].1, 0))
  }

  lemma {:induction false} WarmBooks(entries: Entries, listing: seq<(Key, u64)>)
    ensures WarmedBy(entries, WarmEntries(entries, listing), listing)
  {
    if listing != [] {
      var n := |listing| - 1;
      var before, after := WarmEntries(entries, listing[..n]), WarmEntries(entries, listing);
      WarmBooks(entries, listing[..n]);
      forall k ensures k in after <==> k in entries || Listed(listing, k) {
        ListedLast(listing, k);
      }
      forall i: nat | FirstListed(listing, i) && listing[i].0 !in entries ensures listing[i].0 in after && after[listing[i].0] == Entry(listing[i].1, 0) {
        ListedLast(listing, listing[i].0);
        if i < n {
          assert FirstListed(listing[..n], i);
          assert listing[..n][i] == listing[i];
          assert Listed(listing[..n], listing[i].0);
        } else {
          assert !Listed(listing[..n], listing[n].0);
        }
      }
    }
  }

  lemma ListedLast(listing: seq<(Key, u64)>, key: Key)
    requires listing != []
    ensures var n := |listing| - 1; Listed(listing, key) <==> Listed(listing[..n], key) || listing[n].0 == key
  {
    var n := |listing| - 1;
    if Listed(listing, key) {
      var i :| 0 <= i < |listing| && listing[i].0 == key;
      if i < n { assert listing[..n][i].0 == key; }
    }
  }

  lemma WarmUpExact(b: Books, listing: seq<(Key, u64)>)
    requires Accurate(b)
    ensures var b' := WarmUp(b, listing); Accurate(b') <==> Sum(b'.entries) <= U64_MAX
    ensures WarmedBy(b.entries, WarmUp(b, listing).entries, listing)
  {
    WarmSum(b.entries, listing);
    WarmBooks(b.entries, listing);
  }

  // ----- choosing victims -----

  type Listing = seq<(Key, Entry)>

  function SumOf(order: Listing): nat
  {
    if order == [] then 0 else order[0].1.usage + SumOf(order[1..])
  }

  /** `order` lists the booked entries, each once, least recently used first. */
  ghost predicate LruOrder(entries: Entries, order: Listing)
  {
    && (forall i, j :: 0 <= i < j < |order| ==> order[i].0 != order[j].0 && order[i].1.lastAccess <= order[j].1.lastAccess)
    && (forall i :: 0 <= i < |order| ==> order[i].0 in entries && entries[order[i].0] == order[i].1)
    && (forall k :: k in entries ==> exists i :: 0 <= i < |order| && order[i].0 == k)
  }

  /** What the cleanup pass is configured with and measures. */
  datatype Budget = Budget(maxBytes: u64, maxFiles: nat, external: u64)

  predicate WithinLimits(bytes: int, count: int, budget: Budget)
  {
    bytes <= budget.maxBytes && count <= budget.maxFiles
  }

  /** The selection loop: how many entries of `order` become victims. */
  function VictimCount(order: Listing, bytes: u64, budget: Budget): (n: nat)
    ensures n <= |order|
  {
    if order == [] || WithinLimits(bytes, |order|, budget) then 0
    else 1 + VictimCount(order[1..], SatSub(bytes, order[0].1.usage), budget)
  }

  function Victims(order: Listing, total: u64, budget: Budget): Listing
  {
    var combined := SatAdd(total, budget.external);
    if (budget.external > budget.maxBytes && |order| <= budget.maxFiles) || WithinLimits(combined, |order|, budget) then []
    else order[..VictimCount(order, combined, budget)]
  }

  /** How much of the external cache the saturating sum takes into account. */
  function Counted(total: u64, budget: Budget): nat { SatAdd(total, budget.external) - total }

  /** Both limits hold, as far as the pass can see, once the first `m` entries are gone. */
  predicate Enough(order: Listing, seen: nat, budget: Budget, m: nat)
    requires m <= |order|
  {
    SumOf(order[m..]) + seen <= budget.maxBytes && |order| - m <= budget.maxFiles
  }

  lemma {:induction false} CountIsShortest(order: Listing, bytes: u64, seen: nat, budget: Budget, m: nat)
    requires bytes == SumOf(order) + seen && m <= |order|
    ensures var n := VictimCount(order, bytes, budget);
      && (m < n ==> !Enough(order, seen, budget, m))
      && (m == n && seen <= budget.maxBytes ==> Enough(order, seen, budget, m))
      && (seen > budget.maxBytes ==> n == |order|)
  {
    if order != [] && !WithinLimits(bytes, |order|, budget) {
      var rest := order[1..];
      var fewer := SatSub(bytes, order[0].1.usage);
      if m > 0 {
        CountIsShortest(rest, fewer, seen, budget, m - 1);
        assert rest[m - 1..] == order[m..];
      } else {
        CountIsShortest(rest, fewer, seen, budget, 0);
        assert order[0..] == order;
      }
    } else {
      assert order[0..] == order;
    }
  }

  /**
   Victims are the shortest least-recently-used prefix whose removal meets both limits.
   Where own and external bytes exceed 64 bits together, the pass counts only the part
   of the external cache that fits, and meets the limits for that part.
   */
  lemma VictimsAreShortestPrefix(order: Listing, total: u64, budget: Budget)
    requires total == SumOf(order) && budget.external <= budget.maxBytes
    ensures var n, seen := |Victims(order, total, budget)|, Counted(total, budget);
      && n <= |order| && Victims(order, total, budget) == order[..n]
      && Enough(order, seen, budget, n) && (forall m :: 0 <= m < n ==> !Enough(order, seen, budget, m))
      && (seen == budget.external <==> total + budget.external <= U64_MAX)
  {
    var combined, seen := SatAdd(total, budget.external), Counted(total, budget);
    var n := |Victims(order, total, budget)|;
    forall m | 0 <= m <= n
      ensures m < n ==> !Enough(order, seen, budget, m)
      ensures m == n ==> Enough(order, seen, budget, m)
    {
      CountIsShortest(order, combined, seen, budget, m);
      assert order[0..] == order;
    }
  }

  /**
   When the external cache alone is over the byte budget the pass evicts nothing as
   long as the file count is in bounds. Once it is not, every entry goes, unless the sum
   saturates so far that the counted part is within the budget.
   */
  lemma ExternalOverflow(order: Listing, total: u64, budget: Budget)
    requires total == SumOf(order) && budget.external > budget.maxBytes
    ensures |order| <= budget.maxFiles ==> Victims(order, total, budget) == []
    ensures |order| > budget.maxFiles && Counted(total, budget) > budget.maxBytes ==> Victims(order, total, budget) == order
    ensures |order| > budget.maxFiles && Counted(total, budget) <= budget.maxBytes ==>
      var n := |Victims(order, total, budget)|;
      && n <= |order| && Victims(order, total, budget) == order[..n]
      && Enough(order, Counted(total, budget), budget, n) && forall m :: 0 <= m < n ==> !Enough(order, Counted(total, budget), budget, m)
    ensures total + budget.external <= U64_MAX ==> Counted(total, budget) > budget.maxBytes
  {
    var combined, seen := SatAdd(total, budget.external), Counted(total, budget);
    assert order[..|order|] == order;
    CountIsShortest(order, combined, seen, budget, 0);
    var n := |Victims(order, total, budget)|;
    forall m | 0 <= m <= n
      ensures m < n ==> !Enough(order, seen, budget, m)
      ensures m == n && |order| > budget.maxFiles && seen <= budget.maxBytes ==> Enough(order, seen, budget, m)
    {
      CountIsShortest(order, combined, seen, budget, m);
    }
  }

  const TWO_FILES: Listing := [("a", Entry(1, 0)), ("b", Entry(1, 1))]

  /** One file too many while the external cache is over the byte budget: both files go, though one would do. */
  lemma SurplusFileEvictsAll()
    ensures LruOrder(map["a" := Entry(1, 0), "b" := Entry(1, 1)], TWO_FILES) && SumOf(TWO_FILES) == 2
    ensures Victims(TWO_FILES, 2, Budget(10, 1, 11)) == TWO_FILES
    ensures SumOf(TWO_FILES[1..]) <= 10 && |TWO_FILES[1..]| <= 1
  {
    assert TWO_FILES[0].0 == "a" && TWO_FILES[1].0 == "b";
    assert TWO_FILES[1..] == [("b", Entry(1, 1))] && TWO_FILES[1..][1..] == [];
    ExternalOverflow(TWO_FILES, 2, Budget(10, 1, 11));
  }

  /** The listed usages add up to the booked sum. */
  lemma {:induction false} OrderSum(entries: Entries, order: Listing)
    requires LruOrder(entries, order)
    ensures SumOf(order) == Sum(entries)
    decreases |order|
  {
    if order == [] {
      assert entries == map[];
    } else {
      var k := order[0].0;
      var rest := order[1..];
      forall key | key in entries - {k} ensures exists i :: 0 <= i < |rest| && rest[i].0 == key {
        var i :| 0 <= i < |order| && order[i].0 == key;
        assert rest[i - 1] == order[i];
      }
      assert forall i :: 0 <= i < |rest| ==> rest[i] == order[i + 1];
      OrderSum(entries - {k}, rest);
      SumRemove(entries, k);
    }
  }

  // ----- the manager object -----

  class StorageManager {
    var entries: Entries
    var total: u64

    function State(): Books
      reads this
    {
      Books(entries, total)
    }

    constructor ()
      ensures State() == Books(map[], 0)
      ensures Accurate(State())
    {
      entries, total := map[], 0;
    }

    method RecordWrite(key: Key, start: u64, written: u64, now: nat)
      modifies this
      ensures State() == AccountWrite(old(State()), key, start, written, now)
      ensures old(Accurate(State())) ==> (Accurate(State()) <==> Sum(entries) <= U64_MAX)
    {
      if Accurate(State()) { AccountWriteExact(State(), key, start, written, now); }
      var end := SatAdd(start, written);
      if key in entries {
        var entry := entries[key];
        if end > entry.usage {
          total := SatAdd(SatSub(total, entry.usage), end);
          entry := entry.(usage := end);
        }
        entries := entries[key := entry.(lastAccess := now)];
      } else {
        entries := entries[key := Entry(end, now)];
        total := SatAdd(total, end);
      }
    }

    method RecordWarmUp(listing: seq<(Key, u64)>)
      modifies this
      ensures State() == WarmUp(old(State()), listing)
      ensures WarmedBy(old(entries), entries, listing)
      ensures old(Accurate(State())) ==> (Accurate(State()) <==> Sum(entries) <= U64_MAX)
    {
      if Accurate(State()) { WarmUpExact(State(), listing); }
      WarmBooks(entries, listing);
      var recovered: u64 := 0;
      for i := 0 to |listing|
        invariant entries == WarmEntries(old(entries), listing[..i])
        invariant recovered == Recovered(old(entries), listing[..i])
        invariant total == old(total)
      {
        assert listing[..i + 1][..i] == listing[..i];
        var (key, size) := listing[i];
        if key !in entries {
          entries := entries[key := Entry(size, 0)];
          recovered := SatAdd(recovered, size);
        }
      }
      assert listing[..|listing|] == listing;
      total := SatAdd(total, recovered);
    }

    method SelectVictims(order: Listing, budget: Budget) returns (victims: Listing)
      ensures victims == Victims(order, total, budget)
    {
      var combined := SatAdd(total, budget.external);
      if (budget.external > budget.maxBytes && |order| <= budget.maxFiles) || WithinLimits(combined, |order|, budget) {
        return [];
      }
      var current, count, i := combined, |order|, 0;
      victims := [];
      while i < |order|
        invariant 0 <= i <= |order| && count == |order| - i
        invariant victims == order[..i]
        invariant VictimCount(order, combined, budget) == i + VictimCount(order[i..], current, budget)
      {
        if WithinLimits(current, count, budget) { break; }
        assert order[i..][1..] == order[i + 1..];
        current := SatSub(current, order[i].1.usage);
        count := count - 1;
        victims := victims + [order[i]];
        i := i + 1;
      }
    }
  }
}
