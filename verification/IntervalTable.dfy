/** The table of completed byte intervals kept in each sidecar (storage/disk.rs). */
module IntervalTable {
  import opened Base

  /** An inclusive byte interval. */
  datatype Interval = Interval(lo: u64, hi: u64)

  type Table = seq<Interval>

  /** Sorted, disjoint and non-adjacent: the form every operation keeps. */
  predicate Canonical(t: Table)
  {
    && (forall i :: 0 <= i < |t| ==> t[i].lo <= t[i].hi)
    && (forall i, j :: 0 <= i < j < |t| ==> t[i].hi + 1 < t[j].lo)
  }

  predicate Covers(t: Table, x: int)
  {
    exists i :: 0 <= i < |t| && t[i].lo <= x <= t[i].hi
  }

  /** Both tables promise the same offsets. */
  ghost predicate SameCover(a: Table, b: Table)
  {
    forall x :: Covers(a, x) <==> Covers(b, x)
  }

  /** First interval whose right end reaches `start` or the offset before it. */
  function FirstReaching(t: Table, start: u64): (k: nat)
    ensures k <= |t|
    ensures forall i :: 0 <= i < k ==> SatAdd(t[i].hi, 1) < start
    ensures k < |t| ==> SatAdd(t[k].hi, 1) >= start
  {
    if t == [] || SatAdd(t[0].hi, 1) >= start then 0 else
      var k := FirstReaching(t[1..], start);
      assert forall i :: 0 < i < 1 + k ==> t[i] == t[1..][i - 1];
      1 + k
  }

  /** First interval that starts beyond `end` and its successor. */
  function FirstBeyond(t: Table, end: u64): (k: nat)
    ensures k <= |t|
    ensures forall i :: 0 <= i < k ==> t[i].lo <= SatAdd(end, 1)
    ensures k < |t| ==> t[k].lo > SatAdd(end, 1)
  {
    if t == [] || t[0].lo > SatAdd(end, 1) then 0 else
      var k := FirstBeyond(t[1..], end);
      assert forall i :: 0 < i < 1 + k ==> t[i] == t[1..][i - 1];
      1 + k
  }

  function WidestEnd(t: Table, end: u64): (w: u64)
    ensures end <= w && forall i :: 0 <= i < |t| ==> t[i].hi <= w
    ensures w == end || exists i :: 0 <= i < |t| && t[i].hi == w
  {
    if t == [] then end else WidestEnd(t[1..], Max(end, t[0].hi))
  }

  /** The interval that replaces the touching run `t[first..last]`. */
  function Joined(t: Table, start: u64, end: u64, first: nat, last: nat): Interval
    requires first <= |t| && last <= |t|
  {
    if first < last then Interval(Min(t[first].lo, start), WidestEnd(t[first..last], end))
    else Interval(start, end)
  }

  /** merge_range: find the touching run by two partition points and splice it. */
  function Merge(t: Table, start: u64, end: u64): (merged: Table)
  {
    var first := FirstReaching(t, start);
    var last := FirstBeyond(t, end);
    t[..first] + [Joined(t, start, end, first, last)] + t[Max(first, last)..]
  }

  /** Merging keeps the canonical form and adds exactly the offsets of `[start, end]`. */
  lemma MergeIsUnion(t: Table, start: u64, end: u64)
    requires Canonical(t) && start <= end
    ensures Canonical(Merge(t, start, end))
    ensures forall x :: Covers(Merge(t, start, end), x) <==> Covers(t, x) || start <= x <= end
  {
    var first, last := FirstReaching(t, start), FirstBeyond(t, end);
    RunIsOrdered(t, start, end, first, last);
    var j := Joined(t, start, end, first, last);
    JoinedSeparated(t, start, end, first, last);
    SpliceCanonical(t, first, last, j);
    forall x ensures Covers(Merge(t, start, end), x) <==> Covers(t, x) || start <= x <= end {
      SpliceCovers(t, first, last, j, x);
      JoinedCovers(t, start, end, first, last, x);
    }
  }

  /** What the two partition points guarantee about the run between them. */
  ghost predicate TouchingRun(t: Table, start: u64, end: u64, first: nat, last: nat)
  {
    && first <= last <= |t| && start <= end
    && (forall i :: 0 <= i < first ==> t[i].hi + 1 < start)
    && (forall i :: first <= i < last ==> start <= t[i].hi + 1 && t[i].lo <= end + 1)
    && (forall i :: last <= i < |t| ==> end + 1 < t[i].lo)
  }

  lemma RunIsOrdered(t: Table, start: u64, end: u64, first: nat, last: nat)
    requires Canonical(t) && start <= end
    requires first == FirstReaching(t, start) && last == FirstBeyond(t, end)
    ensures TouchingRun(t, start, end, first, last)
  {
    assert last < |t| ==> t[last].lo <= t[last].hi;
    forall i | first <= i < |t| ensures start <= t[i].hi + 1 {
      if i > first { assert t[first].hi + 1 < t[i].lo; }
    }
    forall i | last <= i < |t| ensures end + 1 < t[i].lo {
      if i > last { assert t[last].hi + 1 < t[i].lo; assert t[last].lo <= t[last].hi; }
    }
  }

  lemma JoinedEnd(t: Table, end: u64, first: nat, last: nat)
    requires Canonical(t) && first < last <= |t|
    ensures WidestEnd(t[first..last], end) == Max(end, t[last - 1].hi)
  {
    var run := t[first..last];
    assert run[|run| - 1] == t[last - 1];
    forall i | 0 <= i < |run| ensures run[i].hi <= t[last - 1].hi {
      assert run[i] == t[first + i];
      if first + i < last - 1 {
        assert t[first + i].hi + 1 < t[last - 1].lo;
        assert t[last - 1].lo <= t[last - 1].hi;
      }
    }
  }

  /** The joined interval keeps a gap to both neighbours. */
  lemma JoinedSeparated(t: Table, start: u64, end: u64, first: nat, last: nat)
    requires Canonical(t) && TouchingRun(t, start, end, first, last)
    ensures var j := Joined(t, start, end, first, last);
      && j.lo <= start && end <= j.hi
      && (forall i :: 0 <= i < first ==> t[i].hi + 1 < j.lo)
      && (forall i :: last <= i < |t| ==> j.hi + 1 < t[i].lo)
  {
    if first < last { JoinedEnd(t, end, first, last); }
  }

  lemma JoinedCovers(t: Table, start: u64, end: u64, first: nat, last: nat, x: int)
    requires Canonical(t) && TouchingRun(t, start, end, first, last)
    ensures var j := Joined(t, start, end, first, last);
      j.lo <= x <= j.hi <==> start <= x <= end || exists i :: first <= i < last && t[i].lo <= x <= t[i].hi
  {
    if first < last {
      JoinedEnd(t, end, first, last);
      var j := Joined(t, start, end, first, last);
      if j.lo <= x < start { assert t[first].lo <= x <= t[first].hi; }
      if end < x <= j.hi { assert t[last - 1].lo <= x <= t[last - 1].hi; }
      forall i | first <= i < last ensures j.lo <= t[i].lo && t[i].hi <= j.hi {
        if first < i { assert t[first].hi + 1 < t[i].lo; assert t[first].lo <= t[first].hi; }
        if i < last - 1 { assert t[i].hi + 1 < t[last - 1].lo; assert t[last - 1].lo <= t[last - 1].hi; }
      }
    }
  }

  lemma SpliceCanonical(t: Table, first: nat, last: nat, j: Interval)
    requires Canonical(t) && first <= last <= |t| && j.lo <= j.hi
    requires forall i :: 0 <= i < first ==> t[i].hi + 1 < j.lo
    requires forall i :: last <= i < |t| ==> j.hi + 1 < t[i].lo
    ensures Canonical(t[..first] + [j] + t[last..])
  {
  }

  lemma SpliceCovers(t: Table, first: nat, last: nat, j: Interval, x: int)
    requires first <= last <= |t|
    ensures Covers(t[..first] + [j] + t[last..], x) <==>
              j.lo <= x <= j.hi || exists i :: 0 <= i < |t| && !(first <= i < last) && t[i].lo <= x <= t[i].hi
  {
    var m := t[..first] + [j] + t[last..];
    if Covers(m, x) {
      var i :| 0 <= i < |m| && m[i].lo <= x <= m[i].hi;
      var k := if i < first then i else i - first - 1 + last;
      assert i != first ==> m[i] == t[k] && !(first <= k < last);
    }
    if j.lo <= x <= j.hi { assert m[first] == j; }
    if i :| 0 <= i < |t| && !(first <= i < last) && t[i].lo <= x <= t[i].hi {
      assert m[if i < first then i else i - last + first + 1] == t[i];
    }
  }

  /** The offset after a listed interval is never promised. */
  lemma GapAfter(t: Table, i: nat)
    requires Canonical(t) && i < |t|
    ensures Covers(t, t[i].hi) && !Covers(t, t[i].hi + 1)
  {
  }

  /** There is at most one canonical table for a set of offsets. */
  lemma {:induction false} CanonicalUnique(a: Table, b: Table)
    requires Canonical(a) && Canonical(b) && SameCover(a, b)
    ensures a == b
  {
    StartsCovered(a);
    StartsCovered(b);
    if a != [] && b != [] {
      FirstAgrees(a, b);
      forall x ensures Covers(a[1..], x) <==> Covers(b[1..], x) {
        TailCovers(a, x);
        TailCovers(b, x);
      }
      CanonicalUnique(a[1..], b[1..]);
      assert a == [a[0]] + a[1..] && b == [b[0]] + b[1..];
    }
  }

  lemma FirstAgrees(a: Table, b: Table)
    requires Canonical(a) && Canonical(b) && SameCover(a, b) && a != [] && b != []
    ensures a[0] == b[0]
  {
    StartsCovered(a);
    StartsCovered(b);
    GapAfter(a, 0);
    GapAfter(b, 0);
    LongerCovers(a, b);
    LongerCovers(b, a);
  }

  lemma StartsCovered(t: Table)
    requires Canonical(t)
    ensures t == [] || Covers(t, t[0].lo)
  {
  }

  lemma LongerCovers(a: Table, b: Table)
    requires a != [] && b != [] && b[0].lo <= a[0].hi + 1
    ensures a[0].hi < b[0].hi ==> Covers(b, a[0].hi + 1)
  {
  }

  lemma TailCovers(t: Table, x: int)
    requires Canonical(t) && t != []
    ensures Covers(t[1..], x) <==> Covers(t, x) && x > t[0].hi
  {
  }

  /** The table after recording a history of completed intervals, oldest first. */
  function MergeAll(history: seq<Interval>): Table
  {
    if history == [] then []
    else
      var last := history[|history| - 1];
      Merge(MergeAll(history[..|history| - 1]), last.lo, last.hi)
  }

  lemma {:induction false} MergeAllCovers(history: seq<Interval>)
    requires forall i :: 0 <= i < |history| ==> history[i].lo <= history[i].hi
    ensures Canonical(MergeAll(history))
    ensures SameCover(MergeAll(history), history)
  {
    if history != [] {
      var n := |history| - 1;
      MergeAllCovers(history[..n]);
      MergeIsUnion(MergeAll(history[..n]), history[n].lo, history[n].hi);
      forall x ensures Covers(MergeAll(history), x) <==> Covers(history, x) {
        SnocCovers(history, x);
      }
    }
  }

  lemma SnocCovers(history: seq<Interval>, x: int)
    requires history != []
    ensures var n := |history| - 1;
      Covers(history, x) <==> Covers(history[..n], x) || history[n].lo <= x <= history[n].hi
  {
  }

  /** The table depends on which offsets were recorded, not on order, grouping or repetition. */
  lemma HistoryIndependent(a: seq<Interval>, b: seq<Interval>)
    requires forall i :: 0 <= i < |a| ==> a[i].lo <= a[i].hi
    requires forall i :: 0 <= i < |b| ==> b[i].lo <= b[i].hi
    ensures MergeAll(a) == MergeAll(b) <==> SameCover(a, b)
  {
    MergeAllCovers(a);
    MergeAllCovers(b);
    if SameCover(a, b) { CanonicalUnique(MergeAll(a), MergeAll(b)); }
  }

  /** The test check_range makes: one interval holds the whole request. */
  predicate HasInterval(t: Table, lo: int, hi: int)
  {
    exists i :: 0 <= i < |t| && t[i].lo <= lo && t[i].hi >= hi
  }

  /** On a canonical table the one-interval test equals testing every offset. */
  lemma OneIntervalSuffices(t: Table, lo: int, hi: int)
    requires Canonical(t) && lo <= hi
    ensures HasInterval(t, lo, hi) <==> forall x :: lo <= x <= hi ==> Covers(t, x)
  {
    if forall x :: lo <= x <= hi ==> Covers(t, x) {
      assert Covers(t, lo);
      var i :| 0 <= i < |t| && t[i].lo <= lo <= t[i].hi;
      GapAfter(t, i);
    }
  }

  /** The table part of metadata_is_valid: accepts exactly the canonical tables inside the file. */
  method TableFits(t: Table, fileSize: nat) returns (ok: bool)
    ensures ok <==> Canonical(t) && forall i :: 0 <= i < |t| ==> t[i].hi < fileSize
  {
    var previous: Option<u64> := None;
    for k := 0 to |t|
      invariant previous == if k == 0 then None else Some(t[k - 1].hi)
      invariant forall i :: 0 <= i < k ==> t[i].lo <= t[i].hi < fileSize
      invariant forall i, j :: 0 <= i < j < k ==> t[i].hi + 1 < t[j].lo
    {
      if t[k].lo > t[k].hi || t[k].hi >= fileSize { return false; }
      if previous.Some? && t[k].lo <= SatAdd(previous.value, 1) {
        assert !(t[k - 1].hi + 1 < t[k].lo);
        return false;
      }
      previous := Some(t[k].hi);
    }
    return true;
  }
}
