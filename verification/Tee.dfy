/** Forking the upstream body to the client and the cache writer (handlers/tee.rs). */
module Tee {
  import opened Base

  /** What happens when a chunk is offered to the cache channel. */
  datatype CacheSlot = Free | Closed | FullThenFree | FullThenClosed | FullThenTimeout

  /** send_to_cache: try at once, then wait a bounded time. */
  function SendToCache(slot: CacheSlot): bool { slot.Free? || slot.FullThenFree? }

  function CacheAccepts(cacheSlot: nat -> CacheSlot): nat -> bool
  {
    (i: nat) => SendToCache(cacheSlot(i))
  }

  /** The items up to and including the first error: all that is ever read from upstream. */
  function UpToError(items: Stream): (prefix: Stream)
    ensures prefix <= items
  {
    if items == [] then [] else if items[0].Fault? then items[..1] else items[..1] + UpToError(items[1..])
  }

  /** First offer that is refused, or `n`. */
  function FirstRefused(accepts: nat -> bool, n: nat): (k: nat)
    ensures k <= n && (forall i: nat :: i < k ==> accepts(i)) && (k < n ==> !accepts(k))
  {
    if n == 0 then 0
    else
      var k := FirstRefused(accepts, n - 1);
      if k < n - 1 || !accepts(n - 1) then k else n
  }

  /** What one side receives when nothing but its own refusals matters. */
  function Seen(items: Stream, accepts: nat -> bool): Stream
  {
    var all := UpToError(items);
    all[..FirstRefused(accepts, |all|)]
  }

  /**
   forward_upstream: client first, then cache, stop when both are gone or after an
   error. Each side receives exactly what it would have received alone.
   */
  method ForwardUpstream(upstream: Stream, clientAccepts: nat -> bool, cacheSlot: nat -> CacheSlot)
    returns (client: Stream, cache: Stream)
    ensures client == Seen(upstream, clientAccepts)
    ensures cache == Seen(upstream, CacheAccepts(cacheSlot))
  {
    var cacheAccepts := CacheAccepts(cacheSlot);
    ghost var all := UpToError(upstream);
    var clientOpen, cacheOpen, i := true, true, 0;
    client, cache := [], [];
    assert Side(all, clientAccepts, 0, true, []) && Side(all, cacheAccepts, 0, true, []);
    assert |all| == 0 ==> |upstream| == 0;
    hide Side, UpToError, FirstRefused, CacheAccepts, Seen;
    while i < |upstream|
      invariant 0 <= i <= |all| <= |upstream| && all == upstream[..|all|]
      invariant forall j :: 0 <= j < i ==> all[j].Chunk?
      invariant i == |all| ==> i == |upstream|
      invariant Side(all, clientAccepts, i, clientOpen, client)
      invariant Side(all, cacheAccepts, i, cacheOpen, cache)
    {
      var item := upstream[i];
      StillReading(upstream, i);
      Offer(all, clientAccepts, i, clientOpen, client);
      Offer(all, cacheAccepts, i, cacheOpen, cache);
      if clientOpen {
        if clientAccepts(i) { client := client + [item]; } else { clientOpen := false; }
      }
      if cacheOpen {
        if cacheAccepts(i) { cache := cache + [item]; } else { cacheOpen := false; }
      }
      i := i + 1;
      if item.Fault? || (!clientOpen && !cacheOpen) { break; }
    }
    Settled(all, clientAccepts, i, clientOpen, client);
    Settled(all, cacheAccepts, i, cacheOpen, cache);
    SeenIs(upstream, clientAccepts);
    SeenIs(upstream, cacheAccepts);
  }

  lemma SeenIs(items: Stream, accepts: nat -> bool)
    ensures var all := UpToError(items); Seen(items, accepts) == all[..FirstRefused(accepts, |all|)]
  {
  }

  /** One side after `i` offers: still open with all of them, or closed at its first refusal. */
  ghost predicate Side(all: Stream, accepts: nat -> bool, i: nat, open: bool, got: Stream)
  {
    && i <= |all|
    && if open then (forall j: nat :: j < i ==> accepts(j)) && got == all[..i]
       else |got| < i && !accepts(|got|) && (forall j: nat :: j < |got| ==> accepts(j)) && got == all[..|got|]
  }

  lemma Offer(all: Stream, accepts: nat -> bool, i: nat, open: bool, got: Stream)
    requires Side(all, accepts, i, open, got) && i < |all|
    ensures open && accepts(i) ==> Side(all, accepts, i + 1, true, got + [all[i]])
    ensures open && !accepts(i) ==> Side(all, accepts, i + 1, false, got)
    ensures !open ==> Side(all, accepts, i + 1, false, got)
  {
    assert all[..i + 1] == all[..i] + [all[i]];
  }

  lemma Settled(all: Stream, accepts: nat -> bool, i: nat, open: bool, got: Stream)
    requires Side(all, accepts, i, open, got) && (open ==> i == |all|)
    ensures got == all[..FirstRefused(accepts, |all|)]
  {
  }

  /** An item that follows only chunks is still read, and it is the last one exactly if it is an error or the end. */
  lemma {:induction false} StillReading(items: Stream, i: nat)
    requires i < |items| && forall j :: 0 <= j < i ==> items[j].Chunk?
    ensures i < |UpToError(items)|
    ensures items[i].Fault? ==> |UpToError(items)| == i + 1
    ensures items[i].Chunk? && i + 1 == |UpToError(items)| ==> i + 1 == |items|
  {
    if i > 0 { StillReading(items[1..], i - 1); }
  }

  // ----- what this means for the two sides -----

  lemma {:induction false} UpToErrorKeeps(items: Stream)
    ensures Payload(UpToError(items)) == Payload(items)
    ensures Clean(UpToError(items)) <==> Clean(items)
  {
    if items != [] && items[0].Chunk? {
      UpToErrorKeeps(items[1..]);
      var all := UpToError(items);
      assert all[0] == items[0] && all[1..] == UpToError(items[1..]);
      CleanStep(all);
      CleanStep(items);
    }
  }

  /** A client that stays open gets every item up to and including the first error, whatever the cache side does. */
  lemma OpenClientSeesAll(upstream: Stream, accepts: nat -> bool)
    requires forall i: nat :: i < |UpToError(upstream)| ==> accepts(i)
    ensures Seen(upstream, accepts) == UpToError(upstream)
  {
  }

  /** A chunk reaches the cache unless the channel is closed or stays full for the whole grace period; so a writer that keeps up gets everything. */
  lemma KeepingUpSeesAll(upstream: Stream, cacheSlot: nat -> CacheSlot)
    requires forall i: nat :: i < |UpToError(upstream)| ==> cacheSlot(i) == Free || cacheSlot(i) == FullThenFree
    ensures Seen(upstream, CacheAccepts(cacheSlot)) == UpToError(upstream)
  {
    OpenClientSeesAll(upstream, CacheAccepts(cacheSlot));
  }

  /** A closed or stuck channel ends the cache's share before that item. */
  lemma RefusedItemEndsShare(upstream: Stream, cacheSlot: nat -> CacheSlot, i: nat)
    requires i < |UpToError(upstream)| && (cacheSlot(i).Closed? || cacheSlot(i).FullThenClosed? || cacheSlot(i).FullThenTimeout?)
    ensures |Seen(upstream, CacheAccepts(cacheSlot))| <= i
  {
    assert !CacheAccepts(cacheSlot)(i);
  }

  /** Whatever the schedule, what the cache writer is given is faithful when the upstream is. */
  lemma SeenIsFaithful(content: Bytes, offset: nat, upstream: Stream, accepts: nat -> bool)
    requires Faithful(content, offset, upstream)
    ensures Faithful(content, offset, Seen(upstream, accepts))
  {
    var all := UpToError(upstream);
    UpToErrorKeeps(upstream);
    FaithfulPrefix(content, offset, all, FirstRefused(accepts, |all|));
  }
}
