/** The in-memory cache of verified pieces (p2p.rs): first in, first out, bounded in bytes. */
module PieceCache {
  import opened Base

  const MAX_VERIFIED_PIECE_CACHE_BYTES: nat := 16 * 1024 * 1024

  datatype Cache = Cache(entries: map<nat, Bytes>, order: seq<nat>, bytes: nat)

  const EMPTY_CACHE := Cache(map[], [], 0)

  function Size(entries: map<nat, Bytes>, order: seq<nat>): nat
    requires forall i :: 0 <= i < |order| ==> order[i] in entries
  {
    if order == [] then 0 else |entries[order[0]]| + Size(entries, order[1..])
  }

  predicate Valid(c: Cache)
  {
    && (forall i :: 0 <= i < |c.order| ==> c.order[i] in c.entries)
    && (forall k :: k in c.entries ==> k in c.order)
    && (forall i, j :: 0 <= i < j < |c.order| ==> c.order[i] != c.order[j])
    && c.bytes == Size(c.entries, c.order) <= MAX_VERIFIED_PIECE_CACHE_BYTES
  }

  /** How many of the oldest pieces make room for `need` more bytes. */
  function Evictions(c: Cache, need: nat): (n: nat)
    ensures n <= |c.order|
    decreases |c.order|
  {
    if c.bytes + need <= MAX_VERIFIED_PIECE_CACHE_BYTES || c.order == [] then 0
    else 1 + Evictions(PopOldest(c), need)
  }

  function PopOldest(c: Cache): Cache
    requires c.order != []
  {
    var oldest := c.order[0];
    Cache(c.entries - {oldest}, c.order[1..],
          if oldest in c.entries then Max(0, c.bytes - |c.entries[oldest]|) else c.bytes)
  }

  function Trim(c: Cache, n: nat): Cache
    requires n <= |c.order|
    decreases n
  {
    if n == 0 then c else Trim(PopOldest(c), n - 1)
  }

  function Insert(c: Cache, index: nat, piece: Bytes): Cache
  {
    if index in c.entries || |piece| > MAX_VERIFIED_PIECE_CACHE_BYTES then c
    else
      var room := Trim(c, Evictions(c, |piece|));
      Cache(room.entries[index := piece], room.order + [index], room.bytes + |piece|)
  }

  lemma {:induction false} SizeSame(a: map<nat, Bytes>, b: map<nat, Bytes>, order: seq<nat>)
    requires forall i :: 0 <= i < |order| ==> order[i] in a && order[i] in b && a[order[i]] == b[order[i]]
    ensures Size(a, order) == Size(b, order)
  {
    if order != [] { SizeSame(a, b, order[1..]); }
  }

  lemma {:induction false} SizeSnoc(entries: map<nat, Bytes>, order: seq<nat>, k: nat)
    requires k in entries && forall i :: 0 <= i < |order| ==> order[i] in entries
    ensures Size(entries, order + [k]) == Size(entries, order) + |entries[k]|
  {
    if order != [] {
      assert (order + [k])[1..] == order[1..] + [k];
      SizeSnoc(entries, order[1..], k);
    }
  }

  lemma PopValid(c: Cache)
    requires Valid(c) && c.order != []
    ensures Valid(PopOldest(c)) && PopOldest(c).order == c.order[1..]
    ensures forall k :: k in PopOldest(c).entries ==> k in c.entries && PopOldest(c).entries[k] == c.entries[k]
  {
    SizeSame(c.entries, c.entries - {c.order[0]}, c.order[1..]);
  }

  lemma KeysAreOrder(c: Cache)
    requires Valid(c)
    ensures c.order[0..] == c.order && forall k :: k in c.entries <==> k in c.order
  {
  }

  /** Trimming drops exactly the oldest pieces and keeps every other one unchanged. */
  lemma {:induction false} TrimKeeps(c: Cache, n: nat)
    requires Valid(c) && n <= |c.order|
    ensures Valid(Trim(c, n)) && Trim(c, n).order == c.order[n..]
    ensures forall k :: k in Trim(c, n).entries <==> k in c.order[n..]
    ensures forall k :: k in Trim(c, n).entries ==> k in c.entries && Trim(c, n).entries[k] == c.entries[k]
    decreases n
  {
    hide Valid, PopOldest;
    if n > 0 {
      PopValid(c);
      TrimKeeps(PopOldest(c), n - 1);
      assert c.order[1..][n - 1..] == c.order[n..];
    } else {
      KeysAreOrder(c);
    }
  }

  lemma EmptyIsSmall(c: Cache)
    requires Valid(c) && c.order == []
    ensures c.bytes == 0
  {
  }

  /** The evictions are just enough: after them the piece fits, after one fewer it does not. */
  lemma {:induction false} EvictionsSuffice(c: Cache, need: nat)
    requires Valid(c) && need <= MAX_VERIFIED_PIECE_CACHE_BYTES
    ensures var n := Evictions(c, need);
      && Trim(c, n).bytes + need <= MAX_VERIFIED_PIECE_CACHE_BYTES
      && (n > 0 ==> Trim(c, n - 1).bytes + need > MAX_VERIFIED_PIECE_CACHE_BYTES)
    decreases |c.order|
  {
    hide Valid, PopOldest;
    if c.order == [] {
      EmptyIsSmall(c);
    } else {
      PopValid(c);
      if c.bytes + need > MAX_VERIFIED_PIECE_CACHE_BYTES { EvictionsSuffice(PopOldest(c), need); }
    }
  }

  /** Adding a new piece that fits. */
  lemma AppendValid(c: Cache, index: nat, piece: Bytes)
    requires Valid(c) && index !in c.entries && c.bytes + |piece| <= MAX_VERIFIED_PIECE_CACHE_BYTES
    ensures Valid(Cache(c.entries[index := piece], c.order + [index], c.bytes + |piece|))
  {
    var entries := c.entries[index := piece];
    SizeSame(c.entries, entries, c.order);
    SizeSnoc(entries, c.order, index);
  }

  predicate Cacheable(c: Cache, index: nat, piece: Bytes)
  {
    index !in c.entries && |piece| <= MAX_VERIFIED_PIECE_CACHE_BYTES
  }

  lemma InsertValid(c: Cache, index: nat, piece: Bytes)
    requires Valid(c)
    ensures Valid(Insert(c, index, piece))
  {
    hide Evictions, Trim, Valid;
    if Cacheable(c, index, piece) {
      var n := Evictions(c, |piece|);
      TrimKeeps(c, n);
      EvictionsSuffice(c, |piece|);
      AppendValid(Trim(c, n), index, piece);
    }
  }

  /** A piece that fits is cached at the cost of the fewest oldest pieces; every other piece stays as it was. */
  lemma InsertKeeps(c: Cache, index: nat, piece: Bytes)
    requires Valid(c) && Cacheable(c, index, piece)
    ensures var c' := Insert(c, index, piece);
      var n := Evictions(c, |piece|);
      && c'.order == c.order[n..] + [index]
      && index in c'.entries && c'.entries[index] == piece
      && (forall k :: k in c'.entries && k != index ==> k in c.entries && c'.entries[k] == c.entries[k])
      && (forall k :: k in c.entries ==> (k in c'.entries <==> k in c.order[n..]))
      && (n > 0 ==> Trim(c, n - 1).bytes + |piece| > MAX_VERIFIED_PIECE_CACHE_BYTES)
  {
    hide Evictions, Trim, Valid;
    TrimKeeps(c, Evictions(c, |piece|));
    EvictionsSuffice(c, |piece|);
  }

  /** One turn of the eviction loop. */
  lemma PopStep(c: Cache, need: nat)
    ensures if c.bytes + need > MAX_VERIFIED_PIECE_CACHE_BYTES && c.order != []
      then Trim(c, Evictions(c, need)) == Trim(PopOldest(c), Evictions(PopOldest(c), need))
      else Trim(c, Evictions(c, need)) == c
  {
  }

  class VerifiedPieceCache {
    var entries: map<nat, Bytes>
    var order: seq<nat>
    var bytes: nat

    function State(): Cache
      reads this
    {
      Cache(entries, order, bytes)
    }

    constructor ()
      ensures State() == EMPTY_CACHE && Valid(State())
    {
      entries, order, bytes := map[], [], 0;
    }

    method Put(index: nat, piece: Bytes) returns (kept: Bytes)
      requires Valid(State())
      modifies this
      ensures State() == Insert(old(State()), index, piece) && Valid(State())
      ensures kept == if index in old(entries) then old(entries)[index] else piece
    {
      InsertValid(State(), index, piece);
      hide Valid;
      if index in entries { return entries[index]; }
      if |piece| > MAX_VERIFIED_PIECE_CACHE_BYTES { return piece; }
      ghost var room := Trim(State(), Evictions(State(), |piece|));
      hide Trim, Evictions;
      while bytes + |piece| > MAX_VERIFIED_PIECE_CACHE_BYTES && order != []
        invariant Trim(State(), Evictions(State(), |piece|)) == room
        decreases |order|
      {
        ghost var before := State();
        PopStep(before, |piece|);
        var oldest := order[0];
        order := order[1..];
        if oldest in entries { bytes := Max(0, bytes - |entries[oldest]|); }
        entries := entries - {oldest};
        assert State() == PopOldest(before);
      }
      PopStep(State(), |piece|);
      bytes := bytes + |piece|;
      order := order + [index];
      entries := entries[index := piece];
      return piece;
    }
  }
}
