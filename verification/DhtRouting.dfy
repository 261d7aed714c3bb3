/** The DHT routing table (p2p_network.rs, DhtRoutingTable): a streaming top-k by XOR distance. */
module DhtRouting {
  import opened Base

  const ID_BYTES: nat := 20

  type Id = s: seq<bv8> | |s| == 20 witness seq(20, _ => 0)

  datatype Address = Address(host: string, port: nat)

  datatype Node = Node(id: Id, address: Address)

  function XorDistance(left: Id, right: Id): (d: Id)
    ensures forall i :: 0 <= i < ID_BYTES ==> d[i] == left[i] ^ right[i]
  {
    seq(ID_BYTES, i requires 0 <= i < ID_BYTES => left[i] ^ right[i])
  }

  /** Byte arrays compare lexicographically. */
  predicate Less(a: seq<bv8>, b: seq<bv8>)
  {
    b != [] && (a == [] || a[0] < b[0] || (a[0] == b[0] && Less(a[1..], b[1..])))
  }

  lemma {:induction false} LessTotal(a: seq<bv8>, b: seq<bv8>)
    requires |a| == |b|
    ensures Less(a, b) || Less(b, a) || a == b
    ensures !(Less(a, b) && Less(b, a)) && (Less(a, b) || Less(b, a) ==> a != b)
  {
    if a != [] && a[0] == b[0] {
      LessTotal(a[1..], b[1..]);
      assert a == [a[0]] + a[1..] && b == [b[0]] + b[1..];
    }
  }

  lemma {:induction false} LessTransitive(a: seq<bv8>, b: seq<bv8>, c: seq<bv8>)
    requires |a| == |b| == |c| && Less(a, b) && Less(b, c)
    ensures Less(a, c)
  {
    if a != [] && a[0] == b[0] == c[0] { LessTransitive(a[1..], b[1..], c[1..]); }
  }

  function Power(n: nat): nat { if n == 0 then 1 else 256 * Power(n - 1) }

  /** A byte array read as an unsigned big-endian number. */
  function Number(s: seq<bv8>): nat
  {
    if s == [] then 0 else s[0] as nat * Power(|s| - 1) + Number(s[1..])
  }

  lemma {:induction false} NumberBounded(s: seq<bv8>)
    ensures Number(s) < Power(|s|)
  {
    if s != [] {
      NumberBounded(s[1..]);
      DigitBound(s[0] as nat, Power(|s| - 1));
    }
  }

  lemma DigitBound(d: nat, p: nat)
    requires d < 256
    ensures d * p + p <= 256 * p
  {
  }

  lemma {:induction false} DigitOrder(a: nat, b: nat, p: nat)
    requires a < b
    ensures a * p + p <= b * p
  {
    assert b * p == (b - 1) * p + p;
    if a < b - 1 { DigitOrder(a, b - 1, p); }
  }

  /** A leading digit decides unless it is equal. */
  lemma LeadingDigit(x: nat, y: nat, p: nat, m: nat, n: nat)
    requires m < p && n < p
    ensures x * p + m < y * p + n <==> x < y || (x == y && m < n)
  {
    if x < y { DigitOrder(x, y, p); }
    if y < x { DigitOrder(y, x, p); }
  }

  /** Comparing byte arrays compares the numbers they spell. */
  lemma {:induction false} LessIsNumeric(a: seq<bv8>, b: seq<bv8>)
    requires |a| == |b|
    ensures Less(a, b) <==> Number(a) < Number(b)
  {
    if a != [] {
      hide Power;
      LessIsNumeric(a[1..], b[1..]);
      NumberBounded(a[1..]);
      NumberBounded(b[1..]);
      LeadingDigit(a[0] as nat, b[0] as nat, Power(|a| - 1), Number(a[1..]), Number(b[1..]));
      ByteOrder(a[0], b[0]);
    }
  }

  lemma ByteOrder(x: bv8, y: bv8)
    ensures x < y <==> x as nat < y as nat
    ensures x == y <==> x as nat == y as nat
  {
  }

  /** `a` is strictly nearer to `target` than `b`. */
  predicate Closer(target: Id, a: Id, b: Id)
  {
    Less(XorDistance(a, target), XorDistance(b, target))
  }

  lemma XorInjective(a: Id, b: Id, target: Id)
    ensures XorDistance(a, target) == XorDistance(b, target) ==> a == b
  {
  }

  /** Distinct ids are at distinct distances, so nearness is a strict total order. */
  lemma CloserTotal(target: Id, a: Id, b: Id)
    ensures Closer(target, a, b) || Closer(target, b, a) || a == b
    ensures !(Closer(target, a, b) && Closer(target, b, a)) && !Closer(target, a, a)
  {
    LessTotal(XorDistance(a, target), XorDistance(b, target));
    LessTotal(XorDistance(a, target), XorDistance(a, target));
    XorInjective(a, b, target);
  }

  lemma CloserTransitive(target: Id, a: Id, b: Id, c: Id)
    requires Closer(target, a, b) && Closer(target, b, c)
    ensures Closer(target, a, c)
  {
    LessTransitive(XorDistance(a, target), XorDistance(b, target), XorDistance(c, target));
  }

  // ----- what the table should hold -----

  /** What the table is built with: the local id, the capacity and the address filter. */
  datatype Setup = Setup(localId: Id, capacity: nat, isPublic: Address -> bool)

  predicate Acceptable(setup: Setup, node: Node)
  {
    node.id != setup.localId && setup.isPublic(node.address)
  }

  predicate Offered(setup: Setup, offers: seq<Node>, id: Id)
  {
    exists k :: 0 <= k < |offers| && offers[k].id == id && Acceptable(setup, offers[k])
  }

  /** The address of the latest acceptable offer of the id. */
  function Latest(setup: Setup, offers: seq<Node>, id: Id): Option<Address>
  {
    if offers == [] then None
    else
      var last := offers[|offers| - 1];
      if last.id == id && Acceptable(setup, last) then Some(last.address) else Latest(setup, offers[..|offers| - 1], id)
  }

  predicate Lists(nodes: seq<Node>, id: Id)
  {
    exists i :: 0 <= i < |nodes| && nodes[i].id == id
  }

  /** The nodes are the `capacity` nearest of all ids ever offered, with their latest addresses. */
  ghost predicate TopK(setup: Setup, offers: seq<Node>, nodes: seq<Node>)
  {
    && |nodes| <= setup.capacity
    && (forall i, j :: 0 <= i < j < |nodes| ==> nodes[i].id != nodes[j].id)
    && (forall i :: 0 <= i < |nodes| ==>
         Offered(setup, offers, nodes[i].id) && Latest(setup, offers, nodes[i].id) == Some(nodes[i].address))
    && (forall id :: Offered(setup, offers, id) && !Lists(nodes, id) ==>
         |nodes| == setup.capacity && forall i :: 0 <= i < |nodes| ==> Closer(setup.localId, nodes[i].id, id))
  }

  lemma OfferedSnoc(setup: Setup, offers: seq<Node>, node: Node, id: Id)
    ensures Offered(setup, offers + [node], id) <==> Offered(setup, offers, id) || (node.id == id && Acceptable(setup, node))
    ensures Latest(setup, offers + [node], id) ==
      if node.id == id && Acceptable(setup, node) then Some(node.address) else Latest(setup, offers, id)
  {
    var more := offers + [node];
    assert more[..|offers|] == offers;
    if k :| 0 <= k < |offers| && offers[k].id == id && Acceptable(setup, offers[k]) { assert more[k] == offers[k]; }
    if node.id == id && Acceptable(setup, node) { assert more[|offers|] == node; }
  }

  /** An offer that is filtered out changes nothing. */
  lemma Ignored(setup: Setup, offers: seq<Node>, nodes: seq<Node>, node: Node)
    requires TopK(setup, offers, nodes) && !Acceptable(setup, node)
    ensures TopK(setup, offers + [node], nodes)
  {
    forall id ensures Offered(setup, offers + [node], id) == Offered(setup, offers, id)
      && Latest(setup, offers + [node], id) == Latest(setup, offers, id) { OfferedSnoc(setup, offers, node, id); }
  }

  /** Another offer of a listed id updates its address. */
  lemma Refreshed(setup: Setup, offers: seq<Node>, nodes: seq<Node>, node: Node, at: nat)
    requires TopK(setup, offers, nodes) && Acceptable(setup, node) && at < |nodes| && nodes[at].id == node.id
    ensures TopK(setup, offers + [node], nodes[at := nodes[at].(address := node.address)])
  {
    hide Latest, Acceptable, Closer;
    var after := nodes[at := nodes[at].(address := node.address)];
    assert forall i :: 0 <= i < |nodes| ==> after[i].id == nodes[i].id;
    forall i | 0 <= i < |after|
      ensures Offered(setup, offers + [node], after[i].id) && Latest(setup, offers + [node], after[i].id) == Some(after[i].address)
    {
      OfferedSnoc(setup, offers, node, after[i].id);
    }
    forall id | Offered(setup, offers + [node], id) && !Lists(after, id)
      ensures |after| == setup.capacity && forall i :: 0 <= i < |after| ==> Closer(setup.localId, after[i].id, id)
    {
      OfferedSnoc(setup, offers, node, id);
      assert after[at].id == node.id;
      SameIds(nodes, after, id);
    }
  }

  lemma MoreIds(a: seq<Node>, node: Node, id: Id)
    ensures Lists(a, id) ==> Lists(a + [node], id)
  {
    if i :| 0 <= i < |a| && a[i].id == id { assert (a + [node])[i].id == id; }
  }

  lemma SameIds(a: seq<Node>, b: seq<Node>, id: Id)
    requires |a| == |b| && forall i :: 0 <= i < |a| ==> a[i].id == b[i].id
    ensures Lists(a, id) ==> Lists(b, id)
  {
    if i :| 0 <= i < |a| && a[i].id == id { assert b[i].id == id; }
  }

  /** A new id that is no nearer than the farthest of a full table is left out. */
  lemma TooFar(setup: Setup, offers: seq<Node>, nodes: seq<Node>, node: Node, farthest: nat)
    requires TopK(setup, offers, nodes) && Acceptable(setup, node) && !Lists(nodes, node.id)
    requires |nodes| == setup.capacity && farthest < |nodes| && IsFarthest(setup.localId, nodes, farthest)
    requires !Closer(setup.localId, node.id, nodes[farthest].id)
    ensures TopK(setup, offers + [node], nodes)
  {
    hide Latest, Acceptable, Closer;
    forall i | 0 <= i < |nodes| ensures Closer(setup.localId, nodes[i].id, node.id) {
      assert nodes[farthest].id != node.id;
      CloserTotal(setup.localId, node.id, nodes[farthest].id);
      if i != farthest { CloserTransitive(setup.localId, nodes[i].id, nodes[farthest].id, node.id); }
    }
    forall id ensures Offered(setup, offers + [node], id) ==> Offered(setup, offers, id) || id == node.id
    {
      OfferedSnoc(setup, offers, node, id);
    }
    forall i | 0 <= i < |nodes|
      ensures Offered(setup, offers + [node], nodes[i].id) && Latest(setup, offers + [node], nodes[i].id) == Some(nodes[i].address)
    {
      OfferedSnoc(setup, offers, node, nodes[i].id);
    }
  }

  predicate IsFarthest(localId: Id, nodes: seq<Node>, f: nat)
    requires f < |nodes|
  {
    forall i :: 0 <= i < |nodes| && i != f ==> Closer(localId, nodes[i].id, nodes[f].id)
  }

  /** A new id joins a table that has room, or that has just dropped its farthest node, farther than the new one. */
  lemma Joins(setup: Setup, offers: seq<Node>, rest: seq<Node>, node: Node, dropped: Option<Id>)
    requires Acceptable(setup, node) && !Lists(rest, node.id) && |rest| < setup.capacity
    requires forall i, j :: 0 <= i < j < |rest| ==> rest[i].id != rest[j].id
    requires forall i :: 0 <= i < |rest| ==>
      Offered(setup, offers, rest[i].id) && Latest(setup, offers, rest[i].id) == Some(rest[i].address)
    requires dropped.None? ==> forall id :: Offered(setup, offers, id) ==> Lists(rest, id)
    requires dropped.Some? ==>
      && |rest| + 1 == setup.capacity
      && Closer(setup.localId, node.id, dropped.value)
      && (forall i :: 0 <= i < |rest| ==> Closer(setup.localId, rest[i].id, dropped.value))
      && (forall id :: Offered(setup, offers, id) && !Lists(rest, id) ==> id == dropped.value || Closer(setup.localId, dropped.value, id))
    ensures TopK(setup, offers + [node], rest + [node])
  {
    hide Latest, Acceptable, Closer;
    var after := rest + [node];
    forall i | 0 <= i < |after|
      ensures Offered(setup, offers + [node], after[i].id) && Latest(setup, offers + [node], after[i].id) == Some(after[i].address)
    {
      OfferedSnoc(setup, offers, node, after[i].id);
      if i < |rest| { assert after[i] == rest[i]; }
    }
    forall id | Offered(setup, offers + [node], id) && !Lists(after, id)
      ensures |after| == setup.capacity && forall i :: 0 <= i < |after| ==> Closer(setup.localId, after[i].id, id)
    {
      OfferedSnoc(setup, offers, node, id);
      assert after[|rest|].id == node.id;
      MoreIds(rest, node, id);
      forall i | 0 <= i < |after| ensures Closer(setup.localId, after[i].id, id) {
        if id != dropped.value { CloserTransitive(setup.localId, after[i].id, dropped.value, id); }
      }
    }
  }

  /** Removing the farthest node of a full table, as swap_remove does. */
  lemma Dropping(setup: Setup, offers: seq<Node>, nodes: seq<Node>, f: nat, rest: seq<Node>)
    requires TopK(setup, offers, nodes) && f < |nodes| && IsFarthest(setup.localId, nodes, f)
    requires rest == SwapRemove(nodes, f)
    ensures forall i, j :: 0 <= i < j < |rest| ==> rest[i].id != rest[j].id
    ensures forall i :: 0 <= i < |rest| ==> rest[i] in nodes && rest[i].id != nodes[f].id
    ensures forall id :: Lists(rest, id) <==> Lists(nodes, id) && id != nodes[f].id
  {
    hide Latest, Offered, Closer;
    var last := |nodes| - 1;
    assert forall i :: 0 <= i < |rest| ==> rest[i] == if i == f then nodes[last] else nodes[i];
    forall id ensures Lists(rest, id) <==> Lists(nodes, id) && id != nodes[f].id {
      if i :| 0 <= i < |nodes| && nodes[i].id == id && i != f { assert rest[if i == last then f else i].id == id; }
    }
  }

  function SwapRemove(nodes: seq<Node>, f: nat): seq<Node>
    requires f < |nodes|
  {
    nodes[f := nodes[|nodes| - 1]][..|nodes| - 1]
  }

  /** The table is determined: any two top-k answers for the same offers list the same ids. */
  lemma TopKUnique(setup: Setup, offers: seq<Node>, a: seq<Node>, b: seq<Node>, id: Id)
    requires TopK(setup, offers, a) && TopK(setup, offers, b)
    ensures Lists(a, id) ==> Lists(b, id)
  {
    hide Latest, Closer, Offered;
    if Lists(a, id) && !Lists(b, id) {
      var i :| 0 <= i < |a| && a[i].id == id;
      Missing(a, b, id);
      var k :| 0 <= k < |b| && !Lists(a, b[k].id);
      CloserTotal(setup.localId, id, b[k].id);
    }
  }

  function IdsOf(nodes: seq<Node>): set<Id>
  {
    set i | 0 <= i < |nodes| :: nodes[i].id
  }

  lemma {:induction false} IdsCount(nodes: seq<Node>)
    requires forall i, j :: 0 <= i < j < |nodes| ==> nodes[i].id != nodes[j].id
    ensures |IdsOf(nodes)| == |nodes|
  {
    if nodes != [] {
      var n := |nodes| - 1;
      IdsCount(nodes[..n]);
      assert nodes[n].id !in IdsOf(nodes[..n]);
      assert IdsOf(nodes) == IdsOf(nodes[..n]) + {nodes[n].id};
    }
  }

  /** If `a` lists an id that `b`, at least as long, lacks, then `b` lists one that `a` lacks. */
  lemma Missing(a: seq<Node>, b: seq<Node>, id: Id)
    requires forall i, j :: 0 <= i < j < |a| ==> a[i].id != a[j].id
    requires forall i, j :: 0 <= i < j < |b| ==> b[i].id != b[j].id
    requires |a| <= |b| && Lists(a, id) && !Lists(b, id)
    ensures exists k :: 0 <= k < |b| && !Lists(a, b[k].id)
  {
    IdsCount(a);
    IdsCount(b);
    if forall k :: 0 <= k < |b| ==> Lists(a, b[k].id) {
      assert IdsOf(b) <= IdsOf(a) - {id};
      SubsetSize(IdsOf(b), IdsOf(a) - {id});
    }
  }

  lemma {:induction false} SubsetSize<T>(a: set<T>, b: set<T>)
    requires a <= b
    ensures |a| <= |b|
  {
    if a != {} {
      var x :| x in a;
      SubsetSize(a - {x}, b - {x});
    }
  }

  // ----- the table -----

  class DhtRoutingTable {
    const setup: Setup
    var nodes: seq<Node>
    /** Every node ever passed to `Insert`, in order. */
    ghost var offers: seq<Node>

    ghost predicate Valid()
      reads this
    {
      setup.capacity > 0 && TopK(setup, offers, nodes)
    }

    constructor (setup: Setup)
      requires 0 < setup.capacity <= 4096
      ensures Valid() && offers == [] && nodes == [] && this.setup == setup
    {
      this.setup := setup;
      nodes, offers := [], [];
    }

    method Insert(node: Node) returns (kept: bool)
      requires Valid()
      modifies this
      ensures Valid() && offers == old(offers) + [node]
      ensures kept <==> Acceptable(setup, node) && Lists(nodes, node.id)
    {
      offers := offers + [node];
      if !Acceptable(setup, node) {
        Ignored(setup, old(offers), nodes, node);
        return false;
      }
      var at := Find(node.id);
      if at < |nodes| {
        Refreshed(setup, old(offers), nodes, node, at);
        nodes := nodes[at := nodes[at].(address := node.address)];
        assert nodes[at].id == node.id;
        return true;
      }
      if |nodes| == setup.capacity {
        var farthest := Farthest();
        if !Closer(setup.localId, node.id, nodes[farthest].id) {
          TooFar(setup, old(offers), nodes, node, farthest);
          return false;
        }
        Replacing(setup, old(offers), nodes, node, farthest);
        nodes := SwapRemove(nodes, farthest);
      } else {
        Joins(setup, old(offers), nodes, node, None);
      }
      nodes := nodes + [node];
      assert nodes[|nodes| - 1].id == node.id;
      return true;
    }

    method Find(id: Id) returns (at: nat)
      ensures at <= |nodes| && (at < |nodes| ==> nodes[at].id == id) && (at == |nodes| ==> !Lists(nodes, id))
    {
      at := 0;
      while at < |nodes|
        invariant 0 <= at <= |nodes| && forall i :: 0 <= i < at ==> nodes[i].id != id
      {
        if nodes[at].id == id { return; }
        at := at + 1;
      }
    }

    method Farthest() returns (f: nat)
      requires nodes != [] && forall i, j :: 0 <= i < j < |nodes| ==> nodes[i].id != nodes[j].id
      ensures f < |nodes| && IsFarthest(setup.localId, nodes, f)
    {
      hide Closer;
      f := 0;
      for i := 1 to |nodes|
        invariant f < i
        invariant forall k :: 0 <= k < i && k != f ==> Closer(setup.localId, nodes[k].id, nodes[f].id)
      {
        CloserTotal(setup.localId, nodes[f].id, nodes[i].id);
        if Closer(setup.localId, nodes[f].id, nodes[i].id) {
          forall k | 0 <= k < i && k != f ensures Closer(setup.localId, nodes[k].id, nodes[i].id) {
            CloserTransitive(setup.localId, nodes[k].id, nodes[f].id, nodes[i].id);
          }
          f := i;
        }
      }
    }

    /** The nearest `limit` nodes to the target, nearest first. */
    method Closest(target: Id, limit: nat) returns (nearest: seq<Node>)
      requires forall i, j :: 0 <= i < j < |nodes| ==> nodes[i].id != nodes[j].id
      ensures |nearest| == Min(limit, |nodes|)
      ensures forall i, j :: 0 <= i < j < |nearest| ==> Closer(target, nearest[i].id, nearest[j].id)
      ensures forall i :: 0 <= i < |nearest| ==> nearest[i] in nodes
      ensures forall n, i :: n in nodes && n !in nearest && 0 <= i < |nearest| ==> Closer(target, nearest[i].id, n.id)
    {
      SortSorts(target, nodes);
      var sorted := SortByDistance(target, nodes);
      nearest := sorted[..Min(limit, |nodes|)];
      forall n, i | n in nodes && n !in nearest && 0 <= i < |nearest| ensures Closer(target, nearest[i].id, n.id) {
        assert n in sorted;
        var k :| 0 <= k < |sorted| && sorted[k] == n;
        assert forall m :: 0 <= m < |nearest| ==> nearest[m] == sorted[m] && nearest[m] in nearest;
      }
    }
  }

  /** DhtRoutingTable::new, with its capacity limits. */
  method NewRoutingTable(setup: Setup) returns (r: Result<DhtRoutingTable>)
    ensures if 0 < setup.capacity <= 4096 then r.Ok? else r == Err(BadRequest)
    ensures r.Ok? ==> fresh(r.value) && r.value.Valid() && r.value.offers == [] && r.value.setup == setup
  {
    if setup.capacity == 0 || setup.capacity > 4096 { return Err(BadRequest); }
    var table := new DhtRoutingTable(setup);
    return Ok(table);
  }

  /** A nearer id replaces the farthest one of a full table. */
  lemma Replacing(setup: Setup, offers: seq<Node>, nodes: seq<Node>, node: Node, f: nat)
    requires TopK(setup, offers, nodes) && Acceptable(setup, node) && !Lists(nodes, node.id)
    requires |nodes| == setup.capacity && f < |nodes| && IsFarthest(setup.localId, nodes, f)
    requires Closer(setup.localId, node.id, nodes[f].id)
    ensures TopK(setup, offers + [node], SwapRemove(nodes, f) + [node])
  {
    hide Latest, Acceptable, Closer, Offered;
    var rest := SwapRemove(nodes, f);
    Dropping(setup, offers, nodes, f, rest);
    Joins(setup, offers, rest, node, Some(nodes[f].id));
  }

  function InsertSorted(target: Id, node: Node, sorted: seq<Node>): seq<Node>
  {
    if sorted == [] || Closer(target, node.id, sorted[0].id) then [node] + sorted
    else [sorted[0]] + InsertSorted(target, node, sorted[1..])
  }

  function SortByDistance(target: Id, nodes: seq<Node>): seq<Node>
  {
    if nodes == [] then [] else InsertSorted(target, nodes[0], SortByDistance(target, nodes[1..]))
  }

  ghost predicate Ascending(target: Id, nodes: seq<Node>)
  {
    forall i, j :: 0 <= i < j < |nodes| ==> Closer(target, nodes[i].id, nodes[j].id)
  }

  lemma {:induction false} InsertSorts(target: Id, node: Node, sorted: seq<Node>)
    requires Ascending(target, sorted) && !Lists(sorted, node.id)
    ensures var after := InsertSorted(target, node, sorted);
      |after| == |sorted| + 1 && (forall x :: x in after <==> x == node || x in sorted) && Ascending(target, after)
  {
    hide Closer;
    var after := InsertSorted(target, node, sorted);
    if sorted == [] {
    } else if Closer(target, node.id, sorted[0].id) {
      forall k | 0 <= k < |sorted| ensures Closer(target, node.id, sorted[k].id) {
        if k > 0 { CloserTransitive(target, node.id, sorted[0].id, sorted[k].id); }
      }
    } else {
      var tail := sorted[1..];
      assert forall i :: 0 <= i < |tail| ==> tail[i] == sorted[i + 1];
      InsertSorts(target, node, tail);
      var rest := InsertSorted(target, node, tail);
      assert sorted[0].id != node.id;
      CloserTotal(target, node.id, sorted[0].id);
      forall k | 0 <= k < |rest| ensures Closer(target, sorted[0].id, rest[k].id) {
        assert rest[k] in rest;
        if rest[k] != node { var m :| 0 <= m < |tail| && tail[m] == rest[k]; }
      }
      assert sorted == [sorted[0]] + tail;
    }
  }

  /** The sort puts the same nodes in strictly increasing distance. */
  lemma {:induction false} SortSorts(target: Id, nodes: seq<Node>)
    requires forall i, j :: 0 <= i < j < |nodes| ==> nodes[i].id != nodes[j].id
    ensures var sorted := SortByDistance(target, nodes);
      |sorted| == |nodes| && (forall x :: x in sorted <==> x in nodes) && Ascending(target, sorted)
  {
    hide Closer;
    if nodes != [] {
      var tail := nodes[1..];
      assert forall i :: 0 <= i < |tail| ==> tail[i] == nodes[i + 1];
      SortSorts(target, tail);
      var sorted := SortByDistance(target, tail);
      forall k | 0 <= k < |sorted| ensures sorted[k].id != nodes[0].id {
        assert sorted[k] in tail;
        var m :| 0 <= m < |tail| && tail[m] == sorted[k];
      }
      InsertSorts(target, nodes[0], sorted);
      assert nodes == [nodes[0]] + tail;
    }
  }
}
