/** Machine integers, results and byte streams shared by the other modules. */
module Base {

  const U64_MAX: int := 0xFFFF_FFFF_FFFF_FFFF

  /** The end sentinel of `bytes=N-` (utils/range.rs). */
  const OPEN_ENDED: int := U64_MAX

  type u64 = x: int | 0 <= x <= 0xFFFF_FFFF_FFFF_FFFF
  type Byte = x: int | 0 <= x < 256
  type Bytes = seq<Byte>
  type Key = string

  datatype Option<+T> = None | Some(value: T)

  datatype Error = InvalidRange | BadRequest | Network | Storage | Malformed | Expired

  datatype Result<+T> = Ok(value: T) | Err(error: Error)

  function Min(a: int, b: int): int { if a <= b then a else b }

  function Max(a: int, b: int): int { if a >= b then a else b }

  function SatAdd(a: u64, b: u64): u64 { Min(a + b, U64_MAX) }

  function SatSub(a: u64, b: u64): u64 { Max(a - b, 0) }

  /** One item of a fallible byte stream. */
  datatype Item = Chunk(bytes: Bytes) | Fault(error: Error)

  type Stream = seq<Item>

  /** The bytes a consumer that stops at the first error has received. */
  function Payload(items: Stream): Bytes
  {
    if items == [] || items[0].Fault? then [] else items[0].bytes + Payload(items[1..])
  }

  predicate Clean(items: Stream)
  {
    forall i :: 0 <= i < |items| ==> items[i].Chunk?
  }

  /** `bytes` are the content's bytes at `offset`. */
  predicate At(content: Bytes, offset: nat, bytes: Bytes)
  {
    offset + |bytes| <= |content| && content[offset..offset + |bytes|] == bytes
  }

  /** The stream carries `content` from `offset` on, up to its first error. */
  predicate Faithful(content: Bytes, offset: nat, items: Stream)
  {
    Payload(items) == [] || At(content, offset, Payload(items))
  }

  lemma CleanStep(items: Stream)
    requires items != []
    ensures Clean(items) <==> items[0].Chunk? && Clean(items[1..])
  {
    assert forall i :: 0 < i < |items| ==> items[i] == items[1..][i - 1];
  }

  /** Appending an item extends the payload exactly when no error came before. */
  lemma {:induction false} PayloadSnoc(items: Stream, item: Item)
    ensures Clean(items) && item.Chunk? ==> Payload(items + [item]) == Payload(items) + item.bytes
    ensures !Clean(items) || item.Fault? ==> Payload(items + [item]) == Payload(items)
  {
    if items == [] {
      assert (items + [item])[1..] == [];
    } else {
      assert (items + [item])[1..] == items[1..] + [item];
      PayloadSnoc(items[1..], item);
      CleanStep(items);
    }
  }

  lemma {:induction false} PayloadPrefix(items: Stream, k: nat)
    requires k <= |items|
    ensures Payload(items[..k]) <= Payload(items)
  {
    if k > 0 && items[0].Chunk? {
      assert items[..k][1..] == items[1..][..k - 1];
      PayloadPrefix(items[1..], k - 1);
    }
  }

  /** A stream cut short stays faithful. */
  lemma FaithfulPrefix(content: Bytes, offset: nat, items: Stream, k: nat)
    requires k <= |items| && Faithful(content, offset, items)
    ensures Faithful(content, offset, items[..k])
  {
    PayloadPrefix(items, k);
    var p, q := Payload(items), Payload(items[..k]);
    if q != [] {
      assert p == q + p[|q|..];
      AtSplit(content, offset, q, p[|q|..]);
    }
  }

  lemma AtSplit(content: Bytes, offset: nat, a: Bytes, b: Bytes)
    ensures At(content, offset, a + b) <==> At(content, offset, a) && At(content, offset + |a|, b)
  {
    if offset + |a| + |b| <= |content| {
      var whole := content[offset..offset + |a| + |b|];
      assert whole == content[offset..offset + |a|] + content[offset + |a|..offset + |a| + |b|];
      assert whole[..|a|] == content[offset..offset + |a|];
      assert whole[|a|..] == content[offset + |a|..offset + |a| + |b|];
      assert (a + b)[..|a|] == a && (a + b)[|a|..] == b;
      assert offset + |a + b| == offset + |a| + |b|;
    }
  }
}
