/** Peer wire messages of p2p_network.rs (BEP 3, and the extended message 20 of BEP 10). */
module PeerWire {
  import opened Base

  const MAX_PEER_MESSAGE_BYTES: nat := 1024 * 1024

  type u32 = x: int | 0 <= x <= 0xFFFF_FFFF
  type u16 = x: int | 0 <= x <= 0xFFFF

  datatype PeerMessage =
    | KeepAlive
    | Choke
    | Unchoke
    | Interested
    | NotInterested
    | Have(piece: u32)
    | Bitfield(bits: Bytes)
    | Request(index: u32, begin: u32, length: u32)
    | Piece(index: u32, begin: u32, block: Bytes)
    | Cancel(index: u32, begin: u32, length: u32)
    | Port(port: u16)
    | Extended(extensionId: Byte, payload: Bytes)

  function Be16(n: u16): (b: Bytes)
    ensures |b| == 2
  {
    [n / 256, n % 256]
  }

  function FromBe16(b: Bytes): u16
    requires |b| == 2
  {
    var high: int, low: int := b[0], b[1];
    high * 256 + low
  }

  function Be32(n: u32): (b: Bytes)
    ensures |b| == 4
  {
    Be16(n / 0x1_0000) + Be16(n % 0x1_0000)
  }

  function FromBe32(b: Bytes): u32
    requires |b| == 4
  {
    var high: int, low: int := FromBe16(b[..2]), FromBe16(b[2..]);
    high * 0x1_0000 + low
  }

  lemma Be16Inverse(n: u16)
    ensures FromBe16(Be16(n)) == n
  {
  }

  lemma FromBe16Inverse(b: Bytes)
    requires |b| == 2
    ensures Be16(FromBe16(b)) == b
  {
  }

  lemma Be32Inverse(n: u32)
    ensures FromBe32(Be32(n)) == n
  {
    hide Be16, FromBe16;
    var high, low := Be16(n / 0x1_0000), Be16(n % 0x1_0000);
    assert (high + low)[..2] == high && (high + low)[2..] == low;
    Be16Inverse(n / 0x1_0000);
    Be16Inverse(n % 0x1_0000);
  }

  lemma FromBe32Inverse(b: Bytes)
    requires |b| == 4
    ensures Be32(FromBe32(b)) == b
  {
    hide Be16, FromBe16;
    FromBe16Inverse(b[..2]);
    FromBe16Inverse(b[2..]);
    assert b == b[..2] + b[2..];
  }

  /** The bytes after the length prefix, or a refusal of oversized fields. */
  function EncodePayload(m: PeerMessage): Result<Bytes>
  {
    match m
    case KeepAlive => Ok([])
    case Choke => Ok([0])
    case Unchoke => Ok([1])
    case Interested => Ok([2])
    case NotInterested => Ok([3])
    case Have(piece) => Ok([4] + Be32(piece))
    case Bitfield(bits) => if |bits| > MAX_PEER_MESSAGE_BYTES - 1 then Err(BadRequest) else Ok([5] + bits)
    case Request(index, begin, length) => Ok([6] + (Be32(index) + (Be32(begin) + Be32(length))))
    case Piece(index, begin, block) =>
      if |block| > MAX_PEER_MESSAGE_BYTES - 9 then Err(BadRequest) else Ok([7] + (Be32(index) + (Be32(begin) + block)))
    case Cancel(index, begin, length) => Ok([8] + (Be32(index) + (Be32(begin) + Be32(length))))
    case Port(port) => Ok([9] + Be16(port))
    case Extended(id, payload) =>
      if |payload| > MAX_PEER_MESSAGE_BYTES - 2 then Err(BadRequest) else Ok([20, id] + payload)
  }

  function EncodePeerMessage(m: PeerMessage): Result<Bytes>
  {
    match EncodePayload(m)
    case Err(error) => Err(error)
    case Ok(payload) => if |payload| > 0xFFFF_FFFF then Err(BadRequest) else Ok(Be32(|payload|) + payload)
  }

  function ParsePayload(payload: Bytes): Result<PeerMessage>
    requires payload != []
  {
    var id, body := payload[0], payload[1..];
    if id == 0 && body == [] then Ok(Choke)
    else if id == 1 && body == [] then Ok(Unchoke)
    else if id == 2 && body == [] then Ok(Interested)
    else if id == 3 && body == [] then Ok(NotInterested)
    else if id == 4 then if |body| == 4 then Ok(Have(FromBe32(body))) else Err(Malformed)
    else if id == 5 then Ok(Bitfield(body))
    else if id == 6 && |body| == 12 then Ok(Request(FromBe32(body[..4]), FromBe32(body[4..8]), FromBe32(body[8..])))
    else if id == 7 && |body| >= 8 then Ok(Piece(FromBe32(body[..4]), FromBe32(body[4..8]), body[8..]))
    else if id == 8 && |body| == 12 then Ok(Cancel(FromBe32(body[..4]), FromBe32(body[4..8]), FromBe32(body[8..])))
    else if id == 9 && |body| == 2 then Ok(Port(FromBe16(body)))
    else if id == 20 && body != [] then Ok(Extended(body[0], body[1..]))
    else Err(Malformed)
  }

  function ParsePeerMessage(input: Bytes): Result<PeerMessage>
  {
    if |input| < 4 then Err(Malformed)
    else
      var length := FromBe32(input[..4]);
      if length > MAX_PEER_MESSAGE_BYTES || |input| != length + 4 then Err(Malformed)
      else if length == 0 then Ok(KeepAlive)
      else ParsePayload(input[4..])
  }

  /** Three fields laid end to end are read back by position. */
  lemma Fields(a: Bytes, b: Bytes, c: Bytes)
    requires |a| == 4 && |b| == 4
    ensures var body := a + (b + c); body[..4] == a && body[4..8] == b && body[8..] == c
  {
  }

  lemma PayloadParses(m: PeerMessage)
    requires !m.KeepAlive? && EncodePayload(m).Ok?
    ensures var p := EncodePayload(m).value; p != [] && |p| <= MAX_PEER_MESSAGE_BYTES && ParsePayload(p) == Ok(m)
  {
    hide Be32, FromBe32;
    var p := EncodePayload(m).value;
    match m
    case Have(piece) =>
      Be32Inverse(piece);
      assert p[1..] == Be32(piece);
    case Bitfield(bits) => assert p[1..] == bits;
    case Request(index, begin, length) => RequestParses(m, p, index, begin, length);
    case Cancel(index, begin, length) => RequestParses(m, p, index, begin, length);
    case Piece(index, begin, block) =>
      Be32Inverse(index);
      Be32Inverse(begin);
      assert p[1..] == Be32(index) + (Be32(begin) + block);
      Fields(Be32(index), Be32(begin), block);
    case Port(port) =>
      Be16Inverse(port);
      assert p[1..] == Be16(port);
    case Extended(id, payload) =>
      assert p[1..] == [id] + payload;
      assert p[1..][1..] == payload;
    case _ =>
  }

  lemma RequestParses(m: PeerMessage, p: Bytes, index: u32, begin: u32, length: u32)
    requires m == Request(index, begin, length) || m == Cancel(index, begin, length)
    requires p == [if m.Request? then 6 else 8] + (Be32(index) + (Be32(begin) + Be32(length)))
    ensures ParsePayload(p) == Ok(m)
  {
  }

  /** Whatever the encoder accepts, the parser reads back. */
  lemma EncodedParses(m: PeerMessage)
    requires EncodePeerMessage(m).Ok?
    ensures ParsePeerMessage(EncodePeerMessage(m).value) == Ok(m)
  {
    hide Be32, FromBe32, ParsePayload;
    var payload := EncodePayload(m).value;
    var input := EncodePeerMessage(m).value;
    Be32Inverse(|payload|);
    assert input[..4] == Be32(|payload|) && input[4..] == payload;
    if !m.KeepAlive? { PayloadParses(m); }
  }

  lemma ParsedPayloadEncodes(payload: Bytes)
    requires payload != [] && |payload| <= MAX_PEER_MESSAGE_BYTES && ParsePayload(payload).Ok?
    ensures EncodePayload(ParsePayload(payload).value) == Ok(payload)
  {
    hide Be32, FromBe32, Be16, FromBe16;
    var body := payload[1..];
    assert payload == [payload[0]] + body;
    if |body| == 4 { FromBe32Inverse(body); }
    if |body| == 2 { FromBe16Inverse(body); }
    if |body| >= 8 {
      FromBe32Inverse(body[..4]);
      FromBe32Inverse(body[4..8]);
      if |body| == 12 { FromBe32Inverse(body[8..]); }
      assert body == body[..4] + (body[4..8] + body[8..]);
    }
    if body != [] { assert payload == [payload[0], body[0]] + body[1..]; } else { assert payload == [payload[0]]; }
  }

  /** Whatever the parser accepts, the encoder writes back byte for byte. */
  lemma ParsedEncodes(input: Bytes)
    requires ParsePeerMessage(input).Ok?
    ensures EncodePeerMessage(ParsePeerMessage(input).value) == Ok(input)
  {
    hide Be32, FromBe32, ParsePayload, EncodePayload;
    FromBe32Inverse(input[..4]);
    assert input == input[..4] + input[4..];
    if |input| > 4 { ParsedPayloadEncodes(input[4..]); }
    else { KeepAliveEncodes(); }
  }

  lemma KeepAliveEncodes()
    ensures EncodePayload(KeepAlive) == Ok([])
  {
  }

  // ----- the format itself -----

  /** Network byte order. */
  lemma BigEndian(b: Bytes)
    requires |b| == 4
    ensures var b0: int, b1: int, b2: int, b3: int := b[0], b[1], b[2], b[3];
      && FromBe16(b[..2]) == b0 * 0x100 + b1
      && FromBe32(b) == b0 * 0x100_0000 + b1 * 0x1_0000 + b2 * 0x100 + b3
  {
  }

  /** The message ids of BEP 3 and BEP 10. */
  ghost function MessageId(m: PeerMessage): Byte
    requires !m.KeepAlive?
  {
    match m
    case Choke => 0
    case Unchoke => 1
    case Interested => 2
    case NotInterested => 3
    case Have(_) => 4
    case Bitfield(_) => 5
    case Request(_, _, _) => 6
    case Piece(_, _, _) => 7
    case Cancel(_, _, _) => 8
    case Port(_) => 9
    case Extended(_, _) => 20
  }

  /** Where the fields of a message lie on the wire, after the length prefix and the message id. */
  ghost predicate FieldsAt(m: PeerMessage, wire: Bytes)
    requires |wire| >= 5
  {
    match m
    case KeepAlive => false
    case Choke => |wire| == 5
    case Unchoke => |wire| == 5
    case Interested => |wire| == 5
    case NotInterested => |wire| == 5
    case Have(piece) => |wire| == 9 && FromBe32(wire[5..9]) == piece
    case Bitfield(bits) => wire[5..] == bits
    case Request(index, begin, length) => |wire| == 17 && FromBe32(wire[5..9]) == index && FromBe32(wire[9..13]) == begin && FromBe32(wire[13..17]) == length
    case Piece(index, begin, block) => |wire| >= 13 && FromBe32(wire[5..9]) == index && FromBe32(wire[9..13]) == begin && wire[13..] == block
    case Cancel(index, begin, length) => |wire| == 17 && FromBe32(wire[5..9]) == index && FromBe32(wire[9..13]) == begin && FromBe32(wire[13..17]) == length
    case Port(port) => |wire| == 7 && FromBe16(wire[5..7]) == port
    case Extended(id, payload) => |wire| >= 6 && wire[5] == id && wire[6..] == payload
  }

  /** `wire` is the message: a keep-alive is four zero bytes, anything else a length prefix, a message id and the fields. */
  ghost predicate OnWire(m: PeerMessage, wire: Bytes)
  {
    if m.KeepAlive? then wire == [0, 0, 0, 0]
    else |wire| >= 5 && FromBe32(wire[..4]) == |wire| - 4 && wire[4] == MessageId(m) && FieldsAt(m, wire)
  }

  /** The payload of a message that parses, seen on the wire. */
  lemma ParsedPayloadOnWire(m: PeerMessage, wire: Bytes)
    requires |wire| >= 5 && !m.KeepAlive?
    ensures ParsePayload(wire[4..]) == Ok(m) <==> wire[4] == MessageId(m) && FieldsAt(m, wire)
  {
    hide FromBe32, FromBe16;
    var body := wire[4..][1..];
    assert body == wire[5..];
    if |body| >= 4 { assert body[..4] == wire[5..9]; }
    if |body| == 4 { assert body == wire[5..9]; }
    if |body| == 2 { assert body == wire[5..7]; }
    if |body| >= 8 { assert body[4..8] == wire[9..13] && body[8..] == wire[13..]; }
    if |body| == 12 { assert wire[13..] == wire[13..17]; }
    if body != [] { assert body[1..] == wire[6..]; }
  }

  /** The parser reads `m` exactly from the bytes that are `m` on the wire and do not exceed the limit of one MiB. */
  lemma ParsesWire(m: PeerMessage, input: Bytes)
    ensures ParsePeerMessage(input) == Ok(m) <==> OnWire(m, input) && |input| - 4 <= 1024 * 1024
    ensures ParsePeerMessage(input).Err? ==> ParsePeerMessage(input).error == Malformed
  {
    hide ParsePayload, FieldsAt;
    if |input| >= 5 { RefusedAsMalformed(input[4..]); }
    if |input| >= 4 { KeepAliveOnWire(input); }
    if |input| >= 5 {
      hide FromBe32;
      if !m.KeepAlive? { ParsedPayloadOnWire(m, input); } else { NeverKeepAlive(input[4..]); }
    }
  }

  lemma RefusedAsMalformed(payload: Bytes)
    requires payload != []
    ensures ParsePayload(payload).Err? ==> ParsePayload(payload).error == Malformed
  {
  }

  lemma KeepAliveOnWire(input: Bytes)
    requires |input| >= 4
    ensures FromBe32(input[..4]) == 0 && |input| == 4 <==> input == [0, 0, 0, 0]
  {
  }

  lemma NeverKeepAlive(payload: Bytes)
    requires payload != []
    ensures ParsePayload(payload) != Ok(KeepAlive)
  {
  }

  /** A message can be sent iff its variable part leaves room for the fixed fields. */
  ghost predicate Sendable(m: PeerMessage)
  {
    match m
    case Bitfield(bits) => |bits| + 1 <= 1024 * 1024
    case Piece(_, _, block) => |block| + 9 <= 1024 * 1024
    case Extended(_, payload) => |payload| + 2 <= 1024 * 1024
    case _ => true
  }

  /** What the encoder puts where, for every message. */
  lemma FieldLayout(m: PeerMessage)
    ensures EncodePeerMessage(m).Ok? <==> Sendable(m)
    ensures match EncodePeerMessage(m)
      case Ok(wire) => OnWire(m, wire)
      case Err(error) => error == BadRequest
  {
    assert (EncodePeerMessage(m).Ok? <==> Sendable(m)) && (EncodePeerMessage(m).Err? ==> EncodePeerMessage(m).error == BadRequest) by { hide Be32; }
    if EncodePeerMessage(m).Ok? {
      hide Be32, FromBe32, EncodePeerMessage, ParsePeerMessage, OnWire;
      EncodedParses(m);
      ParsesWire(m, EncodePeerMessage(m).value);
    }
  }
}
