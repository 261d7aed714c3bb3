/** The bencode parser of p2p_network.rs against the encoding of BEP 3. */
module Bencode {
  import opened Base
  import opened Decimal

  const MAX_DEPTH: nat := 32
  const I64_MAX: int := 0x7FFF_FFFF_FFFF_FFFF

  /** A dictionary is kept as the B-tree map keeps it: strictly sorted by key. */
  datatype BValue =
    | Integer(n: int)
    | ByteString(bytes: Bytes)
    | List(values: seq<BValue>)
    | Dict(entries: seq<Entry>)

  datatype Entry = Entry(key: Bytes, value: BValue)

  /** A parsed value and the number of bytes it took. */
  datatype Parsed<+T> = Parsed(value: T, used: nat) | Bad

  function Text(bytes: Bytes): (s: string)
    ensures |s| == |bytes| && forall i :: 0 <= i < |s| ==> s[i] == bytes[i] as char
  {
    seq(|bytes|, i requires 0 <= i < |bytes| => bytes[i] as char)
  }

  function Raw(s: string): (b: Bytes)
    requires forall i :: 0 <= i < |s| ==> s[i] as int < 256
    ensures |b| == |s| && Text(b) == s
  {
    seq(|s|, i requires 0 <= i < |s| => s[i] as int)
  }

  const LETTER_I: Byte := 105
  const LETTER_L: Byte := 108
  const LETTER_D: Byte := 100
  const LETTER_E: Byte := 101
  const COLON: Byte := 58

  predicate DigitByte(b: Byte) { 48 <= b <= 57 }

  /** Position of the first `b`, or the length. */
  function Position(s: Bytes, b: Byte): (i: nat)
    ensures i <= |s| && b !in s[..i] && (i < |s| ==> s[i] == b)
  {
    if s == [] || s[0] == b then 0
    else
      var i := Position(s[1..], b);
      assert s[..1 + i] == [s[0]] + s[1..][..i];
      1 + i
  }

  /** `str::parse` for a 64-bit signed integer. */
  function ParseI64(s: string): Option<int>
  {
    if s != [] && s[0] == '-' then
      if s[1..] != [] && AllDigits(s[1..]) && Value(s[1..]) <= I64_MAX + 1 then Some(0 - Value(s[1..])) else None
    else match ParseUnsigned(s, I64_MAX)
      case Some(n) => Some(n)
      case None => None
  }

  // ----- the grammar the parser accepts -----

  function ParseInteger(s: Bytes): (r: Parsed<BValue>)
    requires s != []
    ensures r.Parsed? ==> 0 < r.used <= |s|
  {
    var end := Position(s[1..], LETTER_E);
    if end == |s| - 1 then Bad
    else match ParseI64(Text(s[1..1 + end]))
      case Some(n) => Parsed(Integer(n), end + 2)
      case None => Bad
  }

  function ParseBytes(s: Bytes): (r: Parsed<Bytes>)
    ensures r.Parsed? ==> 0 < r.used <= |s|
  {
    var colon := Position(s, COLON);
    if colon == |s| then Bad
    else match ParseUnsigned(Text(s[..colon]), U64_MAX)
      case Some(n) => if colon + 1 + n <= |s| then Parsed(s[colon + 1..colon + 1 + n], colon + 1 + n) else Bad
      case None => Bad
  }

  function ParseValue(s: Bytes, depth: nat): (r: Parsed<BValue>)
    ensures r.Parsed? ==> 0 < r.used <= |s|
    decreases |s|, 0
  {
    if depth >= MAX_DEPTH || s == [] then Bad
    else if s[0] == LETTER_I then ParseInteger(s)
    else if s[0] == LETTER_L then
      match ParseItems(s[1..], depth + 1, [])
      case Parsed(values, used) => Parsed(List(values), used + 1)
      case Bad => Bad
    else if s[0] == LETTER_D then
      match ParseEntries(s[1..], depth + 1, [])
      case Parsed(entries, used) => Parsed(Dict(entries), used + 1)
      case Bad => Bad
    else if DigitByte(s[0]) then
      match ParseBytes(s)
      case Parsed(bytes, used) => Parsed(ByteString(bytes), used)
      case Bad => Bad
    else Bad
  }

  function ParseItems(s: Bytes, depth: nat, acc: seq<BValue>): (r: Parsed<seq<BValue>>)
    ensures r.Parsed? ==> 0 < r.used <= |s|
    decreases |s|, 1
  {
    if s != [] && s[0] == LETTER_E then Parsed(acc, 1)
    else match ParseValue(s, depth)
      case Bad => Bad
      case Parsed(v, n) =>
        match ParseItems(s[n..], depth, acc + [v])
        case Bad => Bad
        case Parsed(values, used) => Parsed(values, n + used)
  }

  function ParseEntries(s: Bytes, depth: nat, acc: seq<Entry>): (r: Parsed<seq<Entry>>)
    ensures r.Parsed? ==> 0 < r.used <= |s|
    decreases |s|, 1
  {
    if s != [] && s[0] == LETTER_E then Parsed(acc, 1)
    else match ParseBytes(s)
      case Bad => Bad
      case Parsed(key, k) =>
        match ParseValue(s[k..], depth)
        case Bad => Bad
        case Parsed(v, n) =>
          match ParseEntries(s[k + n..], depth, InsertKey(acc, key, v))
          case Bad => Bad
          case Parsed(entries, used) => Parsed(entries, k + n + used)
  }

  /** Byte strings compare lexicographically. */
  predicate KeyLess(a: Bytes, b: Bytes)
  {
    b != [] && (a == [] || a[0] < b[0] || (a[0] == b[0] && KeyLess(a[1..], b[1..])))
  }

  /** `BTreeMap::insert`: keep the order, replace an equal key. */
  function InsertKey(entries: seq<Entry>, key: Bytes, v: BValue): seq<Entry>
  {
    if entries == [] then [Entry(key, v)]
    else if entries[0].key == key then [Entry(key, v)] + entries[1..]
    else if KeyLess(key, entries[0].key) then [Entry(key, v)] + entries
    else [entries[0]] + InsertKey(entries[1..], key, v)
  }

  // ----- the encoding of BEP 3 -----

  function PrintInt(n: int): string { if n < 0 then "-" + Print(-n) else Print(n) }

  function Length(n: nat): (b: Bytes)
    ensures b != [] && Text(b) == Print(n) && forall i :: 0 <= i < |b| ==> DigitByte(b[i])
  {
    var s := Print(n);
    assert forall i :: 0 <= i < |s| ==> IsDigit(s[i]) && s[i] as int < 256;
    Raw(s)
  }

  function Number(n: int): (b: Bytes)
    ensures Text(b) == PrintInt(n) && LETTER_E !in b
  {
    var s := PrintInt(n);
    assert forall i :: 0 <= i < |s| ==> (IsDigit(s[i]) || s[i] == '-') && s[i] as int < 256;
    Raw(s)
  }

  function EncodeBytes(bytes: Bytes): Bytes { Length(|bytes|) + [COLON] + bytes }

  function Encode(v: BValue): Bytes
    decreases v, 1
  {
    match v
    case Integer(n) => [LETTER_I] + Number(n) + [LETTER_E]
    case ByteString(bytes) => EncodeBytes(bytes)
    case List(values) => [LETTER_L] + EncodeItems(values) + [LETTER_E]
    case Dict(entries) => [LETTER_D] + EncodeEntries(entries) + [LETTER_E]
  }

  function EncodeItems(values: seq<BValue>): Bytes
    decreases values, 0
  {
    if values == [] then [] else Encode(values[0]) + EncodeItems(values[1..])
  }

  function EncodeEntries(entries: seq<Entry>): Bytes
    decreases entries, 0
  {
    if entries == [] then [] else EncodeBytes(entries[0].key) + Encode(entries[0].value) + EncodeEntries(entries[1..])
  }

  /** Integers fit 64 bits, strings a machine length, keys ascend, and at most `room` levels are nested. */
  predicate Fits(v: BValue, room: nat)
    decreases v, 1
  {
    && room > 0
    && match v
       case Integer(n) => -I64_MAX - 1 <= n <= I64_MAX
       case ByteString(bytes) => |bytes| <= U64_MAX
       case List(values) => ItemsFit(values, room - 1)
       case Dict(entries) => EntriesFit(entries, room - 1)
  }

  predicate ItemsFit(values: seq<BValue>, room: nat)
    decreases values, 0
  {
    values == [] || (Fits(values[0], room) && ItemsFit(values[1..], room))
  }

  predicate EntriesFit(entries: seq<Entry>, room: nat)
    decreases entries, 0
  {
    entries == [] ||
    (&& |entries[0].key| <= U64_MAX && Fits(entries[0].value, room) && EntriesFit(entries[1..], room)
     && (|entries| > 1 ==> KeyLess(entries[0].key, entries[1].key)))
  }

  // ----- round trip -----

  lemma {:induction false} PositionAfter(a: Bytes, b: Byte, rest: Bytes)
    requires b !in a
    ensures var s := a + [b] + rest; Position(s, b) == |a| && s[..|a|] == a && s[|a| + 1..] == rest
  {
    var s := a + [b] + rest;
    if a != [] {
      assert s[1..] == a[1..] + [b] + rest;
      PositionAfter(a[1..], b, rest);
    }
  }

  lemma ParsePrintInt(n: int)
    requires -I64_MAX - 1 <= n <= I64_MAX
    ensures ParseI64(PrintInt(n)) == Some(n)
  {
    if n < 0 {
      ValuePrint(-n);
      assert PrintInt(n)[1..] == Print(-n);
    } else {
      ParsePrint(n, I64_MAX);
      assert IsDigit(Print(n)[0]);
    }
  }

  lemma IntegerRoundTrip(n: int, rest: Bytes)
    requires -I64_MAX - 1 <= n <= I64_MAX
    ensures var s := [LETTER_I] + Number(n) + [LETTER_E]; ParseInteger(s + rest) == Parsed(Integer(n), |s|)
  {
    hide ParseI64, PrintInt, Position;
    var b := Number(n);
    var s := [LETTER_I] + b + [LETTER_E] + rest;
    assert s[1..] == b + [LETTER_E] + rest;
    PositionAfter(b, LETTER_E, rest);
    assert s[1..1 + |b|] == b;
    ParsePrintInt(n);
  }

  lemma BytesRoundTrip(bytes: Bytes, rest: Bytes)
    requires |bytes| <= U64_MAX
    ensures ParseBytes(EncodeBytes(bytes) + rest) == Parsed(bytes, |EncodeBytes(bytes)|)
    ensures DigitByte((EncodeBytes(bytes) + rest)[0])
  {
    hide Position, ParseUnsigned, Print;
    var b := Length(|bytes|);
    var s := EncodeBytes(bytes) + rest;
    assert s == b + [COLON] + (bytes + rest);
    assert COLON !in b;
    PositionAfter(b, COLON, bytes + rest);
    ParsePrint(|bytes|, U64_MAX);
    assert s[|b| + 1..|b| + 1 + |bytes|] == bytes;
  }

  lemma EncodeStart(v: BValue)
    ensures Encode(v) != [] && Encode(v)[0] != LETTER_E
  {
  }

  lemma ValueStep(s: Bytes, depth: nat)
    requires depth < MAX_DEPTH && s != []
    ensures s[0] == LETTER_I ==> ParseValue(s, depth) == ParseInteger(s)
    ensures s[0] == LETTER_L && ParseItems(s[1..], depth + 1, []).Parsed? ==>
      ParseValue(s, depth) == Parsed(List(ParseItems(s[1..], depth + 1, []).value), ParseItems(s[1..], depth + 1, []).used + 1)
    ensures s[0] == LETTER_D && ParseEntries(s[1..], depth + 1, []).Parsed? ==>
      ParseValue(s, depth) == Parsed(Dict(ParseEntries(s[1..], depth + 1, []).value), ParseEntries(s[1..], depth + 1, []).used + 1)
    ensures DigitByte(s[0]) && ParseBytes(s).Parsed? ==> ParseValue(s, depth) == Parsed(ByteString(ParseBytes(s).value), ParseBytes(s).used)
  {
  }

  lemma ItemsStep(s: Bytes, depth: nat, acc: seq<BValue>)
    ensures s != [] && s[0] == LETTER_E ==> ParseItems(s, depth, acc) == Parsed(acc, 1)
    ensures (s == [] || s[0] != LETTER_E) && ParseValue(s, depth).Bad? ==> ParseItems(s, depth, acc) == Bad
    ensures (s == [] || s[0] != LETTER_E) && ParseValue(s, depth).Parsed? ==>
      var first := ParseValue(s, depth);
      var more := ParseItems(s[first.used..], depth, acc + [first.value]);
      ParseItems(s, depth, acc) == if more.Parsed? then Parsed(more.value, first.used + more.used) else Bad
  {
    hide ParseValue;
  }

  lemma EntriesStep(s: Bytes, depth: nat, acc: seq<Entry>)
    ensures s != [] && s[0] == LETTER_E ==> ParseEntries(s, depth, acc) == Parsed(acc, 1)
    ensures (s == [] || s[0] != LETTER_E) && ParseBytes(s).Bad? ==> ParseEntries(s, depth, acc) == Bad
    ensures (s == [] || s[0] != LETTER_E) && ParseBytes(s).Parsed? ==>
      var key := ParseBytes(s);
      var first := ParseValue(s[key.used..], depth);
      if first.Bad? then ParseEntries(s, depth, acc) == Bad
      else
        var more := ParseEntries(s[key.used + first.used..], depth, InsertKey(acc, key.value, first.value));
        ParseEntries(s, depth, acc) == if more.Parsed? then Parsed(more.value, key.used + first.used + more.used) else Bad
  {
    hide ParseValue, ParseBytes, InsertKey;
  }

  /** The parser reads back every value it has room for and stops exactly after it. */
  lemma {:induction false} ValueRoundTrip(v: BValue, depth: nat, rest: Bytes)
    requires depth < MAX_DEPTH && Fits(v, MAX_DEPTH - depth)
    ensures ParseValue(Encode(v) + rest, depth) == Parsed(v, |Encode(v)|)
    decreases v, 1
  {
    hide ParseValue, ParseInteger, ParseBytes, ParseItems, ParseEntries, EncodeBytes, EncodeItems, EncodeEntries, ItemsFit, EntriesFit;
    var s := Encode(v) + rest;
    match v
    case Integer(n) =>
      IntegerRoundTrip(n, rest);
      ValueStep(s, depth);
    case ByteString(bytes) =>
      BytesRoundTrip(bytes, rest);
      ValueStep(s, depth);
    case List(values) =>
      ItemsRoundTrip(values, depth + 1, [], rest);
      assert s[1..] == EncodeItems(values) + [LETTER_E] + rest && [] + values == values;
      ValueStep(s, depth);
    case Dict(entries) =>
      EntriesRoundTrip(entries, depth + 1, [], rest);
      assert s[1..] == EncodeEntries(entries) + [LETTER_E] + rest && [] + entries == entries;
      ValueStep(s, depth);
  }

  lemma {:induction false} ItemsRoundTrip(values: seq<BValue>, depth: nat, acc: seq<BValue>, rest: Bytes)
    requires depth <= MAX_DEPTH && ItemsFit(values, MAX_DEPTH - depth)
    ensures ParseItems(EncodeItems(values) + [LETTER_E] + rest, depth, acc) == Parsed(acc + values, |EncodeItems(values)| + 1)
    decreases values, 0
  {
    hide ParseValue, ParseItems, Encode, Fits;
    var s := EncodeItems(values) + [LETTER_E] + rest;
    ItemsStep(s, depth, acc);
    if values == [] {
      assert acc + values == acc;
    } else {
      var v, more := values[0], EncodeItems(values[1..]) + [LETTER_E] + rest;
      RoomLeft(v, MAX_DEPTH - depth);
      EncodeStart(v);
      assert s == Encode(v) + more;
      ValueRoundTrip(v, depth, more);
      assert s[|Encode(v)|..] == more;
      ItemsRoundTrip(values[1..], depth, acc + [v], rest);
      assert acc + [v] + values[1..] == acc + values;
    }
  }

  lemma RoomLeft(v: BValue, room: nat)
    requires Fits(v, room)
    ensures room > 0
  {
  }

  /** Keys already inserted all precede the next one. */
  predicate Precedes(acc: seq<Entry>, key: Bytes)
  {
    forall i :: 0 <= i < |acc| ==> KeyLess(acc[i].key, key)
  }

  lemma {:induction false} KeyLessStrict(a: Bytes, b: Bytes)
    ensures KeyLess(a, b) ==> a != b && !KeyLess(b, a)
  {
    if a != [] && b != [] && a[0] == b[0] { KeyLessStrict(a[1..], b[1..]); }
  }

  lemma {:induction false} KeyLessTransitive(a: Bytes, b: Bytes, c: Bytes)
    requires KeyLess(a, b) && KeyLess(b, c)
    ensures KeyLess(a, c)
  {
    if a != [] && a[0] == b[0] == c[0] { KeyLessTransitive(a[1..], b[1..], c[1..]); }
  }

  /** Inserting a largest key appends it. */
  lemma {:induction false} InsertLast(acc: seq<Entry>, key: Bytes, v: BValue)
    requires Precedes(acc, key)
    ensures InsertKey(acc, key, v) == acc + [Entry(key, v)]
  {
    if acc != [] {
      assert KeyLess(acc[0].key, key);
      KeyLessStrict(acc[0].key, key);
      assert forall i :: 0 <= i < |acc[1..]| ==> acc[1..][i] == acc[i + 1];
      InsertLast(acc[1..], key, v);
      assert acc == [acc[0]] + acc[1..];
    }
  }

  lemma {:induction false} EntriesRoundTrip(entries: seq<Entry>, depth: nat, acc: seq<Entry>, rest: Bytes)
    requires depth <= MAX_DEPTH && EntriesFit(entries, MAX_DEPTH - depth)
    requires entries != [] ==> Precedes(acc, entries[0].key)
    ensures ParseEntries(EncodeEntries(entries) + [LETTER_E] + rest, depth, acc) == Parsed(acc + entries, |EncodeEntries(entries)| + 1)
    decreases entries, 0
  {
    hide ParseValue, ParseEntries, ParseBytes, EncodeBytes, Encode, Fits, KeyLess, InsertKey;
    var s := EncodeEntries(entries) + [LETTER_E] + rest;
    EntriesStep(s, depth, acc);
    if entries == [] {
      assert acc + entries == acc;
    } else {
      var Entry(key, v) := entries[0];
      var more := EncodeEntries(entries[1..]) + [LETTER_E] + rest;
      RoomLeft(v, MAX_DEPTH - depth);
      var k, n := |EncodeBytes(key)|, |Encode(v)|;
      assert s == EncodeBytes(key) + (Encode(v) + more);
      BytesRoundTrip(key, Encode(v) + more);
      assert s[k..] == Encode(v) + more;
      ValueRoundTrip(v, depth, more);
      assert s[k + n..] == more;
      InsertLast(acc, key, v);
      NextPrecedes(entries, acc);
      EntriesRoundTrip(entries[1..], depth, acc + [Entry(key, v)], rest);
      assert acc + [Entry(key, v)] + entries[1..] == acc + entries;
    }
  }

  lemma NextPrecedes(entries: seq<Entry>, acc: seq<Entry>)
    requires |entries| > 1 ==> KeyLess(entries[0].key, entries[1].key)
    requires entries != [] && Precedes(acc, entries[0].key)
    ensures |entries| > 1 ==> Precedes(acc + [entries[0]], entries[1].key)
  {
    hide KeyLess;
    if |entries| > 1 {
      forall i | 0 <= i < |acc| + 1 ensures KeyLess((acc + [entries[0]])[i].key, entries[1].key) {
        if i < |acc| { KeyLessTransitive(acc[i].key, entries[0].key, entries[1].key); }
      }
    }
  }

  // ----- what the parser can return -----

  lemma {:induction false} KeyLessTotal(a: Bytes, b: Bytes)
    ensures KeyLess(a, b) || KeyLess(b, a) || a == b
  {
    if a != [] && b != [] && a[0] == b[0] {
      KeyLessTotal(a[1..], b[1..]);
      assert a == [a[0]] + a[1..] && b == [b[0]] + b[1..];
    }
  }

  /** Inserting keeps the keys strictly ascending. */
  lemma {:induction false} InsertFits(entries: seq<Entry>, key: Bytes, v: BValue, room: nat)
    requires EntriesFit(entries, room) && |key| <= U64_MAX && Fits(v, room)
    ensures var after := InsertKey(entries, key, v);
      && EntriesFit(after, room) && after != []
      && (after[0].key == key || (entries != [] && after[0].key == entries[0].key && KeyLess(after[0].key, key)))
  {
    hide Fits, KeyLess;
    var after := InsertKey(entries, key, v);
    if entries == [] {
      assert after[1..] == [];
    } else if entries[0].key == key || KeyLess(key, entries[0].key) {
      assert after[1..] == if entries[0].key == key then entries[1..] else entries;
    } else {
      KeyLessTotal(key, entries[0].key);
      InsertFits(entries[1..], key, v, room);
      assert after[1..] == InsertKey(entries[1..], key, v);
    }
  }

  lemma {:induction false} ItemsFitSnoc(values: seq<BValue>, v: BValue, room: nat)
    requires ItemsFit(values, room) && Fits(v, room)
    ensures ItemsFit(values + [v], room)
  {
    hide Fits;
    if values == [] {
      assert (values + [v])[1..] == [];
    } else {
      ItemsFitSnoc(values[1..], v, room);
      assert (values + [v])[1..] == values[1..] + [v];
    }
  }

  /** Everything the parser returns is a canonical value within the depth limit. */
  lemma {:induction false} ParsedFits(s: Bytes, depth: nat)
    requires ParseValue(s, depth).Parsed?
    ensures depth < MAX_DEPTH && Fits(ParseValue(s, depth).value, MAX_DEPTH - depth)
    decreases |s|, 0
  {
    hide Position, Value, ItemsFit, EntriesFit;
    if s[0] == LETTER_L { ParsedItemsFit(s[1..], depth + 1, []); }
    else if s[0] == LETTER_D { ParsedEntriesFit(s[1..], depth + 1, []); }
    else if s[0] != LETTER_I { ParsedBytesFit(s); }
  }

  lemma ParsedBytesFit(s: Bytes)
    ensures ParseBytes(s).Parsed? ==> |ParseBytes(s).value| <= U64_MAX
  {
    hide Position, Value;
  }

  lemma {:induction false} ParsedItemsFit(s: Bytes, depth: nat, acc: seq<BValue>)
    requires depth <= MAX_DEPTH && (acc == [] || ItemsFit(acc, MAX_DEPTH - depth)) && ParseItems(s, depth, acc).Parsed?
    ensures ItemsFit(ParseItems(s, depth, acc).value, MAX_DEPTH - depth)
    decreases |s|, 1
  {
    hide ParseValue, ParseItems, Fits;
    ItemsStep(s, depth, acc);
    if s == [] || s[0] != LETTER_E {
      var first := ParseValue(s, depth);
      ParsedFits(s, depth);
      ItemsFitSnoc(acc, first.value, MAX_DEPTH - depth);
      ParsedItemsFit(s[first.used..], depth, acc + [first.value]);
    }
  }

  lemma {:induction false} ParsedEntriesFit(s: Bytes, depth: nat, acc: seq<Entry>)
    requires depth <= MAX_DEPTH && (acc == [] || EntriesFit(acc, MAX_DEPTH - depth)) && ParseEntries(s, depth, acc).Parsed?
    ensures EntriesFit(ParseEntries(s, depth, acc).value, MAX_DEPTH - depth)
    decreases |s|, 1
  {
    hide ParseValue, ParseEntries, ParseBytes, InsertKey, Fits, KeyLess;
    EntriesStep(s, depth, acc);
    if s == [] || s[0] != LETTER_E {
      var key := ParseBytes(s);
      var first := ParseValue(s[key.used..], depth);
      ParsedBytesFit(s);
      ParsedFits(s[key.used..], depth);
      InsertFits(acc, key.value, first.value, MAX_DEPTH - depth);
      ParsedEntriesFit(s[key.used + first.used..], depth, InsertKey(acc, key.value, first.value));
    }
  }

  /**
   A value's encoding, alone or followed by more, is parsed back as that value using
   exactly its bytes iff the value is canonical and nested at most 32 deep.
   */
  lemma BencodeRoundTrip(v: BValue, rest: Bytes)
    ensures ParseValue(Encode(v) + rest, 0) == Parsed(v, |Encode(v)|) <==> Fits(v, MAX_DEPTH)
  {
    hide ParseValue, Encode, Fits;
    if Fits(v, MAX_DEPTH) { ValueRoundTrip(v, 0, rest); }
    if ParseValue(Encode(v) + rest, 0) == Parsed(v, |Encode(v)|) { ParsedFits(Encode(v) + rest, 0); }
  }

  // ----- the letters of the encoding -----

  lemma Between(first: Byte, middle: Bytes, last: Byte)
    ensures Text([first] + middle + [last]) == [first as char] + Text(middle) + [last as char]
  {
  }

  lemma Around(a: Bytes, middle: Byte, b: Bytes)
    ensures Text(a + [middle] + b) == Text(a) + [middle as char] + Text(b)
  {
  }

  /** The encoding in the letters of BEP 3: integers between i and e, strings after their length and a colon, lists between l and e, dictionaries between d and e. */
  lemma Spelling(v: BValue)
    ensures match v
      case Integer(n) => Text(Encode(v)) == "i" + (if n < 0 then "-" + Print(-n) else Print(n)) + "e"
      case ByteString(bytes) => Text(Encode(v)) == Print(|bytes|) + ":" + Text(bytes)
      case List(values) => Text(Encode(v)) == "l" + Text(EncodeItems(values)) + "e"
      case Dict(entries) => Text(Encode(v)) == "d" + Text(EncodeEntries(entries)) + "e"
  {
    hide Print, EncodeItems, EncodeEntries, Text;
    match v
    case Integer(n) => Between(LETTER_I, Number(n), LETTER_E);
    case ByteString(bytes) => Around(Length(|bytes|), COLON, bytes);
    case List(values) => Between(LETTER_L, EncodeItems(values), LETTER_E);
    case Dict(entries) => Between(LETTER_D, EncodeEntries(entries), LETTER_E);
  }

  /** A list holds its members one after the other. */
  lemma {:induction false} ItemsInOrder(a: seq<BValue>, b: seq<BValue>)
    ensures EncodeItems(a + b) == EncodeItems(a) + EncodeItems(b)
    ensures |a| == 1 ==> EncodeItems(a) == Encode(a[0])
  {
    hide Encode;
    if a == [] {
      assert a + b == b;
    } else {
      ItemsInOrder(a[1..], b);
      assert (a + b)[0] == a[0] && (a + b)[1..] == a[1..] + b;
    }
  }

  /** A dictionary holds its members one after the other, each key before its value. */
  lemma EntriesCons(e: Entry, rest: seq<Entry>)
    ensures EncodeEntries([e] + rest) == Encode(ByteString(e.key)) + Encode(e.value) + EncodeEntries(rest)
    ensures EncodeEntries([]) == []
  {
    assert ([e] + rest)[1..] == rest;
  }

  lemma {:induction false} EntriesInOrder(a: seq<Entry>, b: seq<Entry>)
    ensures EncodeEntries(a + b) == EncodeEntries(a) + EncodeEntries(b)
  {
    hide Encode, EncodeBytes, EncodeEntries;
    if a == [] {
      EntriesCons(Entry([], Integer(0)), []);
      assert a + b == b && EncodeEntries(a) == [];
    } else {
      EntriesInOrder(a[1..], b);
      EntriesCons(a[0], a[1..]);
      EntriesCons(a[0], a[1..] + b);
      assert a == [a[0]] + a[1..] && a + b == [a[0]] + (a[1..] + b);
      JoinMore(Encode(ByteString(a[0].key)) + Encode(a[0].value), EncodeEntries(a[1..]), EncodeEntries(b));
    }
  }

  lemma JoinMore(x: Bytes, y: Bytes, z: Bytes)
    ensures x + (y + z) == x + y + z
  {
  }

  /** A value starts with i, l, d or a digit, and what starts so is read by that letter's rule; nothing else is a value. */
  lemma ParsedStarts(s: Bytes, depth: nat)
    ensures ParseValue(s, depth).Parsed? ==>
      && depth < 32 && s != []
      && match ParseValue(s, depth).value
         case Integer(_) => s[0] as char == 'i'
         case List(_) => s[0] as char == 'l'
         case Dict(_) => s[0] as char == 'd'
         case ByteString(_) => '0' <= s[0] as char <= '9'
  {
    hide ParseItems, ParseEntries, Position, ParseI64, ParseUnsigned;
  }

  /** The text is digits, with a sign or without, that count to the number within 64 bits. */
  ghost predicate SignedText(s: string, digits: string, n: int)
  {
    && digits != [] && AllDigits(digits)
    && if s == "-" + digits then n == 0 - Value(digits) && n >= -0x8000_0000_0000_0000
       else (s == digits || s == "+" + digits) && n == Value(digits) <= 0x7FFF_FFFF_FFFF_FFFF
  }

  /** Exactly such texts are read as an integer, leading zeros included. */
  lemma ParsesSigned(s: string, n: int)
    ensures ParseI64(s) == Some(n) <==> exists digits: string :: SignedText(s, digits, n)
  {
    hide Value;
    if ParseI64(s) == Some(n) {
      var digits := if s[0] == '-' || s[0] == '+' then s[1..] else s;
      assert s == digits || s == "+" + digits || s == "-" + digits;
      assert SignedText(s, digits, n);
    }
    if digits: string :| SignedText(s, digits, n) {
      if s == digits { assert IsDigit(s[0]); } else { assert s[1..] == digits; }
    }
  }

  // ----- keys that repeat or are out of order -----

  /** The value under a key, if any. */
  function Lookup(entries: seq<Entry>, key: Bytes): Option<BValue>
  {
    if entries == [] then None else if entries[0].key == key then Some(entries[0].value) else Lookup(entries[1..], key)
  }

  /** Inserting sets the key and leaves every other one alone. */
  lemma {:induction false} InsertSets(entries: seq<Entry>, key: Bytes, v: BValue, room: nat, other: Bytes)
    requires EntriesFit(entries, room)
    ensures Lookup(InsertKey(entries, key, v), other) == if other == key then Some(v) else Lookup(entries, other)
  {
    hide Fits, KeyLess;
    var after := InsertKey(entries, key, v);
    if entries != [] {
      if entries[0].key == key || KeyLess(key, entries[0].key) {
        assert after[1..] == if entries[0].key == key then entries[1..] else entries;
      } else {
        InsertSets(entries[1..], key, v, room, other);
        assert after[1..] == InsertKey(entries[1..], key, v);
      }
    } else {
      assert after[1..] == [];
    }
  }

  /** The last entry for the key, if any. */
  function LastFor(entries: seq<Entry>, key: Bytes): Option<BValue>
  {
    if entries == [] then None
    else
      var last := entries[|entries| - 1];
      if last.key == key then Some(last.value) else LastFor(entries[..|entries| - 1], key)
  }

  function InsertAll(acc: seq<Entry>, entries: seq<Entry>): seq<Entry>
    decreases |entries|
  {
    if entries == [] then acc else InsertAll(InsertKey(acc, entries[0].key, entries[0].value), entries[1..])
  }

  /** Each entry fits, in whatever order and however often its key occurs. */
  predicate EachFits(entries: seq<Entry>, room: nat)
  {
    forall i :: 0 <= i < |entries| ==> |entries[i].key| <= U64_MAX && Fits(entries[i].value, room)
  }

  lemma {:induction false} LastForCons(entries: seq<Entry>, key: Bytes)
    requires entries != []
    ensures LastFor(entries, key) ==
      if LastFor(entries[1..], key).Some? then LastFor(entries[1..], key) else if entries[0].key == key then Some(entries[0].value) else None
  {
    var n := |entries| - 1;
    if n > 0 {
      assert entries[1..][|entries[1..]| - 1] == entries[n];
      assert entries[1..][..|entries[1..]| - 1] == entries[..n][1..];
      LastForCons(entries[..n], key);
    }
  }

  lemma {:induction false} InsertAllLast(acc: seq<Entry>, entries: seq<Entry>, room: nat, key: Bytes)
    requires EntriesFit(acc, room) && EachFits(entries, room)
    ensures EntriesFit(InsertAll(acc, entries), room)
    ensures Lookup(InsertAll(acc, entries), key) == if LastFor(entries, key).Some? then LastFor(entries, key) else Lookup(acc, key)
    decreases |entries|
  {
    hide Fits, KeyLess, EntriesFit, InsertKey, Lookup;
    if entries != [] {
      var Entry(k, v) := entries[0];
      assert forall i :: 0 <= i < |entries[1..]| ==> entries[1..][i] == entries[i + 1];
      InsertFits(acc, k, v, room);
      InsertSets(acc, k, v, room, key);
      InsertAllLast(InsertKey(acc, k, v), entries[1..], room, key);
      LastForCons(entries, key);
    }
  }

  lemma {:induction false} EntriesParse(entries: seq<Entry>, depth: nat, acc: seq<Entry>, rest: Bytes)
    requires depth < MAX_DEPTH && EachFits(entries, MAX_DEPTH - depth)
    ensures ParseEntries(EncodeEntries(entries) + [LETTER_E] + rest, depth, acc) == Parsed(InsertAll(acc, entries), |EncodeEntries(entries)| + 1)
    decreases |entries|
  {
    hide ParseValue, ParseEntries, ParseBytes, EncodeBytes, Encode, Fits, KeyLess, InsertKey;
    var s := EncodeEntries(entries) + [LETTER_E] + rest;
    EntriesStep(s, depth, acc);
    if entries != [] {
      var Entry(key, v) := entries[0];
      var more := EncodeEntries(entries[1..]) + [LETTER_E] + rest;
      var k, n := |EncodeBytes(key)|, |Encode(v)|;
      assert s == EncodeBytes(key) + (Encode(v) + more);
      BytesRoundTrip(key, Encode(v) + more);
      assert s[k..] == Encode(v) + more;
      ValueRoundTrip(v, depth, more);
      assert s[k + n..] == more;
      assert forall i :: 0 <= i < |entries[1..]| ==> entries[1..][i] == entries[i + 1];
      EntriesParse(entries[1..], depth, InsertKey(acc, key, v), rest);
    }
  }

  /** A dictionary whose keys come in any order, and repeatedly, is read as the sorted one in which the last value of each key counts. */
  lemma LastValueWins(entries: seq<Entry>, rest: Bytes)
    requires EachFits(entries, MAX_DEPTH - 1)
    ensures var r := ParseValue(Encode(Dict(entries)) + rest, 0);
      && r.Parsed? && r.used == |Encode(Dict(entries))| && r.value.Dict? && Fits(r.value, MAX_DEPTH)
      && forall key :: Lookup(r.value.entries, key) == LastFor(entries, key)
  {
    hide ParseValue, ParseEntries, EncodeEntries, InsertAll, EachFits, EntriesFit;
    var s := Encode(Dict(entries)) + rest;
    EntriesParse(entries, 1, [], rest);
    assert s[1..] == EncodeEntries(entries) + [LETTER_E] + rest;
    ValueStep(s, 0);
    ParsedFits(s, 0);
    forall key ensures Lookup(InsertAll([], entries), key) == LastFor(entries, key) {
      NoEntriesFit(MAX_DEPTH - 1);
      InsertAllLast([], entries, MAX_DEPTH - 1, key);
    }
  }

  lemma NoEntriesFit(room: nat)
    ensures EntriesFit([], room)
  {
  }

  // ----- the parser object -----

  lemma SliceOfRest(input: Bytes, at: nat, from: nat, to: nat)
    requires from <= to && at + to <= |input|
    ensures input[at..][from..to] == input[at + from..at + to] && input[at..][from..] == input[at + from..]
  {
  }

  class BencodeParser {
    const input: Bytes
    var offset: nat
    var depth: nat

    constructor (input: Bytes)
      ensures this.input == input && offset == 0 && depth == 0
    {
      this.input := input;
      offset, depth := 0, 0;
    }

    /** The rest of the input. */
    function Rest(): Bytes
      reads this
      requires offset <= |input|
    {
      input[offset..]
    }

    /** On any input: in bounds, depth restored, and the answer of the grammar. */
    method ReadValue() returns (r: Result<BValue>)
      requires offset <= |input| && depth <= MAX_DEPTH
      modifies this
      ensures old(offset) <= offset <= |input| && depth == old(depth)
      ensures match ParseValue(old(Rest()), old(depth))
        case Parsed(v, used) => r == Ok(v) && offset == old(offset) + used
        case Bad => r.Err?
      decreases |input| - offset, 0
    {
      if depth >= MAX_DEPTH { return Err(Malformed); }
      depth := depth + 1;
      if offset == |input| {
        r := Err(Malformed);
      } else if input[offset] == LETTER_I {
        r := ReadInteger();
      } else if input[offset] == LETTER_L {
        r := ReadList();
      } else if input[offset] == LETTER_D {
        r := ReadDict();
      } else if DigitByte(input[offset]) {
        var bytes := ReadBytes();
        r := if bytes.Ok? then Ok(ByteString(bytes.value)) else Err(bytes.error);
      } else {
        r := Err(Malformed);
      }
      depth := depth - 1;
    }

    method ReadInteger() returns (r: Result<BValue>)
      requires offset < |input|
      modifies this`offset
      ensures old(offset) <= offset <= |input|
      ensures match ParseInteger(old(Rest()))
        case Parsed(v, used) => r == Ok(v) && offset == old(offset) + used
        case Bad => r.Err?
    {
      ghost var s := Rest();
      offset := offset + 1;
      assert Rest() == s[1..];
      var end := Position(input[offset..], LETTER_E);
      if end == |input| - offset { return Err(Malformed); }
      assert input[offset..offset + end] == s[1..1 + end];
      var value := ParseI64(Text(input[offset..offset + end]));
      if value.None? { return Err(Malformed); }
      offset := offset + end + 1;
      return Ok(Integer(value.value));
    }

    method ReadBytes() returns (r: Result<Bytes>)
      requires offset <= |input|
      modifies this`offset
      ensures old(offset) <= offset <= |input|
      ensures match ParseBytes(old(Rest()))
        case Parsed(bytes, used) => r == Ok(bytes) && offset == old(offset) + used
        case Bad => r.Err?
    {
      ghost var s := Rest();
      var colon := Position(input[offset..], COLON);
      if colon == |input| - offset { return Err(Malformed); }
      assert input[offset..offset + colon] == s[..colon];
      var length := ParseUnsigned(Text(input[offset..offset + colon]), U64_MAX);
      if length.None? { return Err(Malformed); }
      offset := offset + colon + 1;
      var end := offset + length.value;
      if end > |input| { return Err(Malformed); }
      r := Ok(input[offset..end]);
      SliceOfRest(input, old(offset), colon + 1, colon + 1 + length.value);
      offset := end;
    }

    method ReadList() returns (r: Result<BValue>)
      requires offset < |input| && 0 < depth <= MAX_DEPTH
      modifies this
      ensures old(offset) <= offset <= |input| && depth == old(depth)
      ensures match ParseItems(old(Rest())[1..], old(depth), [])
        case Parsed(values, used) => r == Ok(List(values)) && offset == old(offset) + 1 + used
        case Bad => r.Err?
      decreases |input| - offset - 1, 2
    {
      hide ParseItems, ParseValue;
      ghost var whole := ParseItems(Rest()[1..], depth, []);
      SliceOfRest(input, offset, 1, 1);
      offset := offset + 1;
      var values: seq<BValue> := [];
      while offset == |input| || input[offset] != LETTER_E
        invariant old(offset) < offset <= |input| && depth == old(depth)
        invariant match ParseItems(Rest(), depth, values)
          case Parsed(all, used) => whole == Parsed(all, offset - old(offset) - 1 + used)
          case Bad => whole == Bad
        decreases |input| - offset
      {
        ghost var at := offset;
        ItemsStep(Rest(), depth, values);
        var item := ReadValue();
        if item.Err? { return Err(item.error); }
        SliceOfRest(input, at, offset - at, offset - at);
        values := values + [item.value];
      }
      ItemsStep(Rest(), depth, values);
      offset := offset + 1;
      return Ok(List(values));
    }

    method ReadDict() returns (r: Result<BValue>)
      requires offset < |input| && 0 < depth <= MAX_DEPTH
      modifies this
      ensures old(offset) <= offset <= |input| && depth == old(depth)
      ensures match ParseEntries(old(Rest())[1..], old(depth), [])
        case Parsed(entries, used) => r == Ok(Dict(entries)) && offset == old(offset) + 1 + used
        case Bad => r.Err?
      decreases |input| - offset - 1, 2
    {
      hide ParseEntries, ParseBytes, ParseValue, InsertKey;
      ghost var whole := ParseEntries(Rest()[1..], depth, []);
      SliceOfRest(input, offset, 1, 1);
      offset := offset + 1;
      var entries: seq<Entry> := [];
      while offset == |input| || input[offset] != LETTER_E
        invariant old(offset) < offset <= |input| && depth == old(depth)
        invariant match ParseEntries(Rest(), depth, entries)
          case Parsed(all, used) => whole == Parsed(all, offset - old(offset) - 1 + used)
          case Bad => whole == Bad
        decreases |input| - offset
      {
        ghost var at := offset;
        EntriesStep(Rest(), depth, entries);
        var key := ReadBytes();
        if key.Err? { return Err(key.error); }
        SliceOfRest(input, at, offset - at, offset - at);
        var item := ReadValue();
        if item.Err? { return Err(item.error); }
        SliceOfRest(input, at, offset - at, offset - at);
        entries := InsertKey(entries, key.value, item.value);
      }
      EntriesStep(Rest(), depth, entries);
      offset := offset + 1;
      return Ok(Dict(entries));
    }
  }
}
