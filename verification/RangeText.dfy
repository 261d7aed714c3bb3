/** Parsing, printing and normalising the Range header (utils/range.rs; section 2.1 of RFC 7233). */
module RangeText {
  import opened Base
  import opened Ranges
  import opened Decimal

  /** The White_Space characters that `str::trim` removes. */
  predicate IsSpace(c: char)
  {
    var u := c as int;
    || 0x09 <= u <= 0x0D || u == 0x20 || u == 0x85 || u == 0xA0 || u == 0x1680
    || 0x2000 <= u <= 0x200A || u == 0x2028 || u == 0x2029 || u == 0x202F || u == 0x205F || u == 0x3000
  }

  function TrimStart(s: string): string
  {
    if s != [] && IsSpace(s[0]) then TrimStart(s[1..]) else s
  }

  function Trim(s: string): string
  {
    TrimEnd(TrimStart(s))
  }

  function TrimEnd(s: string): string
  {
    if s != [] && IsSpace(s[|s| - 1]) then TrimEnd(s[..|s| - 1]) else s
  }

  function Find(s: string, c: char): (i: nat)
    ensures i <= |s| && c !in s[..i] && (i < |s| ==> s[i] == c)
  {
    if s == [] || s[0] == c then 0
    else
      var i := Find(s[1..], c);
      assert s[..1 + i] == [s[0]] + s[1..][..i];
      1 + i
  }

  const PREFIX := "bytes="

  /** The two trimmed tokens around the only dash of a single range. */
  function SplitRange(text: string): Result<(string, string)>
  {
    if !(PREFIX <= text) then Err(BadRequest)
    else
      var range := text[|PREFIX|..];
      if ',' in range then Err(InvalidRange)
      else
        var dash := Find(range, '-');
        if dash == |range| || '-' in range[dash + 1..] then Err(BadRequest)
        else Ok((Trim(range[..dash]), Trim(range[dash + 1..])))
  }

  function ReadSpec(first: string, second: string): Result<RangeSpec>
  {
    if first == [] then
      match ParseU64(second)
      case None => Err(BadRequest)
      case Some(length) => if length == 0 then Err(InvalidRange) else Ok(Suffix(length))
    else
      var start := ParseU64(first);
      var end := if second == [] then Some(OPEN_ENDED) else ParseU64(second);
      if start.None? || end.None? || start.value > end.value then Err(BadRequest)
      else Ok(Offset(start.value, end.value))
  }

  function ParseRangeSpec(text: string): Result<RangeSpec>
  {
    match SplitRange(text)
    case Err(error) => Err(error)
    case Ok((first, second)) => ReadSpec(first, second)
  }

  function ParseRange(text: string): Result<(u64, u64)>
  {
    match ParseRangeSpec(text)
    case Ok(Offset(start, end)) => Ok((start, end))
    case Ok(Suffix(_)) => Err(InvalidRange)
    case Err(error) => Err(error)
  }

  function FormatRange(start: u64, end: u64): string
  {
    PREFIX + Print(start) + "-" + (if end == OPEN_ENDED then "" else Print(end))
  }

  // ----- the grammar -----

  predicate AllSpace(s: string) { forall i :: 0 <= i < |s| ==> IsSpace(s[i]) }

  /** Decimal digits that spell `n`, with an optional plus sign. */
  ghost predicate Numeral(s: string, n: u64)
  {
    exists digits: string :: (s == digits || s == "+" + digits) && digits != "" && AllDigits(digits) && Value(digits) == n
  }

  /** A token between spaces. */
  datatype Field = Field(before: string, token: string, after: string)

  function Text(f: Field): string { f.before + f.token + f.after }

  predicate Padded(f: Field) { AllSpace(f.before) && AllSpace(f.after) }

  ghost predicate Means(first: string, second: string, spec: RangeSpec)
  {
    match spec
    case Offset(start, end) => start <= end && Numeral(first, start) && (if second == "" then end == OPEN_ENDED else Numeral(second, end))
    case Suffix(length) => length > 0 && first == "" && Numeral(second, length)
  }

  ghost predicate Form(text: string, a: Field, b: Field)
  {
    text == PREFIX + (Text(a) + "-" + Text(b)) && Padded(a) && Padded(b)
  }

  /** The text is a range header for `spec`: two padded tokens around a dash. */
  ghost predicate Written(text: string, spec: RangeSpec)
  {
    exists a: Field, b: Field :: Form(text, a, b) && Means(a.token, b.token, spec)
  }

  lemma NumeralParses(s: string, n: u64)
    ensures ParseU64(s) == Some(n) <==> Numeral(s, n)
  {
    if Numeral(s, n) {
      var digits :| (s == digits || s == "+" + digits) && digits != "" && AllDigits(digits) && Value(digits) == n;
      assert IsDigit(digits[0]);
      if s != digits { assert s[1..] == digits; }
    }
    if ParseU64(s) == Some(n) {
      var digits := if s != [] && s[0] == '+' then s[1..] else s;
      assert s == digits || s == "+" + digits;
    }
  }

  /** A character of a token: no space, comma or dash. */
  predicate Solid(s: string) { forall i :: 0 <= i < |s| ==> IsDigit(s[i]) || s[i] == '+' }

  lemma TokensAreSolid(first: string, second: string, spec: RangeSpec)
    requires Means(first, second, spec)
    ensures Solid(first) && Solid(second)
  {
  }

  lemma {:induction false} TrimStartPad(pad: string, t: string)
    requires AllSpace(pad) && (t == [] || !IsSpace(t[0]))
    ensures TrimStart(pad + t) == t
  {
    if pad == [] {
      assert pad + t == t;
    } else {
      assert (pad + t)[1..] == pad[1..] + t;
      TrimStartPad(pad[1..], t);
    }
  }

  lemma {:induction false} TrimEndPad(t: string, pad: string)
    requires AllSpace(pad) && (t == [] || !IsSpace(t[|t| - 1]))
    ensures TrimEnd(t + pad) == t
  {
    if pad == [] {
      assert t + pad == t;
    } else {
      var n := |pad| - 1;
      assert (t + pad)[..|t| + n] == t + pad[..n];
      TrimEndPad(t, pad[..n]);
    }
  }

  lemma TrimField(f: Field)
    requires Padded(f) && Solid(f.token)
    ensures Trim(Text(f)) == f.token
  {
    hide IsSpace;
    SolidIsNoSpace(f.token);
    if f.token == [] {
      assert Text(f) == (f.before + f.after) + [];
      TrimStartPad(f.before + f.after, []);
    } else {
      assert Text(f) == f.before + (f.token + f.after);
      TrimStartPad(f.before, f.token + f.after);
      TrimEndPad(f.token, f.after);
    }
  }

  lemma SolidIsNoSpace(s: string)
    requires Solid(s)
    ensures forall i :: 0 <= i < |s| ==> !IsSpace(s[i])
  {
  }

  lemma FieldHasNoMarks(f: Field)
    requires Padded(f) && Solid(f.token)
    ensures '-' !in Text(f) && ',' !in Text(f)
  {
    assert !IsSpace('-') && !IsSpace(',') && !IsDigit('-') && !IsDigit(',');
    hide IsSpace, IsDigit;
  }

  /** Trimming cuts a text into a token and the spaces around it. */
  lemma {:induction false} TrimStartCuts(s: string) returns (n: nat)
    ensures n <= |s| && TrimStart(s) == s[n..] && AllSpace(s[..n])
  {
    n := 0;
    if s != [] && IsSpace(s[0]) {
      var m := TrimStartCuts(s[1..]);
      n := m + 1;
      assert s[..n] == [s[0]] + s[1..][..m];
    }
  }

  lemma {:induction false} TrimEndCuts(s: string) returns (n: nat)
    ensures n <= |s| && TrimEnd(s) == s[..n] && AllSpace(s[n..])
  {
    n := |s|;
    if s != [] && IsSpace(s[|s| - 1]) {
      n := TrimEndCuts(s[..|s| - 1]);
      assert s[n..] == s[..|s| - 1][n..] + [s[|s| - 1]];
    }
  }

  lemma TrimCuts(s: string) returns (f: Field)
    ensures Text(f) == s && Padded(f) && f.token == Trim(s)
  {
    hide TrimStart, TrimEnd, AllSpace;
    var i := TrimStartCuts(s);
    var rest := s[i..];
    var j := TrimEndCuts(rest);
    f := Field(s[..i], rest[..j], rest[j..]);
    assert s == s[..i] + rest && rest == rest[..j] + rest[j..];
  }

  lemma {:induction false} FindDash(a: string, b: string)
    requires '-' !in a
    ensures var s := a + "-" + b; Find(s, '-') == |a| && s[..|a|] == a && s[|a| + 1..] == b
  {
    var s := a + "-" + b;
    if a != [] {
      assert s[1..] == a[1..] + "-" + b;
      FindDash(a[1..], b);
    }
  }

  /** The parser accepts exactly the texts of the grammar, with exactly their meaning. */
  lemma ParsesExactly(text: string, spec: RangeSpec)
    ensures ParseRangeSpec(text) == Ok(spec) <==> Written(text, spec)
  {
    if ParseRangeSpec(text) == Ok(spec) { ParsedIsWritten(text, spec); }
    if Written(text, spec) {
      var a, b :| Form(text, a, b) && Means(a.token, b.token, spec);
      WrittenParses(text, a, b, spec);
    }
  }

  /** The tokens mean what is read from them. */
  lemma ReadIsMeaning(first: string, second: string, spec: RangeSpec)
    ensures ReadSpec(first, second) == Ok(spec) <==> Means(first, second, spec)
  {
    hide ParseU64, Numeral;
    NumeralIsText();
    match spec
    case Offset(start, end) =>
      NumeralParses(first, start);
      NumeralParses(second, end);
    case Suffix(length) => NumeralParses(second, length);
  }

  lemma NumeralIsText()
    ensures forall n: u64 :: !Numeral("", n)
  {
  }

  lemma SplitIsForm(text: string) returns (a: Field, b: Field)
    requires SplitRange(text).Ok?
    ensures Form(text, a, b) && SplitRange(text).value == (a.token, b.token)
  {
    hide Trim, Find, Padded, Text;
    var range := text[|PREFIX|..];
    var dash := Find(range, '-');
    a := TrimCuts(range[..dash]);
    b := TrimCuts(range[dash + 1..]);
    assert text == PREFIX + range && range == range[..dash] + "-" + range[dash + 1..];
  }

  lemma FormIsSplit(text: string, a: Field, b: Field)
    requires Form(text, a, b) && Solid(a.token) && Solid(b.token)
    ensures SplitRange(text) == Ok((a.token, b.token))
  {
    hide Trim, Find, Solid, Padded, Text;
    TrimField(a);
    TrimField(b);
    FieldHasNoMarks(a);
    FieldHasNoMarks(b);
    FindDash(Text(a), Text(b));
    assert text[|PREFIX|..] == Text(a) + "-" + Text(b);
  }

  lemma ParsedIsWritten(text: string, spec: RangeSpec)
    requires ParseRangeSpec(text) == Ok(spec)
    ensures Written(text, spec)
  {
    hide SplitRange, ReadSpec, Means, Form;
    var a, b := SplitIsForm(text);
    ReadIsMeaning(a.token, b.token, spec);
  }

  lemma WrittenParses(text: string, a: Field, b: Field, spec: RangeSpec)
    requires Form(text, a, b) && Means(a.token, b.token, spec)
    ensures ParseRangeSpec(text) == Ok(spec)
  {
    hide SplitRange, ReadSpec, Means, Form, Solid;
    TokensAreSolid(a.token, b.token, spec);
    FormIsSplit(text, a, b);
    ReadIsMeaning(a.token, b.token, spec);
  }

  /** A suffix of no bytes. */
  ghost predicate EmptySuffix(text: string)
  {
    exists a: Field, b: Field :: Form(text, a, b) && a.token == "" && Numeral(b.token, 0)
  }

  lemma EmptySuffixRefused(text: string, a: Field, b: Field)
    requires Form(text, a, b) && a.token == "" && Numeral(b.token, 0)
    ensures ParseRangeSpec(text) == Err(InvalidRange)
  {
    hide SplitRange, Form;
    FormIsSplit(text, a, b) by { assert Solid(b.token); }
    NumeralParses(b.token, 0);
  }

  lemma InvalidIsEmptySuffix(text: string)
    requires SplitRange(text).Ok? && ParseRangeSpec(text) == Err(InvalidRange)
    ensures EmptySuffix(text)
  {
    hide SplitRange, Form, ParseU64, Numeral;
    var a, b := SplitIsForm(text);
    NumeralParses(b.token, 0);
  }

  /** Of the refused texts, several ranges and a suffix of no bytes cannot be satisfied; anything else is a malformed request. */
  lemma RefusalKinds(text: string)
    ensures var r := ParseRangeSpec(text);
      r.Err? ==> r.error == if "bytes=" <= text && (',' in text[6..] || EmptySuffix(text)) then InvalidRange else BadRequest
  {
    hide Form, Numeral, ParseU64, Trim, Find;
    if EmptySuffix(text) {
      var a, b :| Form(text, a, b) && a.token == "" && Numeral(b.token, 0);
      EmptySuffixRefused(text, a, b);
    }
    if SplitRange(text).Ok? && ParseRangeSpec(text) == Err(InvalidRange) { InvalidIsEmptySuffix(text); }
  }

  /** What counts as a space. */
  lemma SpacesAre(c: char)
    ensures IsSpace(c) <==> c as int in {9, 10, 11, 12, 13, 32, 133, 160, 5760,
      8192, 8193, 8194, 8195, 8196, 8197, 8198, 8199, 8200, 8201, 8202, 8232, 8233, 8239, 8287, 12288}
  {
  }

  // ----- round trip -----

  /** What format_range prints is parsed back as the same pair, also at the sentinel. */
  lemma FormatParses(start: u64, end: u64)
    requires start <= end
    ensures ParseRange(FormatRange(start, end)) == Ok((start, end))
  {
    hide ParseRangeSpec, Print, Numeral, Form;
    var second := if end == OPEN_ENDED then "" else Print(end);
    PrintIsNumeral(start);
    PrintIsNumeral(end);
    PlainForm(Print(start), second);
    assert FormatRange(start, end) == PREFIX + (Print(start) + "-" + second);
    WrittenParses(FormatRange(start, end), Field("", Print(start), ""), Field("", second, ""), Offset(start, end));
  }

  lemma PlainForm(x: string, y: string)
    ensures Form(PREFIX + (x + "-" + y), Field("", x, ""), Field("", y, ""))
  {
    assert Text(Field("", x, "")) == x && Text(Field("", y, "")) == y;
  }

  lemma PrintIsNumeral(n: u64)
    ensures Numeral(Print(n), n)
  {
    ParsePrint(n, U64_MAX);
    NumeralParses(Print(n), n);
  }

  // ----- normalisation -----

  /** The bytes a parsed range denotes in a resource of `total` bytes. */
  predicate Denotes(spec: RangeSpec, total: u64, x: int)
  {
    && 0 <= x < total
    && match spec
       case Offset(start, end) => start <= x <= end
       case Suffix(length) => total - length <= x
  }

  /** parse, endpoints, format, parse again, resolve: the path a request's range takes. */
  function Normalise(text: string, total: u64): Result<(u64, u64)>
  {
    match ParseRangeSpec(text)
    case Err(error) => Err(error)
    case Ok(spec) =>
      match Endpoints(spec, Some(total))
      case Err(error) => Err(error)
      case Ok(pair) =>
        match ParseRange(FormatRange(pair.0, pair.1))
        case Err(error) => Err(error)
        case Ok(again) => ResolveRange(again.0, again.1, Some(total))
  }

  /** A text of the grammar resolves to exactly the denoted bytes, and is refused exactly when it denotes none. */
  lemma NormaliseDenotes(text: string, total: u64, spec: RangeSpec)
    requires Written(text, spec)
    ensures Normalise(text, total).Ok? <==> exists x :: Denotes(spec, total, x)
    ensures Normalise(text, total).Ok? ==>
      var (s, e) := Normalise(text, total).value;
      s <= e < total && forall x :: s <= x <= e <==> Denotes(spec, total, x)
    ensures Normalise(text, total).Err? ==> Normalise(text, total) == Err(InvalidRange)
  {
    hide FormatRange, ParseRange, Written;
    ParsesExactly(text, spec);
    SpecOrdered(text);
    if Endpoints(spec, Some(total)).Ok? {
      var pair := Endpoints(spec, Some(total)).value;
      FormatParses(pair.0, pair.1);
    }
    if Normalise(text, total).Ok? { assert Denotes(spec, total, Normalise(text, total).value.0); }
  }

  lemma SpecOrdered(text: string)
    ensures ParseRangeSpec(text).Ok? ==>
      match ParseRangeSpec(text).value
      case Offset(start, end) => start <= end
      case Suffix(length) => length > 0
  {
    hide Find, Trim, ParseU64;
  }

  /** Once resolved, no length computed from the range overflows, and clamping keeps exactly the offsets the upstream sends. */
  lemma LengthsDoNotOverflow(start: u64, end: u64, total: Option<u64>, upstreamLength: u64)
    requires start <= end && ResolveRange(start, end, total).Ok?
    ensures var (s, e) := ResolveRange(start, end, total).value;
      var clamped := ClampEnd(s, e, upstreamLength);
      && s <= clamped <= e < OPEN_ENDED
      && RangeLength(s, e) == Ok(e - s + 1) && RangeLength(s, clamped) == Ok(clamped - s + 1)
      && (upstreamLength > 0 ==> clamped - s + 1 <= upstreamLength)
      && (clamped < e ==> clamped - s + 1 == upstreamLength)
      && (upstreamLength == 0 ==> clamped == e)
  {
  }
}
