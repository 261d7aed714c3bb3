/** Decimal text as Rust prints and parses it. */
module Decimal {
  import opened Base

  predicate IsDigit(c: char) { '0' <= c <= '9' }

  predicate AllDigits(s: string) { forall i :: 0 <= i < |s| ==> IsDigit(s[i]) }

  function Value(s: string): nat
    requires AllDigits(s)
  {
    if s == [] then 0 else Value(s[..|s| - 1]) * 10 + (s[|s| - 1] as int - '0' as int)
  }

  function Digit(d: nat): (c: char)
    requires d < 10
    ensures IsDigit(c) && c as int == '0' as int + d
  {
    ('0' as int + d) as char
  }

  function Print(n: nat): (s: string)
    ensures s != [] && AllDigits(s)
  {
    if n < 10 then [Digit(n)] else Print(n / 10) + [Digit(n % 10)]
  }

  /** Printing is undone by reading the digits. */
  lemma {:induction false} ValuePrint(n: nat)
    ensures Value(Print(n)) == n
  {
    var s := Print(n);
    if n < 10 {
      assert s[..0] == [];
    } else {
      ValuePrint(n / 10);
      assert s[..|s| - 1] == Print(n / 10);
    }
  }

  /** `str::parse` for an unsigned integer with the given maximum: an optional plus sign, then digits. */
  function ParseUnsigned(s: string, max: nat): Option<nat>
  {
    var digits := if s != [] && s[0] == '+' then s[1..] else s;
    if digits != [] && AllDigits(digits) && Value(digits) <= max then Some(Value(digits)) else None
  }

  function ParseU64(s: string): (r: Option<u64>)
  {
    match ParseUnsigned(s, U64_MAX) case Some(n) => Some(n) case None => None
  }

  /** Printing and parsing round-trip up to the maximum, and larger numbers are refused. */
  lemma ParsePrint(n: nat, max: nat)
    ensures ParseUnsigned(Print(n), max) == if n <= max then Some(n) else None
  {
    ValuePrint(n);
    assert IsDigit(Print(n)[0]);
  }

  function Power10(n: nat): nat { if n == 0 then 1 else 10 * Power10(n - 1) }

  lemma Carry(x: nat, p: nat, y: nat)
    ensures (x * p + y) * 10 == x * (10 * p) + y * 10
  {
  }

  /** Digits count by position, in tens. */
  lemma {:induction false} ValueIsPositional(a: string, b: string)
    requires AllDigits(a) && AllDigits(b)
    ensures AllDigits(a + b) && Value(a + b) == Value(a) * Power10(|b|) + Value(b)
  {
    if b == [] {
      assert a + b == a;
    } else {
      var n := |b| - 1;
      ValueIsPositional(a, b[..n]);
      assert (a + b)[..|a + b| - 1] == a + b[..n];
      Carry(Value(a), Power10(n), Value(b[..n]));
    }
  }

  /** What each digit is worth. */
  lemma DigitValues()
    ensures Value("0") == 0 && Value("1") == 1 && Value("2") == 2 && Value("3") == 3 && Value("4") == 4
    ensures Value("5") == 5 && Value("6") == 6 && Value("7") == 7 && Value("8") == 8 && Value("9") == 9
  {
    assert forall c: char :: [c][..0] == [];
  }

  /** Exactly an optional plus sign and digits that do not exceed the maximum are read, leading zeros included. */
  lemma ParsesDigits(s: string, max: nat, n: nat)
    ensures ParseUnsigned(s, max) == Some(n) <==>
      exists digits: string :: (s == digits || s == "+" + digits) && digits != [] && AllDigits(digits) && n == Value(digits) <= max
  {
    if ParseUnsigned(s, max) == Some(n) {
      var digits := if s[0] == '+' then s[1..] else s;
      assert s == digits || s == "+" + digits;
    }
    if digits: string :| (s == digits || s == "+" + digits) && digits != [] && AllDigits(digits) && n == Value(digits) <= max {
      if s == digits { assert IsDigit(s[0]); } else { assert s[1..] == digits; }
    }
  }
}
