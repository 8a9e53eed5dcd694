/**
 * Decimal text of integers: what `%d`, `snowflake.ID.String()`, `strconv.ParseUint(s, 10, 64)` and
 * `strconv.ParseInt(s, 10, 64)` do. The parsers keep Go's 64-bit arithmetic: the cutoff test, the
 * multiplication, the addition that may wrap around.
 */
module Decimal {
  import opened Common

  const TWO_63: int := 0x8000_0000_0000_0000
  const TWO_64: int := 0x1_0000_0000_0000_0000

  predicate IsDigit(c: char) {
    '0' <= c <= '9'
  }

  predicate AllDigits(s: string) {
    forall i :: 0 <= i < |s| ==> IsDigit(s[i])
  }

  function DigitValue(c: char): (d: nat)
    requires IsDigit(c)
  {
    c as int - '0' as int
  }

  function DigitChar(d: nat): (c: char)
    requires d < 10
  {
    ('0' as int + d) as char
  }

  /** The number a string of digits denotes. */
  function Value(s: string): (v: nat)
    requires AllDigits(s)
  {
    if s == "" then 0 else 10 * Value(s[..|s| - 1]) + DigitValue(s[|s| - 1])
  }

  function PrintNat(n: nat): (s: string) {
    if n < 10 then [DigitChar(n)] else PrintNat(n / 10) + [DigitChar(n % 10)]
  }

  function PrintInt(n: int): (s: string) {
    if n < 0 then "-" + PrintNat(-n) else PrintNat(n)
  }

  /** One round of the parser's loop: cutoff test, multiplication, addition that may wrap around; None is a range error. */
  function AppendDigit(n: nat, d: nat): (r: Option<nat>)
    requires n < TWO_64 && d < 10
    ensures r == if n * 10 + d < TWO_64 then Some(n * 10 + d) else None
  {
    if n >= (TWO_64 - 1) / 10 + 1 then None
    else
      var scaled := n * 10 % TWO_64;
      var sum := (scaled + d) % TWO_64;
      if sum < scaled then None else Some(sum)
  }

  /** `strconv.ParseUint(s, 10, 64)` from position `i` on, with `n` read so far; None is an error. */
  function ParseUintFrom(s: string, i: nat, n: nat): (r: Option<nat>)
    requires i <= |s| && n < TWO_64
    decreases |s| - i
  {
    if i == |s| then Some(n)
    else if !IsDigit(s[i]) then None
    else
      var next := AppendDigit(n, DigitValue(s[i]));
      if next.None? then None else ParseUintFrom(s, i + 1, next.value)
  }

  function ParseUint64(s: string): (r: Option<nat>) {
    if s == "" then None else ParseUintFrom(s, 0, 0)
  }

  /** `strconv.ParseInt(s, 10, 64)`. */
  function ParseInt64(s: string): (r: Option<int>) {
    if s == "" then None
    else
      var negative := s[0] == '-';
      var magnitude := ParseUint64(if s[0] == '+' || s[0] == '-' then s[1..] else s);
      if magnitude.None? then None
      else if !negative && magnitude.value >= TWO_63 then None
      else if negative && magnitude.value > TWO_63 then None
      else
        var m: int := magnitude.value;
        Some(if negative then -m else m)
  }

  lemma {:induction false} ValuePrefix(s: string, i: nat)
    requires AllDigits(s) && i < |s|
    ensures Value(s[..i + 1]) == 10 * Value(s[..i]) + DigitValue(s[i])
  {
    assert s[..i + 1][..i] == s[..i];
  }

  lemma {:induction false} ValueMonotone(s: string, i: nat)
    requires AllDigits(s) && i <= |s|
    ensures Value(s[..i]) <= Value(s)
    decreases |s| - i
  {
    if i == |s| {
      assert s[..i] == s;
    } else {
      ValuePrefix(s, i);
      ValueMonotone(s, i + 1);
    }
  }

  lemma {:induction false} ParseUintFromMeaning(s: string, i: nat)
    requires i <= |s| && AllDigits(s[..i]) && Value(s[..i]) < TWO_64
    ensures ParseUintFrom(s, i, Value(s[..i]))
            == if AllDigits(s) && Value(s) < TWO_64 then Some(Value(s)) else None
    decreases |s| - i
  {
    if i == |s| {
      assert s[..i] == s;
    } else if !IsDigit(s[i]) {
    } else {
      var t := s[..i + 1];
      assert AllDigits(t) && t[..i] == s[..i] && t[i] == s[i];
      ValuePrefix(t, i);
      assert t[..i + 1] == t;
      if Value(t) < TWO_64 {
        ParseUintFromMeaning(s, i + 1);
      } else if AllDigits(s) {
        ValueMonotone(s, i + 1);
      }
    }
  }

  /** The wrapping parser accepts exactly the non-empty digit strings below 2^64. */
  lemma ParseUint64Meaning(s: string)
    ensures ParseUint64(s)
            == if s != "" && AllDigits(s) && Value(s) < TWO_64 then Some(Value(s)) else None
  {
    if s != "" {
      assert s[..0] == "";
      ParseUintFromMeaning(s, 0);
    }
  }

  lemma {:induction false} PrintNatValue(n: nat)
    ensures PrintNat(n) != "" && AllDigits(PrintNat(n)) && Value(PrintNat(n)) == n
  {
    if n < 10 {
      assert PrintNat(n)[..0] == "";
    } else {
      PrintNatValue(n / 10);
      var s := PrintNat(n);
      assert s[..|s| - 1] == PrintNat(n / 10);
    }
  }

  lemma ParsePrintedInt(n: int)
    requires -TWO_63 <= n < TWO_63
    ensures ParseInt64(PrintInt(n)) == Some(n)
  {
    var m := if n < 0 then -n else n;
    PrintNatValue(m);
    ParseUint64Meaning(PrintNat(m));
    var s := PrintInt(n);
    if n < 0 {
      assert s[1..] == PrintNat(m);
    } else {
      assert IsDigit(s[0]);
    }
  }

  /** Accepted are digits with a sign or none, within the 64-bit range; the value is that of the digits with the sign. */
  lemma ParseInt64Meaning(s: string)
    ensures var signed := s != "" && (s[0] == '+' || s[0] == '-');
            var digits := if signed then s[1..] else s;
            var magnitude: int := if AllDigits(digits) then Value(digits) else 0;
            ParseInt64(s)
            == if digits == "" || !AllDigits(digits) then None
               else if signed && s[0] == '-' then (if magnitude <= TWO_63 then Some(-magnitude) else None)
               else if magnitude < TWO_63 then Some(magnitude) else None
  {
    if s != "" {
      var digits := if s[0] == '+' || s[0] == '-' then s[1..] else s;
      ParseUint64Meaning(digits);
    }
  }

  /** The characters and the base are the usual ones. */
  lemma WrittenInDecimal()
    ensures PrintInt(-120) == "-120" && PrintInt(9) == "9"
  {
    assert PrintNat(12) == PrintNat(1) + "2" && PrintNat(120) == PrintNat(12) + "0";
  }

  lemma ReadInDecimal()
    ensures Value("120") == 120 && Value("9") == 9
  {
    assert "120"[..2] == "12" && "12"[..1] == "1" && "1"[..0] == "" && "9"[..0] == "";
    assert Value("1") == 1 && Value("12") == 12;
  }

  lemma PrintIntInjective(a: int, b: int)
    requires PrintInt(a) == PrintInt(b)
    ensures a == b
  {
    PrintNatValue(if a < 0 then -a else a);
    PrintNatValue(if b < 0 then -b else b);
    assert a < 0 ==> PrintInt(a)[0] == '-' && PrintInt(a)[1..] == PrintNat(-a);
    assert b < 0 ==> PrintInt(b)[0] == '-' && PrintInt(b)[1..] == PrintNat(-b);
    assert a >= 0 ==> IsDigit(PrintInt(a)[0]);
    assert b >= 0 ==> IsDigit(PrintInt(b)[0]);
  }
}
