/** Go's fmt "%d": printing a count, and Sscanf reading one back. */
module Decimal {
  import opened Base
  import opened Text

  const MAX_INT64: int := 0x7FFF_FFFF_FFFF_FFFF
  const MIN_INT64: int := -0x8000_0000_0000_0000

  predicate IsDigit(c: char) {
    '0' <= c <= '9'
  }

  function DigitChar(d: nat): (c: char)
    requires d < 10
    ensures IsDigit(c) && DigitValue(c) == d
  {
    ('0' as int + d) as char
  }

  function DigitValue(c: char): nat
    requires IsDigit(c)
  {
    c as int - '0' as int
  }

  /** Sprintf("%d", n) for n >= 0. */
  function FormatNat(n: nat): (s: string)
    ensures s != [] && forall i | 0 <= i < |s| :: IsDigit(s[i])
  {
    if n < 10 then [DigitChar(n)] else FormatNat(n / 10) + [DigitChar(n % 10)]
  }

  /** The longest prefix of digits. */
  function LeadingDigits(s: string): (d: string)
    ensures forall i | 0 <= i < |d| :: IsDigit(d[i])
  {
    if s == [] || !IsDigit(s[0]) then [] else [s[0]] + LeadingDigits(s[1..])
  }

  function DecimalValue(d: string): nat
    requires forall i | 0 <= i < |d| :: IsDigit(d[i])
  {
    if d == [] then 0 else 10 * DecimalValue(d[..|d| - 1]) + DigitValue(d[|d| - 1])
  }

  /** SkipSpace: a newline is an error for Sscanf. */
  function SkipSpace(s: string): Option<string> {
    if s == [] then Some(s)
    else if s[0] == '\n' then None
    else if IsSpace(s[0]) then SkipSpace(s[1..])
    else Some(s)
  }

  /** Sscanf(s, "%d", &v): what follows the number is ignored; None is an error. */
  function ScanInt(s: string): Option<int> {
    match SkipSpace(s)
    case None => None
    case Some(t) =>
      var signed := t != [] && (t[0] == '+' || t[0] == '-');
      var d := LeadingDigits(if signed then t[1..] else t);
      if d == [] then None
      else
        var magnitude: int := DecimalValue(d);
        var v := if signed && t[0] == '-' then 0 - magnitude else magnitude;
        if MIN_INT64 <= v <= MAX_INT64 then Some(v) else None
  }

  lemma {:induction false} LeadingDigitsOfDigits(s: string)
    requires forall i | 0 <= i < |s| :: IsDigit(s[i])
    ensures LeadingDigits(s) == s
  {
    if s != [] {
      LeadingDigitsOfDigits(s[1..]);
      assert s == [s[0]] + s[1..];
    }
  }

  lemma {:induction false} FormatNatValue(n: nat)
    ensures DecimalValue(FormatNat(n)) == n
  {
    var s := FormatNat(n);
    if n >= 10 {
      FormatNatValue(n / 10);
      assert s[..|s| - 1] == FormatNat(n / 10);
    } else {
      assert s[..|s| - 1] == [];
    }
  }

  /** Scanning a printed count gives the count back, exactly while it fits 64 bits. */
  lemma ScanFormat(n: nat)
    ensures ScanInt(FormatNat(n)) == if n <= MAX_INT64 then Some(n) else None
  {
    var s := FormatNat(n);
    assert IsDigit(s[0]);
    LeadingDigitsOfDigits(s);
    FormatNatValue(n);
  }

  lemma {:induction false} LeadingDigitsBefore(d: string, rest: string)
    requires (forall i | 0 <= i < |d| :: IsDigit(d[i])) && (rest == "" || !IsDigit(rest[0]))
    ensures LeadingDigits(d + rest) == d
  {
    if d == "" {
      assert d + rest == rest;
    } else {
      assert (d + rest)[1..] == d[1..] + rest;
      LeadingDigitsBefore(d[1..], rest);
    }
  }

  lemma ScanUnsigned(n: nat, rest: string)
    requires n <= MAX_INT64 && (rest == "" || !IsDigit(rest[0]))
    ensures ScanInt(FormatNat(n) + rest) == Some(n)
  {
    var s := FormatNat(n) + rest;
    LeadingDigitsBefore(FormatNat(n), rest);
    FormatNatValue(n);
    assert s[0] == FormatNat(n)[0] && SkipSpace(s) == Some(s);
  }

  /** A sign counts, and what follows the digits does not. */
  lemma ScanSigned(n: nat, sign: char, rest: string)
    requires n <= MAX_INT64 && (rest == "" || !IsDigit(rest[0])) && (sign == '+' || sign == '-')
    ensures var v := ScanInt([sign] + (FormatNat(n) + rest)); v.Some? && v.value == if sign == '-' then 0 - n else n
  {
    var t := FormatNat(n) + rest;
    var s := [sign] + t;
    LeadingDigitsBefore(FormatNat(n), rest);
    FormatNatValue(n);
    assert s[0] == sign && s[1..] == t && SkipSpace(s) == Some(s);
  }

  /** No number, no count. */
  lemma ScanNothing(s: string)
    requires s == "" || (!IsSpace(s[0]) && !IsDigit(s[0]) && s[0] != '+' && s[0] != '-')
    ensures ScanInt(s) == None
  {
  }
}
