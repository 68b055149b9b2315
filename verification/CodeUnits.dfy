/** The orders of strings are those of their encodings: Go compares the bytes of UTF-8, JavaScript the units of UTF-16,
    and objects list index keys by value. */
module CodeUnits {
  import opened Base
  import opened Decimal
  import opened JsOrder
  import opened Orders
  import opened Utf8

  type Units = seq<int>

  /** Lexicographic order of numbers. */
  predicate Before(x: Units, y: Units) {
    y != [] && (x == [] || x[0] < y[0] || (x[0] == y[0] && Before(x[1..], y[1..])))
  }

  /** They first differ at k, where x is less. */
  predicate DifferAt(x: Units, y: Units, k: nat) {
    k < |x| && k < |y| && x[..k] == y[..k] && x[k] < y[k]
  }

  lemma {:induction false} DifferenceDecides(x: Units, y: Units, k: nat, r: Units, s: Units)
    requires DifferAt(x, y, k)
    ensures Before(x + r, y + s) && !Before(y + s, x + r)
  {
    if k > 0 {
      assert x[0] == x[..k][0] && y[0] == y[..k][0];
      assert x[1..][..k - 1] == x[..k][1..] && y[1..][..k - 1] == y[..k][1..];
      DifferenceDecides(x[1..], y[1..], k - 1, r, s);
      assert (x + r)[1..] == x[1..] + r && (y + s)[1..] == y[1..] + s;
    }
  }

  lemma {:induction false} CommonStart(p: Units, x: Units, y: Units)
    ensures Before(p + x, p + y) <==> Before(x, y)
  {
    if p == [] {
      assert p + x == x && p + y == y;
    } else {
      assert (p + x)[1..] == p[1..] + x && (p + y)[1..] == p[1..] + y;
      CommonStart(p[1..], x, y);
    }
  }

  // ---------------------------------------------------------------- the bytes of UTF-8

  lemma FirstBytes(c: char, d: char) returns (k: nat)
    requires c < d
    ensures DifferAt(EncodeChar(c), EncodeChar(d), k)
  {
    var u, v := c as int, d as int;
    if |EncodeChar(c)| < |EncodeChar(d)| || u < 0x80 {
      k := 0;
      ShorterIsLess(c, d);
    } else if v < 0x800 {
      k := TwoBytes(u, v);
    } else if v < 0x1_0000 {
      k := ThreeBytes(u, v);
    } else {
      k := FourBytes(u, v);
    }
  }

  lemma ShorterIsLess(c: char, d: char)
    requires c < d && (|EncodeChar(c)| < |EncodeChar(d)| || c as int < 0x80)
    ensures EncodeChar(c)[0] < EncodeChar(d)[0]
  {
  }

  lemma TwoBytes(u: int, v: int) returns (k: nat)
    requires 0x80 <= u < v < 0x800
    ensures DifferAt([0xC0 + u / 64, 0x80 + u % 64], [0xC0 + v / 64, 0x80 + v % 64], k)
  {
    k := if u / 64 < v / 64 then 0 else 1;
  }

  lemma ThreeBytes(u: int, v: int) returns (k: nat)
    requires 0x800 <= u < v < 0x1_0000
    ensures DifferAt([0xE0 + u / 4096, 0x80 + u / 64 % 64, 0x80 + u % 64],
                     [0xE0 + v / 4096, 0x80 + v / 64 % 64, 0x80 + v % 64], k)
  {
    Digits(u);
    Digits(v);
    k := if u / 4096 < v / 4096 then 0 else if u / 64 < v / 64 then 1 else 2;
  }

  lemma FourBytes(u: int, v: int) returns (k: nat)
    requires 0x1_0000 <= u < v < 0x11_0000
    ensures DifferAt([0xF0 + u / 262144, 0x80 + u / 4096 % 64, 0x80 + u / 64 % 64, 0x80 + u % 64],
                     [0xF0 + v / 262144, 0x80 + v / 4096 % 64, 0x80 + v / 64 % 64, 0x80 + v % 64], k)
  {
    Digits(u);
    Digits(v);
    k := if u / 262144 < v / 262144 then 0 else if u / 4096 < v / 4096 then 1 else if u / 64 < v / 64 then 2 else 3;
  }

  /** Go's order is the order of the bytes. */
  lemma {:induction false} GoLessIsByteOrder(a: string, b: string)
    ensures GoLess(a, b) <==> Before(Encode(a), Encode(b))
  {
    if a != "" && b != "" {
      if a[0] == b[0] {
        GoLessIsByteOrder(a[1..], b[1..]);
        CommonStart(EncodeChar(a[0]), Encode(a[1..]), Encode(b[1..]));
      } else if a[0] < b[0] {
        var k := FirstBytes(a[0], b[0]);
        DifferenceDecides(EncodeChar(a[0]), EncodeChar(b[0]), k, Encode(a[1..]), Encode(b[1..]));
      } else {
        var k := FirstBytes(b[0], a[0]);
        DifferenceDecides(EncodeChar(b[0]), EncodeChar(a[0]), k, Encode(b[1..]), Encode(a[1..]));
      }
    }
  }

  // ---------------------------------------------------------------- the units of UTF-16

  /** One unit, or a surrogate pair. */
  function UnitsOfChar(c: char): (us: Units)
    ensures us != []
  {
    var u := c as int;
    if u < 0x1_0000 then [u] else [0xD800 + (u - 0x1_0000) / 0x400, 0xDC00 + (u - 0x1_0000) % 0x400]
  }

  function Utf16(s: string): Units {
    if s == "" then [] else UnitsOfChar(s[0]) + Utf16(s[1..])
  }

  lemma FirstUnits(c: char, d: char) returns (k: nat)
    requires Rank(c) < Rank(d)
    ensures DifferAt(UnitsOfChar(c), UnitsOfChar(d), k)
  {
    var u, v := c as int, d as int;
    if u < 0x1_0000 || v < 0x1_0000 {
      k := 0;
    } else {
      k := if (u - 0x1_0000) / 0x400 < (v - 0x1_0000) / 0x400 then 0 else 1;
    }
  }

  /** JavaScript's order is the order of the units. */
  lemma {:induction false} LessIsUnitOrder(a: string, b: string)
    ensures Less(a, b) <==> Before(Utf16(a), Utf16(b))
  {
    if a != "" && b != "" {
      if a[0] == b[0] {
        LessIsUnitOrder(a[1..], b[1..]);
        CommonStart(UnitsOfChar(a[0]), Utf16(a[1..]), Utf16(b[1..]));
      } else if Rank(a[0]) < Rank(b[0]) {
        var k := FirstUnits(a[0], b[0]);
        DifferenceDecides(UnitsOfChar(a[0]), UnitsOfChar(b[0]), k, Utf16(a[1..]), Utf16(b[1..]));
      } else {
        var k := FirstUnits(b[0], a[0]);
        DifferenceDecides(UnitsOfChar(b[0]), UnitsOfChar(a[0]), k, Utf16(b[1..]), Utf16(a[1..]));
      }
    }
  }

  // ---------------------------------------------------------------- index keys

  predicate AllDigits(k: string) {
    forall i | 0 <= i < |k| :: IsDigit(k[i])
  }

  predicate IsNumeral(k: string) {
    k != "" && AllDigits(k) && (k[0] == '0' ==> |k| == 1)
  }

  function Power(n: nat): (p: nat)
    ensures p > 0
  {
    if n == 0 then 1 else 10 * Power(n - 1)
  }

  /** A number, by its first digit. */
  lemma {:induction false} ValueByFirst(k: string)
    requires k != "" && AllDigits(k)
    ensures DecimalValue(k) == DigitValue(k[0]) * Power(|k| - 1) + DecimalValue(k[1..])
    ensures DecimalValue(k[1..]) < Power(|k| - 1)
  {
    if |k| > 1 {
      var init, last := k[..|k| - 1], k[|k| - 1];
      ValueByFirst(init);
      assert init[1..] == k[1..][..|k| - 2] && k[1..][|k| - 2] == last;
      ShiftLeft(DigitValue(k[0]), Power(|k| - 2), DecimalValue(init[1..]), DigitValue(last));
    }
  }

  lemma ShiftLeft(d: nat, p: nat, x: nat, last: nat)
    ensures 10 * (d * p + x) + last == d * (10 * p) + (10 * x + last)
  {
  }

  /** Numerals of one length are ordered as their values. */
  lemma {:induction false} SameLengthOrder(a: string, b: string)
    requires AllDigits(a) && AllDigits(b) && |a| == |b|
    ensures Less(a, b) <==> DecimalValue(a) < DecimalValue(b)
  {
    if a != "" {
      ValueByFirst(a);
      ValueByFirst(b);
      SameLengthOrder(a[1..], b[1..]);
      FirstDigitDecides(DigitValue(a[0]), DigitValue(b[0]), Power(|a| - 1), DecimalValue(a[1..]), DecimalValue(b[1..]));
    }
  }

  lemma Multiples(d: nat, e: nat, p: nat)
    requires d < e
    ensures d * p + p <= e * p
  {
    assert e * p == d * p + (e - d) * p;
    AtLeastOne(e - d, p);
  }

  lemma {:induction false} AtLeastOne(k: nat, p: nat)
    requires k >= 1
    ensures k * p >= p
  {
    if k > 1 {
      AtLeastOne(k - 1, p);
      assert k * p == (k - 1) * p + p;
    }
  }

  lemma FirstDigitDecides(d: nat, e: nat, p: nat, x: nat, y: nat)
    requires x < p && y < p
    ensures d < e ==> d * p + x < e * p + y
    ensures e < d ==> e * p + y < d * p + x
  {
    if d < e {
      Multiples(d, e, p);
    } else if e < d {
      Multiples(e, d, p);
    }
  }

  lemma LongerIsGreater(a: string, b: string)
    requires IsNumeral(a) && IsNumeral(b) && |a| < |b|
    ensures DecimalValue(a) < DecimalValue(b)
  {
    ValueByFirst(a);
    ValueByFirst(b);
    PowerGrows(|a|, |b| - 1);
    AtLeastOne(DigitValue(b[0]), Power(|b| - 1));
    Multiples(DigitValue(a[0]), 10, Power(|a| - 1));
  }

  lemma {:induction false} PowerGrows(m: nat, n: nat)
    requires m <= n
    ensures Power(m) <= Power(n)
  {
    if m < n {
      PowerGrows(m, n - 1);
    }
  }

  /** Numerals, shorter ones first and then as texts, are ordered as their values. */
  lemma NumeralOrder(a: string, b: string)
    requires IsNumeral(a) && IsNumeral(b)
    ensures |a| < |b| || (|a| == |b| && Less(a, b)) <==> DecimalValue(a) < DecimalValue(b)
  {
    if |a| < |b| {
      LongerIsGreater(a, b);
    } else if |b| < |a| {
      LongerIsGreater(b, a);
    } else {
      SameLengthOrder(a, b);
    }
  }

  const BOUND := "4294967295"

  lemma ValueByLast(k: string, c: char)
    requires AllDigits(k) && IsDigit(c)
    ensures AllDigits(k + [c]) && DecimalValue(k + [c]) == 10 * DecimalValue(k) + DigitValue(c)
  {
    assert (k + [c])[..|k|] == k;
  }

  lemma BoundIs()
    ensures IsNumeral(BOUND) && |BOUND| == 10 && DecimalValue(BOUND) == 4294967295
  {
    ValueByLast("", '4');
    ValueByLast([] + ['4'], '2');
    ValueByLast([] + ['4'] + ['2'], '9');
    ValueByLast([] + ['4'] + ['2'] + ['9'], '4');
    var start := [] + ['4'] + ['2'] + ['9'] + ['4'];
    BoundTail(start);
    assert BOUND == start + ['9'] + ['6'] + ['7'] + ['2'] + ['9'] + ['5'];
  }

  lemma BoundTail(k: string)
    requires AllDigits(k) && DecimalValue(k) == 4294
    ensures var s := k + ['9'] + ['6'] + ['7'] + ['2'] + ['9'] + ['5'];
            AllDigits(s) && DecimalValue(s) == 4294967295
  {
    ValueByLast(k, '9');
    ValueByLast(k + ['9'], '6');
    ValueByLast(k + ['9'] + ['6'], '7');
    ValueByLast(k + ['9'] + ['6'] + ['7'], '2');
    ValueByLast(k + ['9'] + ['6'] + ['7'] + ['2'], '9');
    ValueByLast(k + ['9'] + ['6'] + ['7'] + ['2'] + ['9'], '5');
  }

  /** An index key is a numeral below 2^32 - 1, and objects list those by value, before all other keys. */
  lemma IndexKeysIff(a: string, b: string)
    ensures IsIndex(a) <==> IsNumeral(a) && DecimalValue(a) < 4294967295
    ensures IsIndex(a) && IsIndex(b) ==> (KeyLess(a, b) <==> DecimalValue(a) < DecimalValue(b))
    ensures IsIndex(a) && !IsIndex(b) ==> KeyLess(a, b) && !KeyLess(b, a)
    ensures !IsIndex(a) && !IsIndex(b) ==> (KeyLess(a, b) <==> Less(a, b))
  {
    BoundIs();
    if IsNumeral(a) {
      NumeralOrder(a, BOUND);
    }
    if IsIndex(a) && IsIndex(b) {
      NumeralOrder(a, b);
    }
  }
}
