/** The few JavaScript string and number primitives the application relies on:
    `String.prototype.split` on one character, `Number(...)` and
    `parseInt(..., 10)` on decimal text, `Number.prototype.toString`,
    `String.prototype.padStart(2, "0")`, and the `%` operator on integers. */
module JsText {
  import opened Wrappers

  predicate IsDigit(c: char) { '0' <= c <= '9' }

  function DigitValue(c: char): (d: nat)
    requires IsDigit(c)
    ensures d < 10
  {
    (c as int) - ('0' as int)
  }

  function DigitChar(d: nat): (c: char)
    requires d < 10
    ensures IsDigit(c) && DigitValue(c) == d
  {
    (('0' as int) + d) as char
  }

  predicate AllDigits(s: string) { forall i :: 0 <= i < |s| ==> IsDigit(s[i]) }

  /** Value of a string of decimal digits, most significant digit first. */
  function DigitsValue(s: string): nat
    requires AllDigits(s)
  {
    if s == [] then 0 else DigitsValue(s[..|s| - 1]) * 10 + DigitValue(s[|s| - 1])
  }

  /** Decimal text of a natural number, as `n.toString()` writes it. */
  function NatToString(n: nat): (s: string)
    ensures 1 <= |s| && AllDigits(s)
    ensures |s| == 1 <==> n < 10
  {
    if n < 10 then [DigitChar(n)] else NatToString(n / 10) + [DigitChar(n % 10)]
  }

  /** Decimal text of an integer, with a leading '-' when it is negative. */
  function IntToString(n: int): string
  {
    if n < 0 then "-" + NatToString(-n) else NatToString(n)
  }

  /** `x.toString()` for a number that may be NaN. */
  function NumberToString(x: Option<int>): string
  {
    match x
    case None => "NaN"
    case Some(n) => IntToString(n)
  }

  /** `s.padStart(2, "0")`. */
  function PadStart2(s: string): (r: string)
    ensures |s| >= 2 ==> r == s
    ensures |s| < 2 ==> |r| == 2 && r[2 - |s|..] == s && forall i :: 0 <= i < 2 - |s| ==> r[i] == '0'
  {
    if |s| >= 2 then s else if |s| == 1 then "0" + s else "00"
  }

  /** The longest prefix of `s` made of decimal digits. */
  function DigitPrefix(s: string): (p: string)
    ensures AllDigits(p) && |p| <= |s| && p == s[..|p|]
    ensures |p| < |s| ==> !IsDigit(s[|p|])
  {
    if s == [] || !IsDigit(s[0]) then [] else [s[0]] + DigitPrefix(s[1..])
  }

  /** `parseInt(s, 10)`: an optional sign, then as many decimal digits as
      follow it; NaN (None) when there are none. */
  function ParseInt(s: string): Option<int>
  {
    var negative := |s| > 0 && s[0] == '-';
    var unsigned := if |s| > 0 && (s[0] == '-' || s[0] == '+') then s[1..] else s;
    var digits := DigitPrefix(unsigned);
    var magnitude: int := if digits == [] then 0 else DigitsValue(digits);
    if digits == [] then None
    else if negative then Some(-magnitude)
    else Some(magnitude)
  }

  /** `Number(s)` for the text of one time component: the empty string is 0,
      a string of decimal digits is its value, anything else is NaN. */
  function NumberOf(s: string): (r: Option<int>)
    ensures r.Some? ==> r.value >= 0
    ensures r.None? <==> exists i :: 0 <= i < |s| && !IsDigit(s[i])
  {
    if s == [] then Some(0) else if AllDigits(s) then Some(DigitsValue(s)) else None
  }

  /** `s.split(sep)`: the pieces of `s` between occurrences of `sep`. */
  function Split(s: string, sep: char): (parts: seq<string>)
    ensures |parts| >= 1
    ensures forall i :: 0 <= i < |parts| ==> sep !in parts[i]
    ensures Join(parts, sep) == s
  {
    if s == [] then [""]
    else if s[0] == sep then [""] + Split(s[1..], sep)
    else
      var rest := Split(s[1..], sep);
      [[s[0]] + rest[0]] + rest[1..]
  }

  /** `parts.join(sep)`, the inverse of `Split`. */
  function Join(parts: seq<string>, sep: char): string
    requires |parts| >= 1
  {
    if |parts| == 1 then parts[0] else parts[0] + [sep] + Join(parts[1..], sep)
  }

  function Abs(x: int): nat { if x < 0 then -x else x }

  /** The JavaScript remainder `a % b` on integers, `a - b * Math.trunc(a / b)`:
      the remainder of the magnitudes with the sign of `a`; NaN when `b` is
      zero. */
  function JsRem(a: int, b: int): (r: Option<int>)
    ensures b == 0 <==> r.None?
    ensures r.Some? ==> Abs(r.value) < Abs(b) && (a >= 0 ==> r.value >= 0) && (a < 0 ==> r.value <= 0)
    ensures a >= 0 && b > 0 ==> r == Some(a % b)
  {
    if b == 0 then None
    else
      var m := Abs(a) % Abs(b);
      Some(if a < 0 then -m else m)
  }

  lemma {:induction false} DigitsValueSnoc(s: string, c: char)
    requires AllDigits(s) && IsDigit(c)
    ensures AllDigits(s + [c]) && DigitsValue(s + [c]) == DigitsValue(s) * 10 + DigitValue(c)
  {
    assert (s + [c])[..|s + [c]| - 1] == s;
  }

  /** Reading back the decimal text of `n` gives `n`. */
  lemma {:induction false} NatToStringValue(n: nat)
    ensures DigitsValue(NatToString(n)) == n
  {
    if n >= 10 {
      NatToStringValue(n / 10);
      DigitsValueSnoc(NatToString(n / 10), DigitChar(n % 10));
    }
  }

  /** A leading zero does not change the value of a digit string. */
  lemma {:induction false} LeadingZeroValue(s: string)
    requires AllDigits(s)
    ensures AllDigits("0" + s) && DigitsValue("0" + s) == DigitsValue(s)
  {
    if s != [] {
      var init := s[..|s| - 1];
      LeadingZeroValue(init);
      assert ("0" + s)[..|"0" + s| - 1] == "0" + init;
    }
  }

  lemma {:induction false} DigitPrefixOfDigits(s: string)
    requires AllDigits(s)
    ensures DigitPrefix(s) == s
  {
    if s != [] {
      DigitPrefixOfDigits(s[1..]);
    }
  }

  /** `parseInt` reads back what `toString` wrote, with or without the
      zero that `padStart(2, "0")` may put in front. */
  lemma ParseIntOfPadded(n: nat)
    ensures ParseInt(NatToString(n)) == Some(n)
    ensures ParseInt(PadStart2(NatToString(n))) == Some(n)
  {
    var s := NatToString(n);
    NatToStringValue(n);
    DigitPrefixOfDigits(s);
    if |s| < 2 {
      LeadingZeroValue(s);
      assert PadStart2(s) == "0" + s;
      DigitPrefixOfDigits("0" + s);
    }
  }

  /** Splitting `a + sep + b`, where `a` holds no separator, gives `a`
      followed by the pieces of `b`. */
  lemma {:induction false} SplitCons(a: string, sep: char, b: string)
    requires sep !in a
    ensures Split(a + [sep] + b, sep) == [a] + Split(b, sep)
  {
    var s := a + [sep] + b;
    if a == [] {
      assert s[0] == sep && s[1..] == b;
    } else {
      assert s[0] == a[0] && a[0] != sep;
      assert s[1..] == a[1..] + [sep] + b;
      SplitCons(a[1..], sep, b);
      var rest := Split(s[1..], sep);
      assert rest == [a[1..]] + Split(b, sep);
      assert Split(s, sep) == [[a[0]] + rest[0]] + rest[1..];
      assert [a[0]] + a[1..] == a;
    }
  }

  /** A string without the separator splits into itself alone. */
  lemma {:induction false} SplitWhole(a: string, sep: char)
    requires sep !in a
    ensures Split(a, sep) == [a]
  {
    if a != [] {
      SplitWhole(a[1..], sep);
      assert [a[0]] + a[1..] == a;
    }
  }

  /** `a:b:c` splits into its three pieces. */
  lemma SplitThree(a: string, b: string, c: string)
    requires ':' !in a && ':' !in b && ':' !in c
    ensures Split(a + ":" + b + ":" + c, ':') == [a, b, c]
  {
    SplitWhole(c, ':');
    SplitCons(b, ':', c);
    assert b + ":" + c == b + [':'] + c;
    SplitCons(a, ':', b + ":" + c);
    assert a + ":" + b + ":" + c == a + [':'] + (b + ":" + c);
  }

  /** `n.toString().padStart(2, "0")`, the text of a clock field. */
  function TwoDigits(n: nat): string { PadStart2(NatToString(n)) }

  /** `Number` reads a clock field back, and the field holds no ':'. */
  lemma NumberOfTwoDigits(n: nat)
    ensures NumberOf(TwoDigits(n)) == Some(n)
    ensures ':' !in TwoDigits(n)
  {
    var s := NatToString(n);
    NatToStringValue(n);
    if |s| < 2 {
      LeadingZeroValue(s);
      assert TwoDigits(n) == "0" + s;
    }
  }

  /** A non-negative value below twice the divisor wraps at most once. */
  lemma RemBelowTwice(a: int, n: int)
    requires 0 <= a < 2 * n
    ensures JsRem(a, n) == Some(if a < n then a else a - n)
  {
    if a < n {
      ModOfSmall(a, n);
    } else {
      ModOfOneWrap(a, n);
    }
  }

  lemma ModOfSmall(a: int, n: int)
    requires 0 <= a < n
    ensures a % n == a
  {
  }

  lemma ModOfOneWrap(a: int, n: int)
    requires n <= a < 2 * n
    ensures a % n == a - n
  {
  }
}
