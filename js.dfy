/**
 * The small part of the JavaScript runtime that the simulation scripts lean on:
 * numbers that may be undefined or NaN, Math.round, integer-to-string conversion,
 * Number() and parseFloat() on strings, and String.prototype.split / startsWith / endsWith.
 */
module Js {

  datatype Option<+T> = None | Some(value: T)

  datatype Result<+T, +E> = Success(value: T) | Failure(error: E)

  /** A JavaScript number as the scripts see it: a finite value, NaN, or `undefined`
      (a missing array element or a missing object key). */
  datatype JsNum = Undefined | NaN | Num(value: real)

  /** `!!x`: only a non-zero finite number is truthy. */
  predicate Truthy(x: JsNum) {
    x.Num? && x.value != 0.0
  }

  /** `a < b`: false whenever either side is undefined or NaN. */
  predicate Lt(a: JsNum, b: JsNum) {
    a.Num? && b.Num? && a.value < b.value
  }

  /** The element `xs[i]` of a JavaScript array: `undefined` past the end. */
  function At(xs: seq<real>, i: nat): (r: JsNum)
    ensures r.Undefined? <==> i >= |xs|
    ensures i < |xs| ==> r == Num(xs[i])
  {
    if i < |xs| then Num(xs[i]) else Undefined
  }

  /** The element `xs[i]` of an array of JavaScript numbers: `undefined` past the end. */
  function Get(xs: seq<JsNum>, i: nat): (r: JsNum)
    ensures i >= |xs| ==> r.Undefined?
  {
    if i < |xs| then xs[i] else Undefined
  }

  /** `a - b`, `a + b` and `a * b`: NaN unless both sides are numbers. */
  function Sub(a: JsNum, b: JsNum): JsNum {
    if a.Num? && b.Num? then Num(a.value - b.value) else NaN
  }

  function Add(a: JsNum, b: JsNum): JsNum {
    if a.Num? && b.Num? then Num(a.value + b.value) else NaN
  }

  function Mul(a: JsNum, b: JsNum): JsNum {
    if a.Num? && b.Num? then Num(a.value * b.value) else NaN
  }

  function Min(a: real, b: real): real { if a <= b then a else b }

  function Max(a: real, b: real): real { if a >= b then a else b }

  /** Math.round: the nearest integer, halves rounded up. */
  function Round(x: real): (r: int)
    ensures x - 0.5 < r as real <= x + 0.5
  {
    (x + 0.5).Floor
  }

  /** `Math.round(x * 10) / 10`: one decimal place. */
  function RoundTenth(x: real): (r: real)
    ensures x - 0.05 < r <= x + 0.05
  {
    Round(x * 10.0) as real / 10.0
  }

  // ---------------------------------------------------------------------------------------------
  // Decimal digits

  predicate IsDigit(c: char) { '0' <= c <= '9' }

  predicate AllDigits(s: string) {
    forall i :: 0 <= i < |s| ==> IsDigit(s[i])
  }

  function DigitChar(d: nat): (c: char)
    requires d < 10
    ensures IsDigit(c) && c as int - '0' as int == d
  {
    (d + '0' as int) as char
  }

  function DigitValue(c: char): nat
    requires IsDigit(c)
  {
    c as int - '0' as int
  }

  function Pow10(k: nat): (p: nat)
    ensures p >= 1
  {
    if k == 0 then 1 else 10 * Pow10(k - 1)
  }

  /** `n.toString()` for a non-negative integer: its decimal digits, no leading zero. */
  function NatToString(n: nat): (s: string)
    ensures 1 <= |s| && AllDigits(s)
    ensures |s| > 1 ==> s[0] != '0'
  {
    if n < 10 then [DigitChar(n)] else NatToString(n / 10) + [DigitChar(n % 10)]
  }

  /** `i.toString()` for an integer. */
  function IntToString(i: int): (s: string)
    ensures 1 <= |s|
    ensures forall k :: 0 <= k < |s| ==> IsDigit(s[k]) || s[k] == '-'
  {
    if i < 0 then "-" + NatToString(-i) else NatToString(i)
  }

  /** The value of a string of decimal digits (leading zeros allowed). */
  function DigitsValue(s: string): nat
    requires AllDigits(s)
  {
    if |s| == 0 then 0 else 10 * DigitsValue(s[..|s| - 1]) + DigitValue(s[|s| - 1])
  }

  lemma {:induction false} NatToStringValue(n: nat)
    ensures DigitsValue(NatToString(n)) == n
  {
    if n >= 10 {
      var s := NatToString(n);
      NatToStringValue(n / 10);
      assert s[..|s| - 1] == NatToString(n / 10);
    }
  }

  lemma {:induction false} NatToStringLength(n: nat, k: nat)
    requires 1 <= k && n < Pow10(k)
    ensures |NatToString(n)| <= k
  {
    if n >= 10 {
      assert Pow10(1) == 10;
      NatToStringLength(n / 10, k - 1);
    }
  }

  /** Zeros in front do not change the value of a digit string. */
  lemma {:induction false} LeadingZerosValue(z: nat, s: string)
    requires AllDigits(s)
    ensures AllDigits(Zeros(z) + s) && DigitsValue(Zeros(z) + s) == DigitsValue(s)
  {
    var t := Zeros(z) + s;
    assert AllDigits(t) by {
      forall i | 0 <= i < |t| ensures IsDigit(t[i]) {
        if i < z { assert t[i] == Zeros(z)[i]; } else { assert t[i] == s[i - z]; }
      }
    }
    if |s| == 0 {
      ZerosValue(z);
      assert t == Zeros(z);
    } else {
      LeadingZerosValue(z, s[..|s| - 1]);
      assert t[..|t| - 1] == Zeros(z) + s[..|s| - 1];
    }
  }

  function Zeros(z: nat): (s: string)
    ensures |s| == z && forall i :: 0 <= i < z ==> s[i] == '0'
  {
    if z == 0 then "" else Zeros(z - 1) + "0"
  }

  lemma {:induction false} ZerosValue(z: nat)
    ensures AllDigits(Zeros(z)) && DigitsValue(Zeros(z)) == 0
  {
    var s := Zeros(z);
    assert AllDigits(s) by {
      forall i | 0 <= i < z ensures IsDigit(s[i]) {
        assert s[i] == '0';
      }
    }
    if z > 0 {
      ZerosValue(z - 1);
      assert s[..z - 1] == Zeros(z - 1);
      assert DigitsValue(s) == 10 * DigitsValue(Zeros(z - 1)) + DigitValue(s[z - 1]);
    }
  }

  // ---------------------------------------------------------------------------------------------
  // Number(s) and parseFloat(s)

  /** The number of leading decimal digits of `s`. */
  function LeadingDigits(s: string): (k: nat)
    ensures k <= |s| && AllDigits(s[..k])
    ensures k < |s| ==> !IsDigit(s[k])
  {
    if |s| == 0 || !IsDigit(s[0]) then 0
    else
      var k := 1 + LeadingDigits(s[1..]);
      assert s[..k] == [s[0]] + s[1..][..k - 1];
      k
  }

  /** The value of `intPart.fracPart`, both strings of digits. */
  function DecimalValue(intPart: string, fracPart: string): (r: real)
    requires AllDigits(intPart) && AllDigits(fracPart)
    ensures r >= 0.0
  {
    DigitsValue(intPart) as real + DigitsValue(fracPart) as real / Pow10(|fracPart|) as real
  }

  function Negate(x: JsNum): JsNum {
    if x.Num? then Num(-x.value) else x
  }

  /** `Number(s)` for an unsigned decimal literal: digits, optionally a point and more
      digits, with at least one digit in all; anything else is NaN. */
  function UnsignedNumber(s: string): JsNum {
    var k := LeadingDigits(s);
    if k == |s| then
      (if k == 0 then NaN else Num(DigitsValue(s) as real))
    else if s[k] == '.' && AllDigits(s[k + 1..]) && (k > 0 || k + 1 < |s|) then
      Num(DecimalValue(s[..k], s[k + 1..]))
    else NaN
  }

  /** `Number(s)` on a string: the empty string is 0, an optionally signed decimal literal
      is its value, anything else NaN. */
  function NumberOf(s: string): JsNum {
    if s == "" then Num(0.0)
    else if s[0] == '-' then Negate(UnsignedNumber(s[1..]))
    else if s[0] == '+' then UnsignedNumber(s[1..])
    else UnsignedNumber(s)
  }

  /** `Number` undoes `toString` on integers. */
  lemma IntToStringNumber(i: int)
    ensures NumberOf(IntToString(i)) == Num(i as real)
  {
    var n: nat := if i < 0 then -i else i;
    var d := NatToString(n);
    NatToStringValue(n);
    assert LeadingDigits(d) == |d| by { LeadingDigitsAll(d); }
    if i < 0 {
      assert IntToString(i)[1..] == d;
    }
  }

  /** `Number` of a digit string with leading zeros and an optional minus sign. */
  lemma PaddedNumber(z: nat, n: nat, negative: bool)
    ensures var t := Zeros(z) + NatToString(n);
            NumberOf(if negative then "-" + t else t) == Num(if negative then -(n as real) else n as real)
  {
    var t := Zeros(z) + NatToString(n);
    PaddedUnsigned(z, n);
    if negative {
      var s := "-" + t;
      assert s[0] == '-' && s[1..] == t;
    } else {
      assert t[0] != '-' && t[0] != '+' by { assert IsDigit(t[0]); }
    }
  }

  lemma PaddedUnsigned(z: nat, n: nat)
    ensures var t := Zeros(z) + NatToString(n);
            |t| > 0 && AllDigits(t) && UnsignedNumber(t) == Num(n as real)
  {
    var t := Zeros(z) + NatToString(n);
    assert DigitsValue(t) == n by {
      LeadingZerosValue(z, NatToString(n));
      NatToStringValue(n);
    }
    UnsignedDigits(t);
  }

  lemma UnsignedDigits(t: string)
    requires AllDigits(t) && |t| > 0
    ensures UnsignedNumber(t) == Num(DigitsValue(t) as real)
  {
    LeadingDigitsAll(t);
  }

  lemma {:induction false} LeadingDigitsAll(s: string)
    requires AllDigits(s)
    ensures LeadingDigits(s) == |s|
  {
    if |s| > 0 {
      LeadingDigitsAll(s[1..]);
    }
  }

  /** `parseFloat(s)`: the value of the longest prefix that is an optionally signed decimal
      literal; NaN when there is no digit at the start. */
  function ParseFloat(s: string): JsNum {
    if |s| > 0 && s[0] == '-' then Negate(UnsignedPrefix(s[1..]))
    else if |s| > 0 && s[0] == '+' then UnsignedPrefix(s[1..])
    else UnsignedPrefix(s)
  }

  function UnsignedPrefix(s: string): JsNum {
    var k := LeadingDigits(s);
    var f := if k < |s| && s[k] == '.' then LeadingDigits(s[k + 1..]) else 0;
    if k == 0 && f == 0 then NaN
    else if f == 0 then Num(DigitsValue(s[..k]) as real)
    else Num(DecimalValue(s[..k], s[k + 1..][..f]))
  }

  /** parseFloat reads the integer at the start of a string and ignores what follows it
      once that is neither a digit nor a decimal point, as in `parseFloat("65dB") == 65`. */
  lemma ParseFloatNatPrefix(n: nat, rest: string)
    requires |rest| > 0 ==> !IsDigit(rest[0]) && rest[0] != '.'
    ensures ParseFloat(NatToString(n) + rest) == Num(n as real)
  {
    var d := NatToString(n);
    var s := d + rest;
    LeadingDigitsAll(d);
    LeadingDigitsConcat(d, rest);
    NatToStringValue(n);
    assert s[..|d|] == d;
  }

  lemma LeadingDigitsConcat(d: string, rest: string)
    requires AllDigits(d)
    requires |rest| > 0 ==> !IsDigit(rest[0])
    ensures LeadingDigits(d + rest) == |d|
  {
    if |d| > 0 {
      assert (d + rest)[1..] == d[1..] + rest;
      LeadingDigitsConcat(d[1..], rest);
    }
  }

  // ---------------------------------------------------------------------------------------------
  // Strings

  predicate StartsWith(s: string, p: string) {
    |p| <= |s| && s[..|p|] == p
  }

  predicate EndsWith(s: string, p: string) {
    |p| <= |s| && s[|s| - |p|..] == p
  }

  /** No character of `s` can begin an occurrence of `sep`. */
  predicate Avoids(s: string, sep: string)
    requires |sep| > 0
  {
    forall k :: 0 <= k < |s| ==> s[k] != sep[0]
  }

  /** `s.split(sep)` for a non-empty separator: the pieces between the non-overlapping
      occurrences of `sep`, found from left to right. */
  function Split(s: string, sep: string): (r: seq<string>)
    requires |sep| > 0
    ensures |r| >= 1
    decreases |s|
  {
    if |s| < |sep| then [s]
    else if s[..|sep|] == sep then [""] + Split(s[|sep|..], sep)
    else
      var rest := Split(s[1..], sep);
      [[s[0]] + rest[0]] + rest[1..]
  }

  /** A string in which the separator cannot start splits into itself alone. */
  lemma {:induction false} SplitNone(s: string, sep: string)
    requires |sep| > 0 && Avoids(s, sep)
    ensures Split(s, sep) == [s]
  {
    if |s| >= |sep| {
      assert s[..|sep|][0] == s[0];
      SplitNone(s[1..], sep);
      assert [s[0]] + s[1..] == s;
    }
  }

  /** Splitting `a + sep + b` cuts at the separator when `a` cannot hold one. */
  lemma {:induction false} SplitAt(a: string, sep: string, b: string)
    requires |sep| > 0 && Avoids(a, sep)
    ensures Split(a + sep + b, sep) == [a] + Split(b, sep)
  {
    var s := a + sep + b;
    if |a| == 0 {
      assert s == sep + b;
      assert s[..|sep|] == sep;
      assert s[|sep|..] == b;
    } else {
      assert s[..|sep|][0] == a[0];
      assert s[1..] == a[1..] + sep + b;
      SplitAt(a[1..], sep, b);
      assert [a[0]] + a[1..] == a;
    }
  }

  /** The text after the last `sep` (all of `s` when there is none): `parts[parts.length - 1]`. */
  function LastPart(s: string, sep: string): string
    requires |sep| > 0
  {
    var parts := Split(s, sep);
    parts[|parts| - 1]
  }

  lemma IntToStringAvoids(i: int, sep: string)
    requires |sep| > 0 && !IsDigit(sep[0]) && sep[0] != '-'
    ensures Avoids(IntToString(i), sep)
  {
  }

  // ---------------------------------------------------------------------------------------------
  // Arithmetic

  /** `values.reduce((s, a) => s + a, 0)` */
  function SumOf(xs: seq<real>): real {
    if |xs| == 0 then 0.0 else SumOf(xs[..|xs| - 1]) + xs[|xs| - 1]
  }

  /** The sum of the first n elements is the sum of the first n - 1 plus the n-th. */
  lemma SumOfPrefix(xs: seq<real>, n: nat)
    requires 0 < n <= |xs|
    ensures SumOf(xs[..n]) == SumOf(xs[..n - 1]) + xs[n - 1]
  {
    assert xs[..n][..n - 1] == xs[..n - 1];
  }

  predicate NonNegative(xs: seq<real>) {
    forall i :: 0 <= i < |xs| ==> xs[i] >= 0.0
  }

  lemma MulMonotone(a: real, b: real, c: real)
    requires c > 0.0
    ensures a < b <==> a * c < b * c
  {
    if a < b {
      assert (b - a) * c > 0.0;
    } else {
      assert (a - b) * c >= 0.0;
    }
  }

  lemma CancelDiv(a: real, c: real)
    requires c > 0.0
    ensures c * (a / c) == a
  {
  }

  lemma DivAdd(a: real, b: real, c: real)
    requires c > 0.0
    ensures a / c + b / c == (a + b) / c
  {
  }

  /** A ratio w / a lies between lo and hi when w lies between lo * a and hi * a. */
  lemma DivBetween(w: real, a: real, lo: real, hi: real)
    requires a > 0.0 && lo * a <= w <= hi * a
    ensures lo <= w / a <= hi
  {
    CancelDiv(w, a);
    MulMonotone(w / a, lo, a);
    MulMonotone(hi, w / a, a);
  }
}
