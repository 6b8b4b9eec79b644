/**
  JavaScript's `parseFloat` on the balance text of a new account: leading white
  space is skipped, then an optional sign, then either `Infinity` or the longest
  decimal literal (digits, an optional fraction, an optional exponent); anything
  after that is ignored, and a text with no digits in its literal is NaN.  The
  value is kept exact, as digits and a decimal scale, and converted to whole
  cents for the balance.
 */
module Numbers {

  datatype Parsed =
    | NotANumber
    | Infinite(negative: bool)
      /** `(negative ? -1 : 1) * digits / 10^scale` */
    | Finite(negative: bool, digits: nat, scale: int)

  /** The white space `parseFloat` skips: ECMAScript's WhiteSpace and LineTerminator characters. */
  predicate IsSpace(c: char) {
    || c == ' ' || c == '\t' || c == '\n' || c == '\r' || c == '\U{000B}' || c == '\U{000C}'
    || c == '\U{00A0}' || c == '\U{1680}' || ('\U{2000}' <= c <= '\U{200A}')
    || c == '\U{2028}' || c == '\U{2029}' || c == '\U{202F}' || c == '\U{205F}' || c == '\U{3000}' || c == '\U{FEFF}'
  }

  predicate IsDigit(c: char) {
    '0' <= c <= '9'
  }

  function DigitValue(c: char): (d: nat)
    requires IsDigit(c)
    ensures d < 10
  {
    (c as int - '0' as int) as nat
  }

  function Pow10(n: nat): (p: nat)
    ensures p >= 1
  {
    if n == 0 then 1 else 10 * Pow10(n - 1)
  }

  /** The text with its leading white space removed. */
  function SkipSpace(s: string): (t: string)
    ensures |t| <= |s| && t == s[|s| - |t|..]
    ensures |t| != 0 ==> !IsSpace(t[0])
    ensures forall i | 0 <= i < |s| - |t| :: IsSpace(s[i])
    decreases |s|
  {
    if |s| != 0 && IsSpace(s[0]) then SkipSpace(s[1..]) else s
  }

  predicate AllDigits(s: string) {
    forall i | 0 <= i < |s| :: IsDigit(s[i])
  }

  /** The length of the run of digits at the front of `s`. */
  function DigitRun(s: string): (n: nat)
    ensures n <= |s|
    ensures AllDigits(s[..n])
    ensures n < |s| ==> !IsDigit(s[n])
    decreases |s|
  {
    if |s| != 0 && IsDigit(s[0]) then
      var n := 1 + DigitRun(s[1..]);
      assert s[..n] == [s[0]] + s[1..][..n - 1];
      n
    else 0
  }

  /** The number a string of decimal digits denotes. */
  function DigitsValue(s: string): nat
    requires AllDigits(s)
    decreases |s|
  {
    if |s| == 0 then 0 else 10 * DigitsValue(s[..|s| - 1]) + DigitValue(s[|s| - 1])
  }

  /** Whether the optional sign in front of a number is `-`. */
  predicate Negative(t: string) {
    |t| != 0 && t[0] == '-'
  }

  /** What follows the optional sign. */
  function Unsigned(t: string): string {
    if |t| != 0 && (t[0] == '-' || t[0] == '+') then t[1..] else t
  }

  predicate StartsInfinity(u: string) {
    |u| >= 8 && u[..8] == "Infinity"
  }

  /** The exponent part at the front of `s`, 0 when there is none (`e` without digits is not one). */
  function Exponent(s: string): int {
    if |s| != 0 && (s[0] == 'e' || s[0] == 'E') then
      var rest := Unsigned(s[1..]);
      var n := DigitRun(rest);
      var e: int := if n == 0 then 0 else DigitsValue(rest[..n]);
      if Negative(s[1..]) then -e else e
    else 0
  }

  /** `parseFloat(text)`, exactly. */
  function ParseFloat(text: string): Parsed {
    var t := SkipSpace(text);
    if StartsInfinity(Unsigned(t)) then Infinite(Negative(t))
    else Literal(Negative(t), Unsigned(t))
  }

  /** The longest decimal literal at the front of `u`: digits, then `.` and digits, then an exponent. */
  function Literal(negative: bool, u: string): Parsed {
    var whole := DigitRun(u);
    var fraction := FractionDigits(u[whole..]);
    if whole + |fraction| == 0 then NotANumber
    else Finite(negative, DigitsValue(u[..whole] + fraction), |fraction| - Exponent(AfterFraction(u[whole..])))
  }

  /** The digits after a leading `.` of `rest`; none when it does not start with one. */
  function FractionDigits(rest: string): (f: string)
    ensures AllDigits(f)
    ensures |rest| != 0 && rest[0] == '.' ==> |f| < |rest|
    ensures |rest| == 0 || rest[0] != '.' ==> f == []
  {
    if |rest| != 0 && rest[0] == '.' then rest[1..][..DigitRun(rest[1..])] else []
  }

  /** What follows the fraction: where an exponent may start. */
  function AfterFraction(rest: string): string {
    if |rest| != 0 && rest[0] == '.' then rest[1 + |FractionDigits(rest)|..] else rest
  }

  /** The value in whole cents, truncated toward zero past the second decimal. */
  function Cents(negative: bool, digits: nat, scale: int): int {
    var magnitude := if scale <= 2 then digits * Pow10(2 - scale) else digits / Pow10(scale - 2);
    if negative then -magnitude else magnitude
  }

  /** The characters `parseFloat` can start a number with, once white space and sign are gone. */
  predicate StartsNumber(u: string) {
    || StartsInfinity(u)
    || (|u| != 0 && IsDigit(u[0]))
    || (|u| >= 2 && u[0] == '.' && IsDigit(u[1]))
  }

  /** A literal has digits exactly when a digit, or a point and a digit, come first. */
  lemma LiteralNaN(negative: bool, u: string)
    ensures Literal(negative, u).NotANumber? <==>
      !(|u| != 0 && IsDigit(u[0])) && !(|u| >= 2 && u[0] == '.' && IsDigit(u[1]))
  {
    if |u| >= 2 && u[0] == '.' && IsDigit(u[1]) {
      assert DigitRun(u) == 0 && u[0..] == u;
      assert DigitRun(u[1..]) != 0;
      assert |FractionDigits(u)| != 0;
    }
  }

  /** `isNaN(parseFloat(text))` exactly when no number starts after the white space and the sign. */
  lemma NaNExactly(text: string)
    ensures ParseFloat(text).NotANumber? <==> !StartsNumber(Unsigned(SkipSpace(text)))
  {
    var t := SkipSpace(text);
    LiteralNaN(Negative(t), Unsigned(t));
  }

  // ---------------------------------------------------------------------------
  // Round trip: a balance written as `[-]ddd.dd` parses back to its cents.

  /** The decimal digits of `n`, without leading zeros. */
  function NatText(n: nat): (s: string)
    ensures |s| != 0 && AllDigits(s)
    decreases n
  {
    var last := ['0' + (n % 10) as char];
    if n < 10 then last else NatText(n / 10) + last
  }

  /** `c` cents written with two decimals, as a balance is typed in. */
  function CentsText(c: int): string {
    var m := if c < 0 then -c else c;
    (if c < 0 then "-" else "") + NatText(m / 100) + "." + TwoDigits(m % 100)
  }

  lemma {:induction false} NatTextValue(n: nat)
    ensures DigitsValue(NatText(n)) == n
    decreases n
  {
    if n >= 10 {
      NatTextValue(n / 10);
      var s := NatText(n);
      assert s[..|s| - 1] == NatText(n / 10);
    }
  }

  lemma {:induction false} DigitsValueAppend(a: string, b: string)
    requires AllDigits(a) && AllDigits(b)
    ensures DigitsValue(a + b) == DigitsValue(a) * Pow10(|b|) + DigitsValue(b)
    decreases |b|
  {
    if |b| != 0 {
      var front := b[..|b| - 1];
      assert (a + b)[..|a + b| - 1] == a + front;
      DigitsValueAppend(a, front);
      var x, p, y, d := DigitsValue(a), Pow10(|front|), DigitsValue(front), DigitValue(b[|b| - 1]);
      assert DigitsValue(a + b) == 10 * (x * p + y) + d;
      assert DigitsValue(b) == 10 * y + d && Pow10(|b|) == 10 * p;
      ShiftDigit(x, p, y, d);
    } else {
      assert a + b == a;
    }
  }

  /** Appending a digit multiplies the place value of what came before by ten. */
  lemma ShiftDigit(x: int, p: int, y: int, d: int)
    ensures 10 * (x * p + y) + d == x * (10 * p) + (10 * y + d)
  {
  }

  lemma {:induction false} DigitRunOf(a: string, b: string)
    requires AllDigits(a)
    requires |b| == 0 || !IsDigit(b[0])
    ensures DigitRun(a + b) == |a|
    decreases |a|
  {
    if |a| != 0 {
      assert (a + b)[1..] == a[1..] + b;
      DigitRunOf(a[1..], b);
    }
  }

  /** A literal whose digits and fraction are known and which has no exponent. */
  lemma LiteralOfParts(negative: bool, u: string, w: string, f: string)
    requires |w| <= |u| && DigitRun(u) == |w| && u[..|w|] == w
    requires FractionDigits(u[|w|..]) == f && AfterFraction(u[|w|..]) == [] && |w| + |f| != 0
    ensures Literal(negative, u) == Finite(negative, DigitsValue(w + f), |f|)
  {
  }

  /** After the point come exactly the two digits, and then nothing. */
  lemma FractionOfTwo(two: string)
    requires AllDigits(two) && |two| == 2
    ensures FractionDigits("." + two) == two && AfterFraction("." + two) == []
  {
    assert ("." + two)[1..] == two + "";
    DigitRunOf(two, "");
  }

  /** Two more digits scale the whole part by a hundred. */
  lemma AppendTwoDigits(whole: string, two: string)
    requires AllDigits(whole) && AllDigits(two) && |two| == 2
    ensures DigitsValue(whole + two) == DigitsValue(whole) * 100 + DigitsValue(two)
  {
    DigitsValueAppend(whole, two);
    assert Pow10(2) == 100 by {
      assert Pow10(1) == 10;
    }
  }

  /** A literal with two decimals and nothing after them. */
  lemma LiteralTwoDecimals(negative: bool, whole: string, two: string)
    requires AllDigits(whole) && AllDigits(two) && |two| == 2
    ensures Literal(negative, whole + "." + two) == Finite(negative, DigitsValue(whole) * 100 + DigitsValue(two), 2)
  {
    LiteralTwoDecimalsOf(negative, whole, two, whole + "." + two);
  }

  /** The same, for a text `u` known to be `whole.two`. */
  lemma LiteralTwoDecimalsOf(negative: bool, whole: string, two: string, u: string)
    requires AllDigits(whole) && AllDigits(two) && |two| == 2
    requires u == whole + "." + two
    ensures Literal(negative, u) == Finite(negative, DigitsValue(whole) * 100 + DigitsValue(two), 2)
  {
    var tail := "." + two;
    assert u == whole + tail;
    assert tail[0] == '.';
    DigitRunOf(whole, tail);
    assert u[..|whole|] == whole && u[|whole|..] == tail;
    FractionOfTwo(two);
    LiteralOfParts(negative, u, whole, two);
    AppendTwoDigits(whole, two);
  }

  /** The two digits `n` is written with, for `n < 100`. */
  function TwoDigits(n: nat): (s: string)
    requires n < 100
    ensures |s| == 2 && AllDigits(s)
  {
    ['0' + (n / 10) as char, '0' + (n % 10) as char]
  }

  lemma TwoDigitsValue(n: nat)
    requires n < 100
    ensures DigitsValue(TwoDigits(n)) == n
  {
    var s := TwoDigits(n);
    assert DigitsValue(s[..1]) == DigitValue(s[0]) by {
      assert s[..1][..0] == [];
    }
  }

  /** A text that is a sign and then a digit is read as a literal. */
  lemma ParseFloatOfDigits(negative: bool, u: string)
    requires |u| != 0 && IsDigit(u[0])
    ensures ParseFloat((if negative then "-" else "") + u) == Literal(negative, u)
  {
    var text := (if negative then "-" else "") + u;
    SignedDigits(negative, u);
    DigitNotInfinity(u);
    assert ParseFloat(text) == Literal(Negative(text), Unsigned(text));
  }

  lemma SignedDigits(negative: bool, u: string)
    requires |u| != 0 && IsDigit(u[0])
    ensures var text := (if negative then "-" else "") + u;
      SkipSpace(text) == text && Negative(text) == negative && Unsigned(text) == u
  {
    if negative {
      var text := "-" + u;
      assert text[0] == '-' && text[1..] == u;
      NoSpaceFirst(text);
    } else {
      assert "" + u == u;
      assert u[0] != '-' && u[0] != '+';
      NoSpaceFirst(u);
    }
  }

  lemma NoSpaceFirst(text: string)
    requires |text| != 0 && (text[0] == '-' || IsDigit(text[0]))
    ensures SkipSpace(text) == text
  {
    assert !IsSpace(text[0]);
  }

  lemma DigitNotInfinity(u: string)
    requires |u| != 0 && IsDigit(u[0])
    ensures !StartsInfinity(u)
  {
    assert |u| >= 8 ==> u[..8][0] == u[0];
  }

  /** Every amount in cents survives being written with two decimals and parsed. */
  lemma CentsTextRoundTrip(c: int)
    ensures ParseFloat(CentsText(c)) == Finite(c < 0, if c < 0 then -c else c, 2)
    ensures Cents(c < 0, if c < 0 then -c else c, 2) == c
  {
    var m := if c < 0 then -c else c;
    var whole, two := NatText(m / 100), TwoDigits(m % 100);
    var u := whole + "." + two;
    assert CentsText(c) == (if c < 0 then "-" else "") + u;
    assert u[0] == whole[0];
    ParseFloatOfDigits(c < 0, u);
    LiteralTwoDecimals(c < 0, whole, two);
    NatTextValue(m / 100);
    TwoDigitsValue(m % 100);
    assert DigitsValue(whole) * 100 + DigitsValue(two) == m by {
      assert (m / 100) * 100 + m % 100 == m;
    }
    var r := ParseFloat(CentsText(c));
    assert r == Finite(c < 0, DigitsValue(whole) * 100 + DigitsValue(two), 2);
    assert r.digits == m;
    assert Pow10(0) == 1;
  }
}
