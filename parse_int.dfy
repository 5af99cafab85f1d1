/**
 * The global `parseInt(string, 10)` of ECMAScript (section 19.2.5 of ECMA-262),
 * which the counter applies to its `refresh` property before arming its timer.
 * The argument is the text that parseInt sees after its first step (ToString);
 * a result of `None` stands for NaN.
 */
module JsParseInt {
  import opened Wrappers

  /** The WhiteSpace and LineTerminator code points that parseInt skips at the start. */
  predicate IsWhitespace(c: char) {
    || c == '\t' || c == '\n' || c == '\U{000B}' || c == '\U{000C}' || c == '\r'
    || c == ' ' || c == '\U{00A0}' || c == '\U{1680}' || ('\U{2000}' <= c <= '\U{200A}')
    || c == '\U{2028}' || c == '\U{2029}' || c == '\U{202F}' || c == '\U{205F}'
    || c == '\U{3000}' || c == '\U{FEFF}'
  }

  predicate IsDigit(c: char) {
    '0' <= c <= '9'
  }

  predicate AllDigits(s: string) {
    forall i :: 0 <= i < |s| ==> IsDigit(s[i])
  }

  function DigitValue(c: char): (d: nat)
    requires IsDigit(c)
    ensures d < 10
  {
    c as int - '0' as int
  }

  function DigitChar(d: nat): (c: char)
    requires d < 10
    ensures IsDigit(c) && DigitValue(c) == d
  {
    ('0' as int + d) as char
  }

  /** Drops the leading white space, as TrimString(…, start) does. */
  function TrimStart(s: string): (r: string)
    ensures |r| <= |s| && r == s[|s| - |r|..]
    ensures r == [] || !IsWhitespace(r[0])
    ensures forall i :: 0 <= i < |s| - |r| ==> IsWhitespace(s[i])
  {
    if s != [] && IsWhitespace(s[0]) then TrimStart(s[1..]) else s
  }

  /** The text after one optional leading sign. */
  function Unsigned(t: string): string {
    if t != [] && (t[0] == '+' || t[0] == '-') then t[1..] else t
  }

  /** The length of the longest prefix made of decimal digits. */
  function DigitRun(s: string): (n: nat)
    ensures n <= |s|
    ensures AllDigits(s[..n])
    ensures n < |s| ==> !IsDigit(s[n])
  {
    if s != [] && IsDigit(s[0]) then 1 + DigitRun(s[1..]) else 0
  }

  /** The mathematical value of a string of decimal digits, most significant first. */
  function DigitsValue(ds: string): nat
    requires AllDigits(ds)
  {
    if ds == [] then 0 else 10 * DigitsValue(ds[..|ds| - 1]) + DigitValue(ds[|ds| - 1])
  }

  /**
   * parseInt with radix 10: skip leading white space, take one optional sign,
   * then the longest run of decimal digits; NaN when that run is empty.
   */
  function ParseInt(s: string): (r: Option<int>)
    ensures r.Some? <==> (var u := Unsigned(TrimStart(s)); u != [] && IsDigit(u[0]))
    ensures r.Some? && r.value < 0 ==> TrimStart(s)[0] == '-'
  {
    ParseTrimmed(TrimStart(s))
  }

  /** The sign and digit steps of parseInt, applied to text with no leading white space. */
  function ParseTrimmed(t: string): Option<int> {
    var u := Unsigned(t);
    var n := DigitRun(u);
    if n == 0 then None
    else
      var v: int := DigitsValue(u[..n]);
      if t[0] == '-' then Some(-v) else Some(v)
  }

  /** The decimal rendering of a natural number, without leading zeros. */
  function Decimal(n: nat): (r: string)
    ensures r != [] && AllDigits(r)
    ensures r[0] == '0' ==> n == 0
  {
    if n < 10 then [DigitChar(n)] else Decimal(n / 10) + [DigitChar(n % 10)]
  }

  lemma {:induction false} DigitsValueOfDecimal(n: nat)
    ensures DigitsValue(Decimal(n)) == n
  {
    if n >= 10 {
      var d := Decimal(n);
      assert d[..|d| - 1] == Decimal(n / 10);
      DigitsValueOfDecimal(n / 10);
    }
  }

  lemma {:induction false} DigitRunOfDigits(d: string, t: string)
    requires AllDigits(d)
    requires t == [] || !IsDigit(t[0])
    ensures DigitRun(d + t) == |d|
  {
    if d != [] {
      assert (d + t)[1..] == d[1..] + t;
      DigitRunOfDigits(d[1..], t);
    }
  }

  /**
   * parseInt reads back the decimal rendering of a number and ignores whatever
   * follows the digits (such as the fraction of "1.5").
   */
  lemma ParseIntOfDecimal(n: nat, tail: string)
    requires tail == [] || !IsDigit(tail[0])
    ensures ParseInt(Decimal(n) + tail) == Some(n)
  {
    DigitsValueOfDecimal(n);
    ParseIntOfDigits(Decimal(n), tail);
  }

  /** With a minus sign in front, parseInt reads back the negated number. */
  lemma ParseIntOfNegatedDecimal(n: nat, tail: string)
    requires tail == [] || !IsDigit(tail[0])
    ensures ParseInt("-" + Decimal(n) + tail) == Some(-(n as int))
  {
    DigitsValueOfDecimal(n);
    ParseIntOfNegatedDigits(Decimal(n), tail);
  }

  /** A non-empty digit string followed by a non-digit parses to its value. */
  lemma ParseIntOfDigits(d: string, tail: string)
    requires d != [] && AllDigits(d)
    requires tail == [] || !IsDigit(tail[0])
    ensures ParseInt(d + tail) == Some(DigitsValue(d))
  {
    ParseTrimmedOfDigits(d, tail);
    ParseIntOfDigitStart(d, tail);
  }

  /** The same digit string after a minus sign parses to the negated value. */
  lemma ParseIntOfNegatedDigits(d: string, tail: string)
    requires d != [] && AllDigits(d)
    requires tail == [] || !IsDigit(tail[0])
    ensures ParseInt("-" + d + tail) == Some(-(DigitsValue(d) as int))
  {
    ParseTrimmedOfNegatedDigits(d, tail);
    ParseIntOfMinusStart(d, tail);
  }

  /** After a plus sign, the digit string parses to its value. */
  lemma ParseIntOfPlusDigits(d: string, tail: string)
    requires d != [] && AllDigits(d)
    requires tail == [] || !IsDigit(tail[0])
    ensures ParseInt("+" + d + tail) == Some(DigitsValue(d))
  {
    ParseTrimmedOfPlusDigits(d, tail);
    ParseIntOfPlusStart(d, tail);
  }

  lemma ParseTrimmedOfDigits(d: string, tail: string)
    requires d != [] && AllDigits(d)
    requires tail == [] || !IsDigit(tail[0])
    ensures ParseTrimmed(d + tail) == Some(DigitsValue(d))
  {
    DigitsThenTail(d, tail);
    ParseTrimmedOfUnsigned(d + tail);
  }

  lemma ParseTrimmedOfNegatedDigits(d: string, tail: string)
    requires d != [] && AllDigits(d)
    requires tail == [] || !IsDigit(tail[0])
    ensures ParseTrimmed("-" + d + tail) == Some(-(DigitsValue(d) as int))
  {
    DigitsThenTail(d, tail);
    MinusThen(d, tail);
    ParseTrimmedOfNegated(d + tail, "-" + d + tail);
  }

  lemma ParseTrimmedOfPlusDigits(d: string, tail: string)
    requires d != [] && AllDigits(d)
    requires tail == [] || !IsDigit(tail[0])
    ensures ParseTrimmed("+" + d + tail) == Some(DigitsValue(d))
  {
    DigitsThenTail(d, tail);
    PlusThen(d, tail);
    ParseTrimmedOfPlus(d + tail, "+" + d + tail);
  }

  /** Text that starts with a digit or a sign has no white space to skip. */
  lemma ParseIntOfDigitStart(d: string, tail: string)
    requires d != [] && IsDigit(d[0])
    ensures ParseInt(d + tail) == ParseTrimmed(d + tail)
  {
    assert (d + tail)[0] == d[0];
    ParseIntOfNonWhite(d + tail);
  }

  lemma ParseIntOfMinusStart(d: string, tail: string)
    ensures ParseInt("-" + d + tail) == ParseTrimmed("-" + d + tail)
  {
    MinusThen(d, tail);
    ParseIntOfNonWhite("-" + d + tail);
  }

  lemma ParseIntOfPlusStart(d: string, tail: string)
    ensures ParseInt("+" + d + tail) == ParseTrimmed("+" + d + tail)
  {
    PlusThen(d, tail);
    ParseIntOfNonWhite("+" + d + tail);
  }

  lemma PlusThen(d: string, tail: string)
    ensures var m := "+" + d + tail; m != [] && m[0] == '+' && m[1..] == d + tail
  {
  }

  lemma MinusThen(d: string, tail: string)
    ensures var m := "-" + d + tail; m != [] && m[0] == '-' && m[1..] == d + tail
  {
  }

  lemma ParseIntOfNonWhite(t: string)
    requires t != [] && !IsWhitespace(t[0])
    ensures ParseInt(t) == ParseTrimmed(t)
  {
    assert TrimStart(t) == t;
  }

  /** In a digit string followed by a non-digit, the digit run is exactly that string. */
  lemma DigitsThenTail(d: string, tail: string)
    requires d != [] && AllDigits(d)
    requires tail == [] || !IsDigit(tail[0])
    ensures var u := d + tail; u != [] && IsDigit(u[0]) && u[..DigitRun(u)] == d
  {
    DigitRunOfDigits(d, tail);
    assert (d + tail)[..|d|] == d;
  }

  /** The sign and digit steps read an unsigned digit run as its value. */
  lemma ParseTrimmedOfUnsigned(u: string)
    requires u != [] && IsDigit(u[0])
    ensures ParseTrimmed(u) == Some(DigitsValue(u[..DigitRun(u)]))
  {
  }

  /** The sign and digit steps read a plus sign and a digit run as the value. */
  lemma ParseTrimmedOfPlus(u: string, m: string)
    requires u != [] && IsDigit(u[0])
    requires m != [] && m[0] == '+' && m[1..] == u
    ensures ParseTrimmed(m) == Some(DigitsValue(u[..DigitRun(u)]))
  {
  }

  /** The sign and digit steps read a minus sign and a digit run as the negated value. */
  lemma ParseTrimmedOfNegated(u: string, m: string)
    requires u != [] && IsDigit(u[0])
    requires m != [] && m[0] == '-' && m[1..] == u
    ensures ParseTrimmed(m) == Some(-(DigitsValue(u[..DigitRun(u)]) as int))
  {
  }

  /** Leading white space does not change what parseInt returns. */
  lemma {:induction false} ParseIntSkipsWhitespace(w: string, s: string)
    requires forall i :: 0 <= i < |w| ==> IsWhitespace(w[i])
    ensures ParseInt(w + s) == ParseInt(s)
  {
    TrimStartSkipsWhitespace(w, s);
    assert ParseInt(w + s) == ParseTrimmed(TrimStart(s));
  }

  lemma {:induction false} TrimStartSkipsWhitespace(w: string, s: string)
    requires forall i :: 0 <= i < |w| ==> IsWhitespace(w[i])
    ensures TrimStart(w + s) == TrimStart(s)
  {
    if w == [] {
      assert w + s == s;
    } else {
      assert (w + s)[0] == w[0];
      assert (w + s)[1..] == w[1..] + s;
      TrimStartSkipsWhitespace(w[1..], s);
    }
  }
}
