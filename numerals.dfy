/**
 * Conversions between integers and decimal text used at the two ends of a trade:
 * the backend writes quantities with Python's `str(int)` and prices with the
 * `.2f` format; the trade form reads the quantity with JavaScript's `parseInt`.
 */
module Numerals {
  import opened Wrappers

  predicate IsDigit(c: char) {
    '0' <= c <= '9'
  }

  function DigitChar(d: nat): (c: char)
    requires d < 10
    ensures IsDigit(c)
  {
    ('0' as int + d) as char
  }

  function DigitValue(c: char): (d: nat)
    requires IsDigit(c)
    ensures d < 10 && DigitChar(d) == c
  {
    c as int - '0' as int
  }

  /** The decimal digits of `n`, most significant first, with no leading zero. */
  function Digits(n: nat): (s: string)
    ensures 1 <= |s|
    ensures forall i :: 0 <= i < |s| ==> IsDigit(s[i])
    ensures 1 < |s| ==> s[0] != '0'
  {
    if n < 10 then [DigitChar(n)] else Digits(n / 10) + [DigitChar(n % 10)]
  }

  /** Python's `str(n)` for an integer: an optional minus sign, then the digits. */
  function Show(n: int): (s: string)
    ensures 1 <= |s|
    ensures s[0] == '-' <==> n < 0
  {
    if n < 0 then "-" + Digits(-n) else Digits(n)
  }

  /** The number written by a run of decimal digits, read left to right. */
  function ValueOf(s: string): nat
    requires forall i :: 0 <= i < |s| ==> IsDigit(s[i])
  {
    if s == [] then 0 else ValueOf(s[..|s| - 1]) * 10 + DigitValue(s[|s| - 1])
  }

  /** The length of the longest prefix of `s` made of decimal digits. */
  function DigitRun(s: string): (k: nat)
    ensures k <= |s|
    ensures forall i :: 0 <= i < k ==> IsDigit(s[i])
    ensures k < |s| ==> !IsDigit(s[k])
  {
    if s == [] || !IsDigit(s[0]) then 0 else 1 + DigitRun(s[1..])
  }

  /** The text after an optional leading sign. */
  function Unsigned(text: string): string {
    if 0 < |text| && (text[0] == '-' || text[0] == '+') then text[1..] else text
  }

  /**
   * JavaScript's `parseInt(text)` on the value of a number input: an optional
   * sign, then as many digits as follow it; anything after them is ignored.
   * `None` stands for `NaN`, which `JSON.stringify` sends as `null`.
   */
  function ParseInt(text: string): (r: Option<int>)
    ensures text == "" ==> r.None?
    ensures 0 < |text| && IsDigit(text[0]) ==> r.Some? && 0 <= r.value
    ensures r.Some? && r.value < 0 ==> text[0] == '-'
  {
    var unsigned := Unsigned(text);
    var k := DigitRun(unsigned);
    if k == 0 then None
    else
      var v: int := ValueOf(unsigned[..k]);
      Some(if 0 < |text| && text[0] == '-' then -v else v)
  }

  /**
   * The number of cents nearest to the magnitude of `p`, a tie going to the
   * even neighbour, as the `.2f` format rounds.
   */
  function RoundedCents(p: real): (c: nat)
    ensures var scaled := (if p < 0.0 then -p else p) * 100.0;
            && c as real - 0.5 <= scaled <= c as real + 0.5
            && (scaled == c as real - 0.5 || scaled == c as real + 0.5 ==> c % 2 == 0)
  {
    var scaled := (if p < 0.0 then -p else p) * 100.0;
    var whole: nat := scaled.Floor;
    var fraction := scaled - whole as real;
    if fraction > 0.5 || (fraction == 0.5 && whole % 2 == 1) then whole + 1 else whole
  }

  /** Exact ties go to the even cent: 10.125 is written 10.12 and 0.135 is written 0.14. */
  lemma TiesGoToEven()
    ensures RoundedCents(10.125) == 1012 && RoundedCents(0.135) == 14
    ensures FormatPrice(0.125) == "0.12"
  {
  }

  /** A whole number of cents written as units, a point and two decimals. */
  function CentsText(c: nat): (s: string)
    ensures 4 <= |s| && s[|s| - 3] == '.'
    ensures forall i :: 0 <= i < |s| && i != |s| - 3 ==> IsDigit(s[i])
  {
    Digits(c / 100) + "." + [DigitChar(c % 100 / 10), DigitChar(c % 10)]
  }

  /**
   * Python's `format(p, '.2f')` on the exact value `p`: a sign when `p` is
   * negative, the whole part, a point and exactly two rounded decimals.
   */
  function FormatPrice(p: real): (s: string)
    ensures 4 <= |s| && s[|s| - 3] == '.'
    ensures IsDigit(s[|s| - 2]) && IsDigit(s[|s| - 1])
    ensures s[0] == '-' <==> p < 0.0
  {
    (if p < 0.0 then "-" else "") + CentsText(RoundedCents(p))
  }

  /** The digits of `CentsText(c)`, read around the point, make `c` cents. */
  lemma CentsTextValue(c: nat)
    ensures var s := CentsText(c);
            ValueOf(s[..|s| - 3]) * 100 + ValueOf(s[|s| - 2..]) == c
  {
    var s := CentsText(c);
    assert s[..|s| - 3] == Digits(c / 100);
    ValueOfDigits(c / 100);
    var tail := s[|s| - 2..];
    assert tail == [DigitChar(c % 100 / 10), DigitChar(c % 10)];
    var high, low := c % 100 / 10, c % 10;
    assert DigitValue(DigitChar(high)) == high && DigitValue(DigitChar(low)) == low;
    assert tail[..1] == [DigitChar(high)] && tail[..1][..0] == [];
    assert ValueOf(tail[..1]) == high;
    assert ValueOf(tail) == high * 10 + low;
    assert (c / 100) * 100 + high * 10 + low == c;
  }

  /**
   * The price text, without its sign and point, reads as the price rounded
   * to the nearest cent.
   */
  lemma FormatPriceValue(p: real)
    ensures var s := FormatPrice(p);
            var unsigned := if p < 0.0 then s[1..] else s;
            && unsigned == CentsText(RoundedCents(p))
            && ValueOf(unsigned[..|unsigned| - 3]) * 100 + ValueOf(unsigned[|unsigned| - 2..]) == RoundedCents(p)
  {
    var s := FormatPrice(p);
    var unsigned := if p < 0.0 then s[1..] else s;
    if p < 0.0 {
      assert s[1..] == CentsText(RoundedCents(p));
    } else {
      assert s == CentsText(RoundedCents(p));
    }
    CentsTextValue(RoundedCents(p));
  }

  /** Reading back the digits of `n` gives `n`. */
  lemma {:induction false} ValueOfDigits(n: nat)
    ensures ValueOf(Digits(n)) == n
  {
    if 10 <= n {
      var s := Digits(n);
      assert s[..|s| - 1] == Digits(n / 10);
      ValueOfDigits(n / 10);
    }
  }

  /** Digits followed by a non-digit form a digit run exactly as long as the digits. */
  lemma {:induction false} DigitRunStopsAfterDigits(d: string, rest: string)
    requires forall i :: 0 <= i < |d| ==> IsDigit(d[i])
    requires rest == [] || !IsDigit(rest[0])
    ensures DigitRun(d + rest) == |d|
  {
    if d != [] {
      assert (d + rest)[1..] == d[1..] + rest;
      DigitRunStopsAfterDigits(d[1..], rest);
    }
  }

  /**
   * `parseInt` reads back what `str` wrote, and ignores whatever follows the
   * digits when it does not start with a digit (a fraction, an exponent).
   */
  lemma ParseShow(n: int, rest: string)
    requires rest == [] || !IsDigit(rest[0])
    ensures ParseInt(Show(n) + rest) == Some(n)
  {
    var m := if n < 0 then -n else n;
    var d := Digits(m);
    ValueOfDigits(m);
    SignSplit(n < 0, d, rest);
    DigitRunStopsAfterDigits(d, rest);
    assert (d + rest)[..|d|] == d;
  }

  /** Removing the sign of `Show`'s output, followed by `rest`, leaves the digits followed by `rest`. */
  lemma SignSplit(negative: bool, d: string, rest: string)
    requires 0 < |d| && IsDigit(d[0])
    ensures var text := (if negative then "-" else "") + d + rest;
            && Unsigned(text) == d + rest
            && (0 < |text| && text[0] == '-' <==> negative)
  {
    if negative {
      assert ("-" + d + rest)[1..] == d + rest;
    } else {
      assert "" + d + rest == d + rest;
    }
  }
}
