/**
 * Decimal text: the digit strings behind `${file.size}` in a file id and behind parseFloat on a
 * TRANSACTION_AMOUNT field. Amounts are kept exactly, in hundredths (minor units).
 */
module Numbers {
  import CsvLine

  predicate IsDigit(c: char) {
    '0' <= c <= '9'
  }

  predicate AllDigits(s: string) {
    forall i :: 0 <= i < |s| ==> IsDigit(s[i])
  }

  function DigitValue(c: char): nat
    requires IsDigit(c)
  {
    (c as int - '0' as int) as nat
  }

  function DigitChar(d: nat): (c: char)
    requires d < 10
    ensures IsDigit(c) && DigitValue(c) == d
  {
    ('0' as int + d) as char
  }

  /** The value of a string of digits, most significant first. */
  function DigitsValue(s: string): nat
    requires AllDigits(s)
  {
    if s == [] then 0 else DigitsValue(s[..|s| - 1]) * 10 + DigitValue(s[|s| - 1])
  }

  /** Number.prototype.toString() on a non-negative integer: shortest decimal, no leading zero. */
  function NatToString(n: nat): (s: string)
    ensures s != [] && AllDigits(s)
    ensures |s| > 1 ==> s[0] != '0'
  {
    if n < 10 then [DigitChar(n)] else NatToString(n / 10) + [DigitChar(n % 10)]
  }

  /** Reading back the decimal text of `n` gives `n`. */
  lemma {:induction false} NatToStringValue(n: nat)
    ensures DigitsValue(NatToString(n)) == n
  {
    if n >= 10 {
      NatToStringValue(n / 10);
      var s := NatToString(n);
      assert s[..|s| - 1] == NatToString(n / 10);
    }
  }

  /** Different sizes have different decimal texts. */
  lemma NatToStringInjective(a: nat, b: nat)
    requires NatToString(a) == NatToString(b)
    ensures a == b
  {
    NatToStringValue(a);
    NatToStringValue(b);
  }

  /** The length of the run of digits at the start of `s`. */
  function DigitRun(s: string): (n: nat)
    ensures n <= |s| && AllDigits(s[..n])
    ensures n < |s| ==> !IsDigit(s[n])
  {
    if s != [] && IsDigit(s[0]) then
      var k := DigitRun(s[1..]);
      assert s[..k + 1] == [s[0]] + s[1..][..k];
      k + 1
    else 0
  }

  /** The first two fraction digits as hundredths; missing digits count as zero. */
  function FractionCents(f: string): (r: nat)
    requires AllDigits(f)
    ensures r < 100
  {
    if f == [] then 0
    else if |f| == 1 then DigitValue(f[0]) * 10
    else DigitValue(f[0]) * 10 + DigitValue(f[1])
  }

  /**
   * parseFloat(s) || 0, in hundredths and truncated toward zero: leading white space is skipped,
   * then an optional sign, integer digits, and an optional '.' with fraction digits; at least one
   * digit must be present, otherwise the result is NaN, which `|| 0` turns into 0.
   */
  function ParseAmount(s: string): int {
    var t := CsvLine.TrimStart(s);
    var neg := t != [] && t[0] == '-';
    var u := if t != [] && (t[0] == '-' || t[0] == '+') then t[1..] else t;
    var n := DigitRun(u);
    var rest := u[n..];
    var hasPoint := rest != [] && rest[0] == '.';
    var f := if hasPoint then DigitRun(rest[1..]) else 0;
    if n == 0 && f == 0 then 0
    else
      var cents := DigitsValue(u[..n]) * 100 + (if hasPoint then FractionCents(rest[1..][..f]) else 0);
      if neg then -cents else cents
  }

  /** Renders an amount in hundredths as `[-]<integer>.<two digits>`. */
  function FormatCents(c: int): (s: string)
    ensures s != [] && (s[0] == '-' || IsDigit(s[0]))
  {
    var a: nat := if c < 0 then -c else c;
    var text := NatToString(a / 100) + "." + [DigitChar(a % 100 / 10), DigitChar(a % 10)];
    if c < 0 then "-" + text else text
  }

  lemma ParseUnsigned(u: string, a: nat)
    requires u == NatToString(a / 100) + "." + [DigitChar(a % 100 / 10), DigitChar(a % 10)]
    ensures var n := DigitRun(u);
            n == |NatToString(a / 100)| && u[n..] != [] && u[n..][0] == '.'
            && DigitRun(u[n..][1..]) == 2
            && DigitsValue(u[..n]) == a / 100
            && FractionCents(u[n..][1..][..2]) == a % 100
  {
    var w := NatToString(a / 100);
    var frac := [DigitChar(a % 100 / 10), DigitChar(a % 10)];
    DigitRunStops(w, "." + frac);
    assert u == w + ("." + frac);
    var n := DigitRun(u);
    assert u[n..] == "." + frac;
    assert u[n..][1..] == frac;
    assert u[..n] == w;
    NatToStringValue(a / 100);
    TwoDigitFraction(a % 100 / 10, a % 10);
  }

  /** Two digits after the point form a digit run of two, read as that many hundredths. */
  lemma TwoDigitFraction(d1: nat, d0: nat)
    requires d1 < 10 && d0 < 10
    ensures DigitRun([DigitChar(d1), DigitChar(d0)]) == 2
    ensures FractionCents([DigitChar(d1), DigitChar(d0)][..2]) == d1 * 10 + d0
  {
    var frac := [DigitChar(d1), DigitChar(d0)];
    assert frac[1..][1..] == [];
    assert frac[..2] == frac;
  }

  /** The digit run of `w + r` stops at the end of `w` when `r` does not start with a digit. */
  lemma {:induction false} DigitRunStops(w: string, r: string)
    requires AllDigits(w) && (r == [] || !IsDigit(r[0]))
    ensures DigitRun(w + r) == |w|
  {
    if w != [] {
      assert (w + r)[1..] == w[1..] + r;
      DigitRunStops(w[1..], r);
    } else {
      assert w + r == r;
    }
  }

  /** parseFloat reads back every amount that FormatCents writes. */
  lemma ParseFormatCents(c: int)
    ensures ParseAmount(FormatCents(c)) == c
  {
    var a: nat := if c < 0 then -c else c;
    var text := NatToString(a / 100) + "." + [DigitChar(a % 100 / 10), DigitChar(a % 10)];
    var s := FormatCents(c);
    assert CsvLine.TrimStart(s) == s by {
      assert !CsvLine.IsSpace(s[0]);
    }
    ParseUnsigned(text, a);
    if c < 0 {
      assert s[1..] == text;
    }
  }
}
