/** Dates written as `YYYY-MM-DD` (the `full-date` form of section 5.6 of
    RFC 3339): the digit shape the customer validator checks, the
    (year, month, day) order its refinements compare, and the calendar
    check a Postgres `date` column applies on input. */
module DateText {

  predicate IsDigit(c: char) {
    '0' <= c <= '9'
  }

  function DigitValue(c: char): (v: nat)
    requires IsDigit(c)
    ensures v <= 9
  {
    (c as int) - ('0' as int)
  }

  predicate AllDigits(s: string) {
    forall i :: 0 <= i < |s| ==> IsDigit(s[i])
  }

  function Pow10(n: nat): (p: nat)
    ensures p >= 1
  {
    if n == 0 then 1 else 10 * Pow10(n - 1)
  }

  /** The number a string of decimal digits denotes, most significant first. */
  function DigitsValue(s: string): nat
    requires AllDigits(s)
  {
    if s == [] then 0 else DigitValue(s[0]) * Pow10(|s| - 1) + DigitsValue(s[1..])
  }

  /** Lexicographic order on strings, comparing characters by code point
      (the order of JavaScript's `<=` on strings of such characters). */
  predicate LexLe(a: string, b: string) {
    a == [] || (b != [] && (a[0] < b[0] || (a[0] == b[0] && LexLe(a[1..], b[1..]))))
  }

  /** The regular expression `^\d{4}-\d{2}-\d{2}$`: `\d` is exactly
      `[0-9]`, and `$` anchors at the very end. */
  predicate DateShape(s: string) {
    && |s| == 10
    && AllDigits(s[..4]) && s[4] == '-'
    && AllDigits(s[5..7]) && s[7] == '-'
    && AllDigits(s[8..])
  }

  function Year(s: string): nat
    requires DateShape(s)
  {
    DigitsValue(s[..4])
  }

  function Month(s: string): nat
    requires DateShape(s)
  {
    DigitsValue(s[5..7])
  }

  function Day(s: string): nat
    requires DateShape(s)
  {
    DigitsValue(s[8..])
  }

  /** `new Date(a) <= new Date(b)` for two accepted date strings: both
      denote midnight UTC of their day, so the comparison is the
      (year, month, day) order. */
  predicate DateLe(a: string, b: string)
    requires DateShape(a) && DateShape(b)
  {
    || Year(a) < Year(b)
    || (Year(a) == Year(b) && (Month(a) < Month(b) || (Month(a) == Month(b) && Day(a) <= Day(b))))
  }

  predicate LeapYear(y: nat) {
    y % 4 == 0 && (y % 100 != 0 || y % 400 == 0)
  }

  function DaysInMonth(y: nat, m: nat): (n: nat)
    requires 1 <= m <= 12
    ensures 28 <= n <= 31
  {
    if m == 2 then (if LeapYear(y) then 29 else 28)
    else if m == 4 || m == 6 || m == 9 || m == 11 then 30
    else 31
  }

  /** A `YYYY-MM-DD` string naming a day of the proleptic Gregorian calendar. */
  predicate CalendarDate(s: string) {
    DateShape(s) && 1 <= Month(s) <= 12 && 1 <= Day(s) <= DaysInMonth(Year(s), Month(s))
  }

  lemma {:induction false} DigitsValueBound(s: string)
    requires AllDigits(s)
    ensures DigitsValue(s) < Pow10(|s|)
  {
    if s != [] {
      DigitsValueBound(s[1..]);
      LeadingDigitBound(DigitValue(s[0]), Pow10(|s| - 1), DigitsValue(s[1..]));
    }
  }

  /** A digit followed by a smaller number stays below the next power. */
  lemma LeadingDigitBound(d: nat, p: nat, x: nat)
    requires d <= 9 && x < p
    ensures d * p + x < 10 * p
  {
    assert d * p <= 9 * p;
  }

  /** A number led by a smaller digit is smaller, whatever follows. */
  lemma LeadingDigitDecides(d: nat, e: nat, p: nat, x: nat, y: nat)
    requires d < e && x < p
    ensures d * p + x < e * p + y
  {
    assert (d + 1) * p <= e * p;
  }

  /** Peels the leading digit off a non-empty digit string. */
  lemma LeadingDigit(s: string)
    requires AllDigits(s) && s != []
    ensures AllDigits(s[1..])
    ensures DigitsValue(s) == DigitValue(s[0]) * Pow10(|s| - 1) + DigitsValue(s[1..])
    ensures DigitsValue(s[1..]) < Pow10(|s| - 1)
  {
    DigitsValueBound(s[1..]);
  }

  /** Two digit strings of one length compare as numbers exactly as they
      compare as strings, and denote the same number only if equal. */
  lemma {:induction false} DigitsCompare(s: string, t: string)
    requires AllDigits(s) && AllDigits(t) && |s| == |t|
    ensures DigitsValue(s) <= DigitsValue(t) <==> LexLe(s, t)
    ensures DigitsValue(s) == DigitsValue(t) <==> s == t
  {
    if s != [] {
      LeadingDigit(s);
      LeadingDigit(t);
      if s[0] == t[0] {
        DigitsCompare(s[1..], t[1..]);
        assert s == [s[0]] + s[1..] && t == [t[0]] + t[1..];
      } else if s[0] < t[0] {
        LeadingDigitDecides(DigitValue(s[0]), DigitValue(t[0]), Pow10(|s| - 1), DigitsValue(s[1..]), DigitsValue(t[1..]));
      } else {
        LeadingDigitDecides(DigitValue(t[0]), DigitValue(s[0]), Pow10(|s| - 1), DigitsValue(t[1..]), DigitsValue(s[1..]));
      }
    }
  }

  /** Comparing two strings whose first parts have one length: the first
      parts decide unless they are equal. */
  lemma {:induction false} LexLeAppend(p: string, q: string, p': string, q': string)
    requires |p| == |p'|
    ensures LexLe(p + q, p' + q') <==> (p != p' && LexLe(p, p')) || (p == p' && LexLe(q, q'))
  {
    if p != [] {
      assert (p + q)[1..] == p[1..] + q;
      assert (p' + q')[1..] == p'[1..] + q';
      LexLeAppend(p[1..], q, p'[1..], q');
      assert p == [p[0]] + p[1..] && p' == [p'[0]] + p'[1..];
    } else {
      assert p + q == q && p' + q' == q';
    }
  }

  /** The two date refinements of the customer validator order dates as
      plain string comparison would. */
  lemma DateOrderIsStringOrder(a: string, b: string)
    requires DateShape(a) && DateShape(b)
    ensures DateLe(a, b) <==> LexLe(a, b)
  {
    DigitsCompare(a[..4], b[..4]);
    DigitsCompare(a[5..7], b[5..7]);
    DigitsCompare(a[8..], b[8..]);
    assert a == a[..4] + a[4..] && b == b[..4] + b[4..];
    LexLeAppend(a[..4], a[4..], b[..4], b[4..]);
    assert a[4..][1..] == a[5..] && b[4..][1..] == b[5..];
    assert a[5..] == a[5..7] + a[7..] && b[5..] == b[5..7] + b[7..];
    LexLeAppend(a[5..7], a[7..], b[5..7], b[7..]);
    assert a[7..][1..] == a[8..] && b[7..][1..] == b[8..];
  }

  /** Two accepted dates that are each at most the other are the same string. */
  lemma DateOrderAntisymmetric(a: string, b: string)
    requires DateShape(a) && DateShape(b)
    requires DateLe(a, b) && DateLe(b, a)
    ensures a == b
  {
    DigitsCompare(a[..4], b[..4]);
    DigitsCompare(a[5..7], b[5..7]);
    DigitsCompare(a[8..], b[8..]);
    assert a == a[..4] + [a[4]] + a[5..7] + [a[7]] + a[8..];
    assert b == b[..4] + [b[4]] + b[5..7] + [b[7]] + b[8..];
  }

  lemma DateOrderTransitive(a: string, b: string, c: string)
    requires DateShape(a) && DateShape(b) && DateShape(c)
    requires DateLe(a, b) && DateLe(b, c)
    ensures DateLe(a, c)
  {
  }
}
