/** Instants, and the UTC text utcNanos gives them (RFC 3339 with the fraction's
    trailing zeros dropped). An instant counts nanoseconds from 1 January of year 1,
    the zero of Go's time.Time. */
module Instants {
  import opened Text

  type Instant = nat

  const SECOND: nat := 1_000_000_000
  const DAY: nat := 86_400 * SECOND

  predicate Leap(year: nat) { year % 4 == 0 && (year % 100 != 0 || year % 400 == 0) }

  function DaysInYear(year: nat): nat { if Leap(year) then 366 else 365 }

  function DaysInMonth(year: nat, month: nat): nat {
    if month == 2 then (if Leap(year) then 29 else 28)
    else if month == 4 || month == 6 || month == 9 || month == 11 then 30
    else 31
  }

  /** The year a day falls in, and its place in that year, counting on from the first day of year. */
  function YearOf(day: nat, year: nat): (r: (nat, nat))
    ensures r.0 >= year && r.1 < DaysInYear(r.0)
  {
    if day < DaysInYear(year) then (year, day) else YearOf(day - DaysInYear(year), year + 1)
  }

  /** The month and the day of the month, counting on from the first day of month. */
  function MonthOf(day: nat, year: nat, month: nat): (r: (nat, nat))
    requires month <= 12
    ensures month <= r.0 <= 12
    decreases 12 - month
  {
    if month == 12 || day < DaysInMonth(year, month) then (month, day + 1)
    else MonthOf(day - DaysInMonth(year, month), year, month + 1)
  }

  lemma {:induction false} YearUnique(d: nat, e: nat, year: nat)
    requires YearOf(d, year) == YearOf(e, year)
    ensures d == e
  {
    if d >= DaysInYear(year) && e >= DaysInYear(year) {
      YearUnique(d - DaysInYear(year), e - DaysInYear(year), year + 1);
    }
  }

  lemma {:induction false} MonthUnique(d: nat, e: nat, year: nat, month: nat)
    requires month <= 12 && MonthOf(d, year, month) == MonthOf(e, year, month)
    ensures d == e
    decreases 12 - month
  {
    if month < 12 && d >= DaysInMonth(year, month) && e >= DaysInMonth(year, month) {
      MonthUnique(d - DaysInMonth(year, month), e - DaysInMonth(year, month), year, month + 1);
    }
  }

  function DateDigits(year: nat, month: nat, day: nat): string {
    ZeroPad(year, 4) + ("-" + (ZeroPad(month, 2) + ("-" + ZeroPad(day, 2))))
  }

  function ClockDigits(hour: nat, minute: nat, second: nat): string {
    ZeroPad(hour, 2) + (":" + (ZeroPad(minute, 2) + (":" + ZeroPad(second, 2))))
  }

  lemma DateDigitsUnique(y: nat, m: nat, d: nat, r: string, y': nat, m': nat, d': nat, r': string)
    requires StopsNumber(r) && StopsNumber(r')
    requires DateDigits(y, m, d) + r == DateDigits(y', m', d') + r'
    ensures y == y' && m == m' && d == d' && r == r'
  {
    ThreeNumbersUnique(y, m, d, r, y', m', d', r', 4, "-");
  }

  lemma ClockDigitsUnique(h: nat, m: nat, s: nat, r: string, h': nat, m': nat, s': nat, r': string)
    requires StopsNumber(r) && StopsNumber(r')
    requires ClockDigits(h, m, s) + r == ClockDigits(h', m', s') + r'
    ensures h == h' && m == m' && s == s' && r == r'
  {
    ThreeNumbersUnique(h, m, s, r, h', m', s', r', 2, ":");
  }

  /** A padded number, a separator and the rest, read back one at a time. */
  lemma NumberThenUnique(a: nat, x: string, a': nat, x': string, w: nat, sep: string)
    requires |sep| == 1 && !IsDigit(sep[0])
    requires ZeroPad(a, w) + (sep + x) == ZeroPad(a', w) + (sep + x')
    ensures a == a' && x == x'
  {
    hide ZeroPad;
    PaddedUnique(a, sep + x, a', sep + x', w);
    assert (sep + x)[1..] == x && (sep + x')[1..] == x';
  }

  lemma ThreeNumbersUnique(a: nat, b: nat, c: nat, r: string, a': nat, b': nat, c': nat, r': string,
                           w: nat, sep: string)
    requires |sep| == 1 && !IsDigit(sep[0]) && StopsNumber(r) && StopsNumber(r')
    requires ZeroPad(a, w) + (sep + (ZeroPad(b, 2) + (sep + ZeroPad(c, 2)))) + r
          == ZeroPad(a', w) + (sep + (ZeroPad(b', 2) + (sep + ZeroPad(c', 2)))) + r'
    ensures a == a' && b == b' && c == c' && r == r'
  {
    hide ZeroPad;
    FiveParts(ZeroPad(a, w), sep, ZeroPad(b, 2), ZeroPad(c, 2), r);
    FiveParts(ZeroPad(a', w), sep, ZeroPad(b', 2), ZeroPad(c', 2), r');
    var u, u' := ZeroPad(c, 2) + r, ZeroPad(c', 2) + r';
    NumberThenUnique(a, ZeroPad(b, 2) + (sep + u), a', ZeroPad(b', 2) + (sep + u'), w, sep);
    NumberThenUnique(b, u, b', u', 2, sep);
    PaddedUnique(c, r, c', r', 2);
  }

  lemma FiveParts(a: string, sep: string, b: string, c: string, r: string)
    ensures a + (sep + (b + (sep + c))) + r == a + (sep + (b + (sep + (c + r))))
  {
    Reassociate(a, sep + (b + (sep + c)), r);
    Reassociate(sep, b + (sep + c), r);
    Reassociate(b, sep + c, r);
    Reassociate(sep, c, r);
  }

  function TrimZeros(s: string): (t: string)
    ensures |t| <= |s| && (AllDigits(s) ==> AllDigits(t))
    ensures s == t + Zeros(|s| - |t|)
  {
    if s != "" && s[|s| - 1] == '0' then
      assert s == s[..|s| - 1] + "0";
      TrimZeros(s[..|s| - 1])
    else s
  }

  /** The fraction of a second: nine digits less the zeros at their end, or nothing. */
  function Fraction(nanos: nat): string {
    if nanos == 0 then "" else "." + TrimZeros(ZeroPad(nanos, 9))
  }

  function Power10(w: nat): nat { if w == 0 then 1 else 10 * Power10(w - 1) }

  lemma {:induction false} DecimalFits(n: nat, w: nat)
    requires n < Power10(w) && w > 0
    ensures |Decimal(n)| <= w
  {
    if n >= 10 {
      assert w > 1;
      DecimalFits(n / 10, w - 1);
    }
  }

  lemma NineDigits(n: nat)
    requires n < SECOND
    ensures |ZeroPad(n, 9)| == 9
  {
    assert Power10(9) == SECOND;
    DecimalFits(n, 9);
  }

  lemma FractionUnique(m: nat, n: nat)
    requires m < SECOND && n < SECOND && Fraction(m) + "Z" == Fraction(n) + "Z"
    ensures m == n
  {
    hide ZeroPad, TrimZeros, Decimal;
    if m == 0 || n == 0 {
      assert (Fraction(m) + "Z")[0] == (Fraction(n) + "Z")[0];
    } else {
      TrimmedUnique(m, n);
    }
  }

  /** Of two digit strings of one length, the trimmed ends can be put back. */
  lemma PaddingRestored(a: string, b: string)
    requires |a| == |b| && TrimZeros(a) == TrimZeros(b)
    ensures a == b
  {
    hide TrimZeros;
  }

  lemma TrimmedUnique(m: nat, n: nat)
    requires 0 < m < SECOND && 0 < n < SECOND && Fraction(m) + "Z" == Fraction(n) + "Z"
    ensures m == n
  {
    hide ZeroPad, TrimZeros, Decimal, Value;
    var a, b := ZeroPad(m, 9), ZeroPad(n, 9);
    assert (Fraction(m) + "Z")[1..] == TrimZeros(a) + "Z" && (Fraction(n) + "Z")[1..] == TrimZeros(b) + "Z";
    DigitRunUnique(TrimZeros(a), "Z", TrimZeros(b), "Z");
    NineDigits(m);
    NineDigits(n);
    PaddingRestored(a, b);
    ValueOfZeroPad(m, 9);
    ValueOfZeroPad(n, 9);
  }

  function DayText(t: Instant): string {
    var y := YearOf(t / DAY, 1);
    var m := MonthOf(y.1, y.0, 1);
    DateDigits(y.0, m.0, m.1)
  }

  function SecondText(second: nat): string {
    ClockDigits(second / 60 / 60, second / 60 % 60, second % 60)
  }

  function UtcNanos(t: Instant): string {
    DayText(t) + ("T" + (SecondText(t % DAY / SECOND) + (Fraction(t % DAY % SECOND) + "Z")))
  }

  lemma SameDay(t: Instant, r: string, u: Instant, r': string)
    requires StopsNumber(r) && StopsNumber(r') && DayText(t) + r == DayText(u) + r'
    ensures t / DAY == u / DAY && r == r'
  {
    var y, y' := YearOf(t / DAY, 1), YearOf(u / DAY, 1);
    var m, m' := MonthOf(y.1, y.0, 1), MonthOf(y'.1, y'.0, 1);
    DateDigitsUnique(y.0, m.0, m.1, r, y'.0, m'.0, m'.1, r');
    MonthUnique(y.1, y'.1, y.0, 1);
    YearUnique(t / DAY, u / DAY, 1);
  }

  lemma SameSixtieths(a: nat, b: nat)
    requires a / 60 == b / 60 && a % 60 == b % 60
    ensures a == b
  {
  }

  lemma SameSecond(s: nat, r: string, s': nat, r': string)
    requires StopsNumber(r) && StopsNumber(r') && SecondText(s) + r == SecondText(s') + r'
    ensures s == s' && r == r'
  {
    hide ClockDigits;
    ClockDigitsUnique(s / 60 / 60, s / 60 % 60, s % 60, r, s' / 60 / 60, s' / 60 % 60, s' % 60, r');
    SameSixtieths(s / 60, s' / 60);
    SameSixtieths(s, s');
  }

  lemma SameInstant(t: Instant, u: Instant)
    requires t / DAY == u / DAY && t % DAY / SECOND == u % DAY / SECOND && t % DAY % SECOND == u % DAY % SECOND
    ensures t == u
  {
    var x, y := t % DAY, u % DAY;
    assert x == y;
  }

  /** The text names one instant. */
  lemma UtcNanosUnique(t: Instant, u: Instant)
    requires UtcNanos(t) == UtcNanos(u)
    ensures t == u
  {
    hide DayText, SecondText, Fraction;
    var s, s' := t % DAY / SECOND, u % DAY / SECOND;
    var f, f' := Fraction(t % DAY % SECOND) + "Z", Fraction(u % DAY % SECOND) + "Z";
    var r, r' := "T" + (SecondText(s) + f), "T" + (SecondText(s') + f');
    SameDay(t, r, u, r');
    assert r[1..] == SecondText(s) + f && r'[1..] == SecondText(s') + f';
    FractionStops(t % DAY % SECOND);
    FractionStops(u % DAY % SECOND);
    SameSecond(s, f, s', f');
    FractionUnique(t % DAY % SECOND, u % DAY % SECOND);
    SameInstant(t, u);
  }

  lemma FractionStops(n: nat)
    ensures StopsNumber(Fraction(n) + "Z")
  {
  }
}
