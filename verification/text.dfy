/** Decimal numbers, zero padding and string order, as fmt and sort.Strings give them. */
module Text {

  predicate IsDigit(c: char) { '0' <= c <= '9' }

  predicate AllDigits(s: string) { forall i | 0 <= i < |s| :: IsDigit(s[i]) }

  /** s does not begin with a digit: a number read before it ends there. */
  predicate StopsNumber(s: string) { s == "" || !IsDigit(s[0]) }

  function DigitChar(d: nat): (c: char)
    requires d < 10
    ensures IsDigit(c)
  {
    '0' + d as char
  }

  function Decimal(n: nat): (s: string)
    ensures s != "" && AllDigits(s)
  {
    if n < 10 then [DigitChar(n)] else Decimal(n / 10) + [DigitChar(n % 10)]
  }

  function Sign(negative: bool): string { if negative then "-" else "" }

  function Abs(n: int): nat { if n < 0 then -n else n }

  function DecimalInt(n: int): string { Sign(n < 0) + Decimal(Abs(n)) }

  function Zeros(k: nat): (s: string)
    ensures |s| == k && AllDigits(s)
  {
    seq(k, _ => '0')
  }

  /** The verb %0wd on a non-negative number. */
  function ZeroPad(n: nat, w: nat): (s: string)
    ensures s != "" && AllDigits(s)
  {
    var d := Decimal(n);
    if |d| >= w then d else Zeros(w - |d|) + d
  }

  function Value(s: string): nat
    requires AllDigits(s)
  {
    if s == "" then 0 else Value(s[..|s| - 1]) * 10 + (s[|s| - 1] as int - '0' as int)
  }

  lemma {:induction false} ValueOfDecimal(n: nat)
    ensures Value(Decimal(n)) == n
  {
    if n >= 10 {
      ValueOfDecimal(n / 10);
      assert Decimal(n)[..|Decimal(n)| - 1] == Decimal(n / 10);
    }
  }

  lemma {:induction false} ValueOfPadded(k: nat, s: string)
    requires AllDigits(s)
    ensures Value(Zeros(k) + s) == Value(s)
  {
    if s != "" {
      ValueOfPadded(k, s[..|s| - 1]);
      assert (Zeros(k) + s)[..k + |s| - 1] == Zeros(k) + s[..|s| - 1];
    } else if k > 0 {
      ValueOfPadded(k - 1, s);
      assert (Zeros(k) + s)[..k - 1] == Zeros(k - 1) + s;
    }
  }

  lemma ValueOfZeroPad(n: nat, w: nat)
    ensures Value(ZeroPad(n, w)) == n
  {
    ValueOfDecimal(n);
    if |Decimal(n)| < w {
      ValueOfPadded(w - |Decimal(n)|, Decimal(n));
    }
  }

  function LeadingDigits(s: string): nat {
    if s != "" && IsDigit(s[0]) then 1 + LeadingDigits(s[1..]) else 0
  }

  lemma {:induction false} LeadingDigitsOf(a: string, r: string)
    requires AllDigits(a) && StopsNumber(r)
    ensures LeadingDigits(a + r) == |a|
  {
    if a == "" {
      assert a + r == r;
    } else {
      LeadingDigitsOf(a[1..], r);
      assert (a + r)[1..] == a[1..] + r;
    }
  }

  /** A run of digits is read back whole when what follows stops it. */
  lemma DigitRunUnique(a: string, r: string, b: string, s: string)
    requires AllDigits(a) && AllDigits(b) && StopsNumber(r) && StopsNumber(s)
    requires a + r == b + s
    ensures a == b && r == s
  {
    LeadingDigitsOf(a, r);
    LeadingDigitsOf(b, s);
    assert (a + r)[..|a|] == a && (b + s)[..|b|] == b;
    assert (a + r)[|a|..] == r && (b + s)[|b|..] == s;
  }

  lemma PaddedUnique(m: nat, r: string, n: nat, s: string, w: nat)
    requires StopsNumber(r) && StopsNumber(s)
    requires ZeroPad(m, w) + r == ZeroPad(n, w) + s
    ensures m == n && r == s
  {
    DigitRunUnique(ZeroPad(m, w), r, ZeroPad(n, w), s);
    ValueOfZeroPad(m, w);
    ValueOfZeroPad(n, w);
  }

  lemma NatUnique(m: nat, r: string, n: nat, s: string)
    requires StopsNumber(r) && StopsNumber(s)
    requires Decimal(m) + r == Decimal(n) + s
    ensures m == n && r == s
  {
    DigitRunUnique(Decimal(m), r, Decimal(n), s);
    ValueOfDecimal(m);
    ValueOfDecimal(n);
  }

  lemma SignUnique(p: bool, a: string, q: bool, b: string)
    requires a != "" && IsDigit(a[0]) && b != "" && IsDigit(b[0])
    requires Sign(p) + a == Sign(q) + b
    ensures p == q && a == b
  {
    assert (Sign(p) + a)[0] == if p then '-' else a[0];
    assert (Sign(q) + b)[0] == if q then '-' else b[0];
    assert (Sign(p) + a)[|Sign(p)|..] == a && (Sign(q) + b)[|Sign(q)|..] == b;
  }

  lemma DecimalUnique(m: int, r: string, n: int, s: string)
    requires StopsNumber(r) && StopsNumber(s)
    requires DecimalInt(m) + r == DecimalInt(n) + s
    ensures m == n && r == s
  {
    var a, b := Decimal(Abs(m)), Decimal(Abs(n));
    Reassociate(Sign(m < 0), a, r);
    Reassociate(Sign(n < 0), b, s);
    SignUnique(m < 0, a + r, n < 0, b + s);
    NatUnique(Abs(m), r, Abs(n), s);
  }

  lemma Reassociate(a: string, b: string, c: string)
    ensures (a + b) + c == a + (b + c)
  {
  }

  /** What comes before the first c. */
  function Before(s: string, c: char): string {
    if s == "" || s[0] == c then "" else [s[0]] + Before(s[1..], c)
  }

  /** What comes after the last c. */
  function AfterLast(s: string, c: char): string {
    if s == "" || s[|s| - 1] == c then "" else AfterLast(s[..|s| - 1], c) + [s[|s| - 1]]
  }

  lemma {:induction false} BeforeOf(a: string, c: char, r: string)
    requires c !in a
    ensures Before(a + ([c] + r), c) == a
  {
    if a == "" {
      assert a + ([c] + r) == [c] + r;
    } else {
      BeforeOf(a[1..], c, r);
      assert (a + ([c] + r))[1..] == a[1..] + ([c] + r);
    }
  }

  lemma {:induction false} AfterLastOf(a: string, c: char, r: string)
    requires c !in r
    ensures AfterLast(a + ([c] + r), c) == r
  {
    var n := |r| - 1;
    if r == "" {
      assert a + ([c] + r) == a + [c];
    } else {
      AfterLastOf(a, c, r[..n]);
      assert (a + ([c] + r))[..|a| + 1 + n] == a + ([c] + r[..n]);
      assert r == r[..n] + [r[n]];
    }
  }

  /** A separator that is in neither first part splits a text one way. */
  lemma SplitAtFirst(a: string, r: string, b: string, s: string, c: char)
    requires c !in a && c !in b && a + ([c] + r) == b + ([c] + s)
    ensures a == b && r == s
  {
    BeforeOf(a, c, r);
    BeforeOf(b, c, s);
    assert (a + ([c] + r))[|a| + 1..] == r && (b + ([c] + s))[|b| + 1..] == s;
  }

  lemma SplitAtLast(a: string, r: string, b: string, s: string, c: char)
    requires c !in r && c !in s && a + ([c] + r) == b + ([c] + s)
    ensures a == b && r == s
  {
    AfterLastOf(a, c, r);
    AfterLastOf(b, c, s);
    var x, y := a + ([c] + r), b + ([c] + s);
    assert |a| == |x| - 1 - |r| && |b| == |y| - 1 - |s|;
    assert x[..|a|] == a && y[..|b|] == b;
  }

  /** Lexicographic order, the order of Go's < on valid UTF-8 strings. */
  predicate StringLe(a: string, b: string) {
    a == "" || (b != "" && (a[0] < b[0] || (a[0] == b[0] && StringLe(a[1..], b[1..]))))
  }

  lemma {:induction false} StringLeTotal(a: string, b: string)
    ensures StringLe(a, b) || StringLe(b, a)
    ensures StringLe(a, b) && StringLe(b, a) ==> a == b
  {
    if a != "" && b != "" {
      StringLeTotal(a[1..], b[1..]);
      assert a == [a[0]] + a[1..] && b == [b[0]] + b[1..];
    }
  }

  lemma {:induction false} StringLeTransitive(a: string, b: string, c: string)
    requires StringLe(a, b) && StringLe(b, c)
    ensures StringLe(a, c)
  {
    if a != "" && a[0] == b[0] == c[0] {
      StringLeTransitive(a[1..], b[1..], c[1..]);
    }
  }
}
