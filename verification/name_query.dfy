/** normalizeNameQuery: lower-cased words joined by single spaces. */
module NameQuery {

  /** unicode.IsSpace. */
  predicate IsSpace(c: char) {
    var n := c as int;
    9 <= n <= 13 || n == 0x20 || n == 0x85 || n == 0xA0 || n == 0x1680 || 0x2000 <= n <= 0x200A
    || n == 0x2028 || n == 0x2029 || n == 0x202F || n == 0x205F || n == 0x3000
  }

  /** The first word, if the text starts with one. */
  function Word(s: string): (w: string)
    ensures |w| <= |s| && w == s[..|w|] && Solid(w)
    ensures |w| < |s| ==> IsSpace(s[|w|])
    ensures s != "" && !IsSpace(s[0]) ==> w != ""
  {
    if s == "" || IsSpace(s[0]) then "" else [s[0]] + Word(s[1..])
  }

  predicate Solid(s: string) { forall i | 0 <= i < |s| :: !IsSpace(s[i]) }

  predicate IsWord(s: string) { s != "" && Solid(s) }

  /** strings.Fields. */
  function Fields(s: string): (fs: seq<string>)
    ensures forall f | f in fs :: IsWord(f)
    decreases |s|
  {
    if s == "" then []
    else if IsSpace(s[0]) then Fields(s[1..])
    else [Word(s)] + Fields(s[|Word(s)|..])
  }

  function Join(fs: seq<string>): string {
    if fs == [] then "" else if |fs| == 1 then fs[0] else fs[0] + " " + Join(fs[1..])
  }

  lemma {:induction false} WordThen(w: string, r: string)
    requires Solid(w) && (r == "" || IsSpace(r[0]))
    ensures Word(w + r) == w
  {
    if w == "" {
      assert w + r == r;
    } else {
      WordThen(w[1..], r);
      assert (w + r)[1..] == w[1..] + r;
    }
  }

  /** Words joined by a space come apart as they were. */
  lemma {:induction false} FieldsOfJoin(fs: seq<string>)
    requires forall f | f in fs :: IsWord(f)
    ensures Fields(Join(fs)) == fs
  {
    if fs != [] {
      var w := fs[0];
      var r := if |fs| == 1 then "" else " " + Join(fs[1..]);
      assert IsWord(w);
      assert Join(fs) == w + r;
      WordThen(w, r);
      assert (w + r)[0] == w[0] && (w + r)[|w|..] == r;
      if |fs| > 1 {
        FieldsOfJoin(fs[1..]);
        assert r[1..] == Join(fs[1..]);
      }
    }
  }

  /** unicode.ToLower, rune by rune: it takes spaces to spaces and nothing else to one. */
  ghost predicate KeepsSpaces(lower: char -> char) { forall c :: IsSpace(lower(c)) <==> IsSpace(c) }

  function Lower(s: string, lower: char -> char): string { seq(|s|, i requires 0 <= i < |s| => lower(s[i])) }

  function Normalize(q: string, lower: char -> char): string { Join(Fields(Lower(q, lower))) }

  /** Two queries share a cache row exactly when their lower-cased words are the same. */
  lemma SameRowExactly(a: string, b: string, lower: char -> char)
    ensures Normalize(a, lower) == Normalize(b, lower) <==> Fields(Lower(a, lower)) == Fields(Lower(b, lower))
  {
    FieldsOfJoin(Fields(Lower(a, lower)));
    FieldsOfJoin(Fields(Lower(b, lower)));
  }

  function TrimLeft(s: string): string {
    if s != "" && IsSpace(s[0]) then TrimLeft(s[1..]) else s
  }

  function TrimRight(s: string): string {
    if s != "" && IsSpace(s[|s| - 1]) then TrimRight(s[..|s| - 1]) else s
  }

  function TrimSpace(s: string): string { TrimRight(TrimLeft(s)) }

  ghost predicate AllSpace(s: string) { forall i | 0 <= i < |s| :: IsSpace(s[i]) }

  lemma {:induction false} TrimLeftParts(s: string) returns (before: string)
    ensures AllSpace(before) && s == before + TrimLeft(s)
    ensures TrimLeft(s) == "" || !IsSpace(TrimLeft(s)[0])
  {
    if s != "" && IsSpace(s[0]) {
      var b := TrimLeftParts(s[1..]);
      before := [s[0]] + b;
    } else {
      before := "";
    }
  }

  lemma {:induction false} TrimRightParts(s: string) returns (after: string)
    ensures AllSpace(after) && s == TrimRight(s) + after
    ensures TrimRight(s) == "" || !IsSpace(TrimRight(s)[|TrimRight(s)| - 1])
  {
    if s != "" && IsSpace(s[|s| - 1]) {
      var a := TrimRightParts(s[..|s| - 1]);
      after := a + [s[|s| - 1]];
    } else {
      after := "";
    }
  }

  /** What is left has no space at either end, and what is cut off is nothing but space. */
  lemma TrimmedExactly(s: string) returns (before: string, after: string)
    ensures s == before + TrimSpace(s) + after && AllSpace(before) && AllSpace(after)
    ensures TrimSpace(s) == "" ||
            (!IsSpace(TrimSpace(s)[0]) && !IsSpace(TrimSpace(s)[|TrimSpace(s)| - 1]))
  {
    before := TrimLeftParts(s);
    after := TrimRightParts(TrimLeft(s));
  }

  lemma {:induction false} FieldsBeforeSpace(s: string, c: char)
    requires IsSpace(c)
    ensures Fields(s + [c]) == Fields(s)
    decreases |s|
  {
    if s == "" {
      assert Fields([c][1..]) == [];
      assert s + [c] == [c];
    } else if IsSpace(s[0]) {
      FieldsBeforeSpace(s[1..], c);
      assert (s + [c])[1..] == s[1..] + [c];
    } else {
      var w, r := Word(s), s[|Word(s)|..];
      assert s + [c] == w + (r + [c]);
      WordThen(w, r + [c]);
      assert (s + [c])[|w|..] == r + [c];
      FieldsBeforeSpace(r, c);
    }
  }

  lemma {:induction false} TrimLeftKeepsFields(s: string, lower: char -> char)
    requires KeepsSpaces(lower)
    ensures Fields(Lower(TrimLeft(s), lower)) == Fields(Lower(s, lower))
  {
    if s != "" && IsSpace(s[0]) {
      TrimLeftKeepsFields(s[1..], lower);
      assert Lower(s, lower)[1..] == Lower(s[1..], lower);
    }
  }

  lemma {:induction false} TrimRightKeepsFields(s: string, lower: char -> char)
    requires KeepsSpaces(lower)
    ensures Fields(Lower(TrimRight(s), lower)) == Fields(Lower(s, lower))
  {
    if s != "" && IsSpace(s[|s| - 1]) {
      var p, l := s[..|s| - 1], s[|s| - 1];
      TrimRightKeepsFields(p, lower);
      assert Lower(s, lower) == Lower(p, lower) + [lower(l)];
      FieldsBeforeSpace(Lower(p, lower), lower(l));
    }
  }

  /** Space around a name makes no difference to its row. */
  lemma TrimKeepsKey(s: string, lower: char -> char)
    requires KeepsSpaces(lower)
    ensures Normalize(TrimSpace(s), lower) == Normalize(s, lower)
  {
    TrimLeftKeepsFields(s, lower);
    TrimRightKeepsFields(TrimLeft(s), lower);
  }
}
