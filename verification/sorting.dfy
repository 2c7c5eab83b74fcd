/** Stable sorting by a total preorder: the meaning of sort.SliceStable and
    sort.Strings, and of the engine's own insertion sort. */
module Sorting {

  ghost predicate TotalPreorder<T(!new)>(le: (T, T) -> bool) {
    && (forall a, b :: le(a, b) || le(b, a))
    && (forall a, b, c :: le(a, b) && le(b, c) ==> le(a, c))
  }

  ghost predicate Antisymmetric<T(!new)>(le: (T, T) -> bool) {
    forall a, b :: le(a, b) && le(b, a) ==> a == b
  }

  ghost predicate SortedBy<T>(le: (T, T) -> bool, s: seq<T>) {
    forall i, j | 0 <= i < j < |s| :: le(s[i], s[j])
  }

  function Insert<T>(le: (T, T) -> bool, s: seq<T>, x: T): seq<T> {
    if s == [] || le(s[|s| - 1], x) then s + [x]
    else Insert(le, s[..|s| - 1], x) + [s[|s| - 1]]
  }

  function Sort<T>(le: (T, T) -> bool, s: seq<T>): seq<T> {
    if s == [] then [] else Insert(le, Sort(le, s[..|s| - 1]), s[|s| - 1])
  }

  /** The elements of s that tie with x, in the order of s. */
  ghost function Ties<T>(le: (T, T) -> bool, s: seq<T>, x: T): seq<T> {
    if s == [] then []
    else
      var l := s[|s| - 1];
      Ties(le, s[..|s| - 1], x) + if le(l, x) && le(x, l) then [l] else []
  }

  ghost predicate SameTies<T(!new)>(le: (T, T) -> bool, a: seq<T>, b: seq<T>) {
    forall y :: Ties(le, a, y) == Ties(le, b, y)
  }

  lemma {:induction false} InsertSorted<T(!new)>(le: (T, T) -> bool, s: seq<T>, x: T)
    requires TotalPreorder(le) && SortedBy(le, s)
    ensures SortedBy(le, Insert(le, s, x))
    ensures multiset(Insert(le, s, x)) == multiset(s) + multiset{x}
  {
    if s == [] {
    } else if le(s[|s| - 1], x) {
    } else {
      var l := s[|s| - 1];
      assert s == s[..|s| - 1] + [l];
      InsertSorted(le, s[..|s| - 1], x);
      var r := Insert(le, s[..|s| - 1], x);
      forall e | e in r ensures le(e, l) {
        assert e in multiset(r);
        assert e in s[..|s| - 1] || e == x;
      }
    }
  }

  lemma {:induction false} InsertTies<T(!new)>(le: (T, T) -> bool, s: seq<T>, x: T, y: T)
    requires TotalPreorder(le) && SortedBy(le, s)
    ensures Ties(le, Insert(le, s, x), y) == Ties(le, s, y) + if le(x, y) && le(y, x) then [x] else []
  {
    if s == [] || le(s[|s| - 1], x) {
      assert (s + [x])[..|s|] == s;
    } else {
      var l := s[|s| - 1];
      var r := Insert(le, s[..|s| - 1], x);
      InsertTies(le, s[..|s| - 1], x, y);
      assert (r + [l])[..|r|] == r;
    }
  }

  /** Sorting orders the elements, keeps each one, and keeps ties in their order. */
  lemma {:induction false} SortCorrect<T(!new)>(le: (T, T) -> bool, s: seq<T>)
    requires TotalPreorder(le)
    ensures SortedBy(le, Sort(le, s))
    ensures multiset(Sort(le, s)) == multiset(s) && |Sort(le, s)| == |s|
    ensures SameTies(le, Sort(le, s), s)
  {
    if s == [] {
    } else {
      var p := s[..|s| - 1];
      assert s == p + [s[|s| - 1]];
      SortCorrect(le, p);
      InsertSorted(le, Sort(le, p), s[|s| - 1]);
      forall y ensures Ties(le, Sort(le, s), y) == Ties(le, s, y) {
        InsertTies(le, Sort(le, p), s[|s| - 1], y);
      }
      assert |multiset(Sort(le, s))| == |multiset(s)|;
    }
  }

  lemma {:induction false} TiesMember<T(!new)>(le: (T, T) -> bool, s: seq<T>, x: T)
    requires TotalPreorder(le)
    ensures forall e :: e in Ties(le, s, x) <==> e in s && le(e, x) && le(x, e)
  {
    if s != [] {
      TiesMember(le, s[..|s| - 1], x);
      assert s == s[..|s| - 1] + [s[|s| - 1]];
    }
  }

  lemma EmptyIffNoTies<T(!new)>(le: (T, T) -> bool, s: seq<T>)
    requires TotalPreorder(le)
    ensures s == [] <==> forall y :: Ties(le, s, y) == []
  {
    if s != [] {
      TiesMember(le, s, s[0]);
      assert s[0] in Ties(le, s, s[0]);
    }
  }

  lemma CancelRight<T>(a: seq<T>, b: seq<T>, t: seq<T>)
    requires a + t == b + t
    ensures a == b
  {
    assert |a + t| == |b + t|;
    assert a == (a + t)[..|a|] && b == (b + t)[..|b|];
  }

  lemma LastByTies<T(!new)>(le: (T, T) -> bool, a: seq<T>, b: seq<T>)
    requires TotalPreorder(le) && SortedBy(le, a) && SortedBy(le, b) && SameTies(le, a, b)
    requires a != [] && b != []
    ensures a[|a| - 1] == b[|b| - 1]
  {
    var m, n := a[|a| - 1], b[|b| - 1];
    TiesMember(le, a, m);
    TiesMember(le, b, m);
    TiesMember(le, a, n);
    TiesMember(le, b, n);
    assert Ties(le, a, m) == Ties(le, b, m) && Ties(le, a, n) == Ties(le, b, n);
    assert m in Ties(le, a, m) && n in Ties(le, b, n);
    assert m in b && n in a;
    assert le(m, n) && le(n, m);
    assert Ties(le, a, m)[|Ties(le, a, m)| - 1] == m;
    assert Ties(le, b, m)[|Ties(le, b, m)| - 1] == n;
  }

  lemma DropLastTies<T(!new)>(le: (T, T) -> bool, a: seq<T>, b: seq<T>, y: T)
    requires a != [] && b != [] && a[|a| - 1] == b[|b| - 1] && Ties(le, a, y) == Ties(le, b, y)
    ensures Ties(le, a[..|a| - 1], y) == Ties(le, b[..|b| - 1], y)
  {
    var m := a[|a| - 1];
    CancelRight(Ties(le, a[..|a| - 1], y), Ties(le, b[..|b| - 1], y), if le(m, y) && le(y, m) then [m] else []);
  }

  /** A sorted sequence is determined by its ties: there is one stable order. */
  lemma {:induction false} StableOrderUnique<T(!new)>(le: (T, T) -> bool, a: seq<T>, b: seq<T>)
    requires TotalPreorder(le) && SortedBy(le, a) && SortedBy(le, b)
    requires SameTies(le, a, b)
    ensures a == b
    decreases |a|
  {
    EmptyIffNoTies(le, a);
    EmptyIffNoTies(le, b);
    if a != [] && b != [] {
      LastByTies(le, a, b);
      var a', b' := a[..|a| - 1], b[..|b| - 1];
      forall y ensures Ties(le, a', y) == Ties(le, b', y) {
        DropLastTies(le, a, b, y);
      }
      PrefixSorted(le, a, |a| - 1);
      PrefixSorted(le, b, |b| - 1);
      StableOrderUnique(le, a', b');
      assert a == a' + [a[|a| - 1]] && b == b' + [b[|b| - 1]];
    }
  }

  lemma {:induction false} SortOfSorted<T(!new)>(le: (T, T) -> bool, s: seq<T>)
    requires TotalPreorder(le) && SortedBy(le, s)
    ensures Sort(le, s) == s
  {
    if s != [] {
      SortOfSorted(le, s[..|s| - 1]);
      assert s == s[..|s| - 1] + [s[|s| - 1]];
    }
  }

  /** Under a total order the result depends only on which elements there are. */
  lemma {:induction false} SortDependsOnMultiset<T(!new)>(le: (T, T) -> bool, a: seq<T>, b: seq<T>)
    requires TotalPreorder(le) && Antisymmetric(le)
    ensures multiset(a) == multiset(b) <==> Sort(le, a) == Sort(le, b)
  {
    SortCorrect(le, a);
    SortCorrect(le, b);
    if multiset(a) == multiset(b) {
      SortedUnique(le, Sort(le, a), Sort(le, b));
    }
  }

  lemma LastIsGreatest<T(!new)>(le: (T, T) -> bool, s: seq<T>, x: T)
    requires TotalPreorder(le) && SortedBy(le, s) && x in multiset(s)
    ensures le(x, s[|s| - 1])
  {
    assert x in s;
  }

  lemma PrefixSorted<T>(le: (T, T) -> bool, s: seq<T>, k: nat)
    requires SortedBy(le, s) && k <= |s|
    ensures SortedBy(le, s[..k])
  {
  }

  lemma {:induction false} SortedUnique<T(!new)>(le: (T, T) -> bool, a: seq<T>, b: seq<T>)
    requires TotalPreorder(le) && Antisymmetric(le) && SortedBy(le, a) && SortedBy(le, b)
    requires multiset(a) == multiset(b)
    ensures a == b
    decreases |a|
  {
    assert |multiset(a)| == |multiset(b)|;
    if a != [] {
      var a', b', m, n := a[..|a| - 1], b[..|b| - 1], a[|a| - 1], b[|b| - 1];
      SameLast(le, a, b);
      DropLastMultiset(a, b);
      PrefixSorted(le, a, |a| - 1);
      PrefixSorted(le, b, |b| - 1);
      SortedUnique(le, a', b');
      assert a == a' + [m] && b == b' + [m];
    }
  }

  lemma DropLastMultiset<T>(a: seq<T>, b: seq<T>)
    requires a != [] && b != [] && a[|a| - 1] == b[|b| - 1] && multiset(a) == multiset(b)
    ensures multiset(a[..|a| - 1]) == multiset(b[..|b| - 1])
  {
    var m := a[|a| - 1];
    assert a == a[..|a| - 1] + [m] && b == b[..|b| - 1] + [m];
    assert multiset(a[..|a| - 1]) == multiset(a) - multiset{m};
    assert multiset(b[..|b| - 1]) == multiset(b) - multiset{m};
  }

  lemma SameLast<T(!new)>(le: (T, T) -> bool, a: seq<T>, b: seq<T>)
    requires TotalPreorder(le) && Antisymmetric(le) && SortedBy(le, a) && SortedBy(le, b)
    requires multiset(a) == multiset(b) && a != [] && b != []
    ensures a[|a| - 1] == b[|b| - 1]
  {
    var m, n := a[|a| - 1], b[|b| - 1];
    assert m in multiset(a) && n in multiset(b);
    LastIsGreatest(le, b, m);
    LastIsGreatest(le, a, n);
  }

  /** One pass of the inner loop undoes one unfolding of Insert. */
  lemma InsertStep<T>(le: (T, T) -> bool, s: seq<T>, j: nat, v: T, tail: seq<T>)
    requires j < |s| && !le(s[j], v)
    ensures Insert(le, s[..j + 1], v) + tail == Insert(le, s[..j], v) + ([s[j]] + tail)
  {
    assert s[..j + 1][..j] == s[..j];
  }

  /** Place a[i] into the sorted prefix a[..i] by shifting the larger elements right. */
  method InsertInPlace<T>(a: array<T>, i: nat, le: (T, T) -> bool)
    requires i < a.Length
    modifies a
    ensures a[..i + 1] == Insert(le, old(a[..i]), old(a[i]))
    ensures a[i + 1..] == old(a[i + 1..])
  {
    var v := a[i];
    var j := i - 1;
    ghost var p := a[..i];
    assert p[..j + 1] == p;
    while j >= 0 && !le(a[j], v)
      invariant -1 <= j < i
      invariant a[..j + 1] == p[..j + 1]
      invariant Insert(le, p, v) == Insert(le, p[..j + 1], v) + a[j + 2..i + 1]
      invariant a[i + 1..] == old(a[i + 1..])
    {
      assert a[j] == p[j];
      InsertStep(le, p, j, v, a[j + 2..i + 1]);
      ghost var tail := a[j + 2..i + 1];
      a[j + 1] := a[j];
      assert a[j + 1..i + 1] == [p[j]] + tail;
      assert a[..j] == p[..j];
      j := j - 1;
    }
    assert j >= 0 ==> a[j] == p[j];
    ghost var tail := a[j + 2..i + 1];
    a[j + 1] := v;
    assert a[..i + 1] == p[..j + 1] + [v] + tail;
  }

  /** The insertion sort of the engine's emit path, over any stable order. */
  method InsertionSort<T>(a: array<T>, le: (T, T) -> bool)
    modifies a
    ensures a[..] == Sort(le, old(a[..]))
  {
    ghost var was := a[..];
    for i := 0 to a.Length
      invariant a[..i] == Sort(le, was[..i]) && a[i..] == was[i..]
    {
      assert was[..i + 1][..i] == was[..i];
      assert a[i] == a[i..][0] == was[i];
      InsertInPlace(a, i, le);
      assert a[i + 1..] == was[i..][1..];
    }
    assert a[..a.Length] == a[..] && was[..a.Length] == was;
  }
}
