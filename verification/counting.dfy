/** How many numbers there are below a bound, and how many of them a list can name. */
module Counting {

  ghost function Below(n: nat): (r: set<int>)
    ensures |r| == n && forall i :: i in r <==> 0 <= i < n
  {
    if n == 0 then {} else Below(n - 1) + {n - 1}
  }

  lemma SubsetSize<T>(a: set<T>, b: set<T>)
    requires a <= b
    ensures |a| <= |b|
  {
    if a != {} {
      var x :| x in a;
      SubsetSize(a - {x}, b - {x});
    }
  }

  ghost predicate Distinct(xs: seq<nat>) { forall i, j | 0 <= i < j < |xs| :: xs[i] != xs[j] }

  lemma {:induction false} DistinctFits(xs: seq<nat>, bound: set<int>)
    requires Distinct(xs) && forall i | 0 <= i < |xs| :: xs[i] in bound
    ensures |xs| <= |bound|
  {
    if xs != [] {
      var x := xs[|xs| - 1];
      DistinctFits(xs[..|xs| - 1], bound - {x});
    }
  }

  lemma {:induction false} MembersSize(xs: seq<nat>)
    requires Distinct(xs)
    ensures |set x: int | x in xs| == |xs|
  {
    var all := set x: int | x in xs;
    if xs == [] {
      assert all == {};
    } else {
      var p, l := xs[..|xs| - 1], xs[|xs| - 1];
      MembersSize(p);
      assert xs == p + [l];
      assert all == (set x: int | x in p) + {l};
      assert l !in p;
    }
  }

  /** A list of distinct numbers and the numbers it leaves out make up the whole range. */
  lemma NamedAndLeftOut(xs: seq<nat>, n: nat)
    requires Distinct(xs) && forall i | 0 <= i < |xs| :: xs[i] < n
    ensures n == |xs| + |set i | i in Below(n) && i !in xs|
  {
    var named, left := set x: int | x in xs, set i | i in Below(n) && i !in xs;
    assert Below(n) == named + left && named !! left;
    MembersSize(xs);
  }
}
