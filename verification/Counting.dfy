/** Cardinality facts the array-indexing models share. */
module Counting {

  ghost function Below(n: nat): (s: set<nat>)
    ensures |s| == n
    ensures forall i: nat :: i in s <==> i < n
  {
    if n == 0 then {} else Below(n - 1) + {n - 1}
  }

  lemma {:induction false} SubsetSize<T>(a: set<T>, b: set<T>)
    requires a <= b
    ensures |a| <= |b|
  {
    if a != {} {
      var x :| x in a;
      SubsetSize(a - {x}, b - {x});
    }
  }

  ghost function Elements(s: seq<nat>): (r: set<nat>)
    ensures forall x :: x in r <==> x in s
  {
    if s == [] then {} else Elements(s[..|s| - 1]) + {s[|s| - 1]}
  }

  ghost predicate Distinct(s: seq<nat>) {
    forall i, j :: 0 <= i < j < |s| ==> s[i] != s[j]
  }

  lemma {:induction false} ElementsSize(s: seq<nat>)
    requires Distinct(s)
    ensures |Elements(s)| == |s|
  {
    if s != [] {
      ElementsSize(s[..|s| - 1]);
    }
  }

  /** Pigeonhole: distinct numbers below `n` are at most `n`. */
  lemma DistinctBound(s: seq<nat>, n: nat)
    requires Distinct(s)
    requires forall i :: 0 <= i < |s| ==> s[i] < n
    ensures |s| <= n
  {
    ElementsSize(s);
    SubsetSize(Elements(s), Below(n));
  }

  /** Pigeonhole: fewer than `n` numbers leave one below `n` out. */
  lemma SomeMissing(s: seq<nat>, n: nat) returns (x: nat)
    requires |s| < n
    ensures x < n && x !in s
  {
    ElementsAtMost(s);
    if forall i: nat :: i < n ==> i in s {
      assert Below(n) <= Elements(s);
      SubsetSize(Below(n), Elements(s));
      assert false;
    }
    x :| x < n && x !in s;
  }

  /** A sequence holding every number below `n` has at least `n` of them. */
  lemma CoverBound(s: seq<nat>, n: nat)
    requires forall x: nat :: x < n ==> x in s
    ensures n <= |s|
  {
    ElementsAtMost(s);
    SubsetSize(Below(n), Elements(s));
  }

  lemma {:induction false} ElementsAtMost(s: seq<nat>)
    ensures |Elements(s)| <= |s|
  {
    if s != [] {
      ElementsAtMost(s[..|s| - 1]);
    }
  }
}
