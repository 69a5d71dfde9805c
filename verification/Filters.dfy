/** Sequences without some of their elements. */
module Filters {
  import opened Basics

  function Without<T>(s: seq<T>, k: nat): (r: seq<T>)
    requires k < |s|
    ensures |r| == |s| - 1
  {
    s[..k] + s[k + 1..]
  }

  lemma WithoutMembers<T>(s: seq<T>, k: nat)
    requires k < |s| && Distinct(s)
    ensures forall x :: x in Without(s, k) <==> x in s && x != s[k]
  {
    var r := Without(s, k);
    forall x | x in s && x != s[k] ensures x in r {
      var i :| 0 <= i < |s| && s[i] == x;
      assert r[if i < k then i else i - 1] == x;
    }
  }

  /** The elements that are not in the set, in their order. */
  function FilterOut<T(==)>(s: seq<T>, dead: set<T>): seq<T> {
    if s == [] then []
    else FilterOut(s[..|s| - 1], dead) + (if s[|s| - 1] in dead then [] else [s[|s| - 1]])
  }

  lemma {:induction false} FilterWithout<T>(s: seq<T>, k: nat, dead: set<T>)
    requires k < |s| && s[k] in dead
    ensures FilterOut(Without(s, k), dead) == FilterOut(s, dead)
  {
    var r, n := Without(s, k), |s| - 1;
    if k < n {
      assert r[..|r| - 1] == Without(s[..n], k);
      FilterWithout(s[..n], k, dead);
    } else {
      assert r == s[..n];
    }
  }

  lemma {:induction false} FilterNone<T>(s: seq<T>, dead: set<T>)
    requires forall i :: 0 <= i < |s| ==> s[i] !in dead
    ensures FilterOut(s, dead) == s
  {
    if s != [] {
      FilterNone(s[..|s| - 1], dead);
    }
  }

  /** Filtering keeps only elements that are not dead ... */
  lemma {:induction false} FilterSound<T>(s: seq<T>, dead: set<T>, i: nat)
    requires i < |FilterOut(s, dead)|
    ensures FilterOut(s, dead)[i] in s && FilterOut(s, dead)[i] !in dead
  {
    if i < |FilterOut(s[..|s| - 1], dead)| { FilterSound(s[..|s| - 1], dead, i); }
  }

  /** ... all of them ... */
  lemma {:induction false} FilterComplete<T>(s: seq<T>, dead: set<T>, x: T)
    requires x in s && x !in dead
    ensures x in FilterOut(s, dead)
  {
    var n := |s| - 1;
    if x in s[..n] { FilterComplete(s[..n], dead, x); }
  }

  /** ... each once. */
  lemma {:induction false} FilterDistinct<T>(s: seq<T>, dead: set<T>)
    requires Distinct(s)
    ensures Distinct(FilterOut(s, dead))
  {
    if s != [] {
      var n := |s| - 1;
      FilterDistinct(s[..n], dead);
      forall i | 0 <= i < |FilterOut(s[..n], dead)| ensures FilterOut(s[..n], dead)[i] != s[n] {
        FilterSound(s[..n], dead, i);
      }
    }
  }

  /** Filtering keeps the order: two of its elements come from two places in the same order. */
  lemma {:induction false} FilterOrder<T>(s: seq<T>, dead: set<T>, i: nat, j: nat) returns (a: nat, b: nat)
    requires i < j < |FilterOut(s, dead)|
    ensures a < b < |s| && s[a] == FilterOut(s, dead)[i] && s[b] == FilterOut(s, dead)[j]
  {
    var n := |s| - 1;
    var front := FilterOut(s[..n], dead);
    if j < |front| {
      a, b := FilterOrder(s[..n], dead, i, j);
    } else {
      FilterSound(s[..n], dead, i);
      a :| 0 <= a < n && s[..n][a] == front[i];
      b := n;
    }
  }
}
