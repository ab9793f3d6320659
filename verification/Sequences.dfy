/** Lists without repetition, and the union that keeps first occurrences in order. */
module Sequences {
  predicate Distinct<T(==)>(s: seq<T>) {
    forall i, j :: 0 <= i < |s| && i < j < |s| ==> s[i] != s[j]
  }

  /** `first`, then every new item of `second` at its first occurrence. */
  function Union<T(==)>(first: seq<T>, second: seq<T>): seq<T> {
    if second == [] then first else
      var n := |second| - 1;
      var u := Union(first, second[..n]);
      if second[n] in u then u else u + [second[n]]
  }

  function Dedupe<T(==)>(s: seq<T>): seq<T> {
    Union([], s)
  }

  lemma {:induction false} UnionProperties<T>(first: seq<T>, second: seq<T>)
    ensures first <= Union(first, second)
    ensures forall x :: x in Union(first, second) <==> x in first || x in second
    ensures Distinct(first) ==> Distinct(Union(first, second))
  {
    if second != [] {
      var n := |second| - 1;
      UnionProperties(first, second[..n]);
      assert second == second[..n] + [second[n]];
    }
  }

  /** The first of two items is met before the second is. */
  predicate MetBefore<T(==)>(s: seq<T>, x: T, y: T) {
    exists p :: 0 <= p < |s| && s[p] == x && y !in s[..p + 1]
  }

  /** The new items of a union come in the order in which they are first met. */
  lemma {:induction false} UnionOrder<T>(first: seq<T>, second: seq<T>)
    ensures var u := Union(first, second); forall i, j :: |first| <= i < |u| && i < j < |u| ==> MetBefore(second, u[i], u[j])
  {
    if second != [] {
      var n := |second| - 1;
      var u, v := Union(first, second[..n]), Union(first, second);
      UnionOrder(first, second[..n]);
      UnionProperties(first, second[..n]);
      forall i, j | |first| <= i < |v| && i < j < |v| ensures MetBefore(second, v[i], v[j]) {
        if j < |u| {
          assert MetBefore(second[..n], u[i], u[j]);
          var p :| 0 <= p < n && second[..n][p] == u[i] && u[j] !in second[..n][..p + 1];
          assert second[..n][..p + 1] == second[..p + 1];
        } else {
          NewIsMet(first, second[..n], i);
          var p :| 0 <= p < n && second[..n][p] == u[i];
          assert forall q :: 0 <= q <= p ==> second[q] in second[..n];
        }
      }
    }
  }

  lemma {:induction false} NewIsMet<T>(first: seq<T>, second: seq<T>, i: nat)
    requires |first| <= i < |Union(first, second)|
    ensures Union(first, second)[i] in second
  {
    var n := |second| - 1;
    if i < |Union(first, second[..n])| {
      NewIsMet(first, second[..n], i);
    }
  }

  lemma {:induction false} DistinctSize<T>(s: seq<T>, all: set<T>)
    requires Distinct(s) && forall x :: x in s <==> x in all
    ensures |s| == |all|
    decreases |s|
  {
    if s == [] {
      assert all == {};
    } else {
      var n := |s| - 1;
      forall x ensures x in s[..n] <==> x in all - {s[n]} {
        assert x in s <==> x in s[..n] || x == s[n];
      }
      DistinctSize(s[..n], all - {s[n]});
    }
  }

  /** The lists that `f` gives for the items, one after the other. */
  function Flat<T, U>(s: seq<T>, f: T -> seq<U>): seq<U> {
    if s == [] then [] else Flat(s[..|s|-1], f) + f(s[|s|-1])
  }

  lemma {:induction false} FlatAppend<T, U>(a: seq<T>, b: seq<T>, f: T -> seq<U>)
    ensures Flat(a + b, f) == Flat(a, f) + Flat(b, f)
  {
    if b == [] {
      assert a + b == a;
    } else {
      assert (a + b)[..|a + b|-1] == a + b[..|b|-1];
      FlatAppend(a, b[..|b|-1], f);
    }
  }

  lemma {:induction false} FlatSmall<T, U>(s: seq<T>, f: T -> seq<U>)
    ensures |s| == 1 ==> Flat(s, f) == f(s[0])
    ensures |s| == 2 ==> Flat(s, f) == f(s[0]) + f(s[1])
  {
    if |s| == 1 {
      assert s[..0] == [];
    } else if |s| == 2 {
      FlatSmall(s[..1], f);
    }
  }

  lemma {:induction false} FlatNothing<T, U>(s: seq<T>, f: T -> seq<U>)
    requires forall x <- s :: f(x) == []
    ensures Flat(s, f) == []
  {
    if s != [] {
      FlatNothing(s[..|s|-1], f);
    }
  }

  lemma Regroup<T>(a: seq<T>, b: seq<T>, c: seq<T>)
    ensures (a + b) + c == a + (b + c)
  {
  }

  lemma PrefixSnoc<T>(s: seq<T>, n: nat)
    requires n < |s|
    ensures s[..n + 1] == s[..n] + [s[n]]
  {
  }

  lemma SubsetSize<T>(a: set<T>, b: set<T>)
    requires a <= b
    ensures |a| <= |b|
  {
    assert b == a + (b - a);
  }
}
