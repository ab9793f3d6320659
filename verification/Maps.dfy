/** Finite sums over maps: the arithmetic every budget account is made of. */
module Maps {
  /** A name to hide a definition behind: `forall n: nat :: Unfold(n) ==> P` is P, but the
      verifier looks inside only where a proof writes `assert Unfold(0)`. */
  ghost predicate Unfold(n: nat) {
    true
  }

  function Get<K>(m: map<K, nat>, k: K): nat {
    if k in m then m[k] else 0
  }

  ghost function Pick<K>(m: map<K, nat>): K
    requires m != map[]
  {
    var k :| k in m; k
  }

  /** The sum of all values, taken in an unspecified order. */
  ghost function Sum<K>(m: map<K, nat>): nat
    decreases |m|
  {
    if m == map[] then 0 else
      var k := Pick(m);
      m[k] + Sum(m - {k})
  }

  /** The order of summation does not matter: any key may be taken out first. */
  lemma {:induction false} SumRemove<K>(m: map<K, nat>, k: K)
    requires k in m
    ensures Sum(m) == m[k] + Sum(m - {k})
    decreases |m|
  {
    var p := Pick(m);
    if p != k {
      SumRemove(m - {p}, k);
      SumRemove(m - {k}, p);
      assert (m - {p}) - {k} == (m - {k}) - {p};
    }
  }

  lemma SumInsert<K>(m: map<K, nat>, k: K, v: nat)
    requires k !in m
    ensures Sum(m[k := v]) == Sum(m) + v
  {
    SumRemove(m[k := v], k);
    assert m[k := v] - {k} == m;
  }

  /** Replacing one value moves the sum by the difference. */
  lemma SumUpdate<K>(m: map<K, nat>, k: K, v: nat)
    ensures Sum(m[k := v]) + Get(m, k) == Sum(m) + v
  {
    if k in m {
      SumRemove(m, k);
      SumRemove(m[k := v], k);
      assert m[k := v] - {k} == m - {k};
    } else {
      SumInsert(m, k, v);
    }
  }

  ghost predicate Below<K>(a: map<K, nat>, b: map<K, nat>) {
    forall k :: k in a ==> k in b && a[k] <= b[k]
  }

  lemma {:induction false} SumMonotone<K>(a: map<K, nat>, b: map<K, nat>)
    requires Below(a, b)
    ensures Sum(a) <= Sum(b)
    decreases |a|
  {
    if a != map[] {
      var k := Pick(a);
      SumRemove(b, k);
      SumMonotone(a - {k}, b - {k});
    }
  }

  function Plus<K>(a: map<K, nat>, b: map<K, nat>): map<K, nat> {
    map k | k in a.Keys + b.Keys :: Get(a, k) + Get(b, k)
  }

  lemma PlusWithout<K>(a: map<K, nat>, b: map<K, nat>, k: K)
    ensures Plus(a, b) - {k} == Plus(a - {k}, b - {k})
  {
    var left, right := Plus(a, b) - {k}, Plus(a - {k}, b - {k});
    assert left.Keys == right.Keys;
    forall j | j in left ensures left[j] == right[j] {
    }
  }

  lemma SumWithout<K>(m: map<K, nat>, k: K)
    ensures Sum(m) == Get(m, k) + Sum(m - {k})
  {
    if k in m {
      SumRemove(m, k);
    } else {
      assert m - {k} == m;
    }
  }

  /** Pointwise addition adds the sums. */
  lemma {:induction false} SumPlus<K>(a: map<K, nat>, b: map<K, nat>)
    ensures Sum(Plus(a, b)) == Sum(a) + Sum(b)
    decreases |a|
  {
    if a == map[] {
      assert Plus(a, b) == b;
    } else {
      var k := Pick(a);
      SumWithout(a, k);
      SumWithout(b, k);
      SumWithout(Plus(a, b), k);
      SumPlus(a - {k}, b - {k});
      PlusWithout(a, b, k);
    }
  }

  /** A bound on every value bounds the sum from below by the number of keys. */
  lemma {:induction false} SumAtLeastCount<K>(m: map<K, nat>)
    requires forall k :: k in m ==> 0 < m[k]
    ensures |m| <= Sum(m)
    decreases |m|
  {
    if m != map[] {
      var k := Pick(m);
      SumAtLeastCount(m - {k});
      assert m.Keys == (m - {k}).Keys + {k};
    }
  }
}
