/** Sums over the values of finite maps, and how they react to updates. */
module MapSums {

  ghost function Sum<K(!new)>(m: map<K, int>): int
    decreases |m|
  {
    if m == map[] then 0
    else
      var k :| k in m;
      m[k] + Sum(m - {k})
  }

  function Get<K(!new, ==)>(m: map<K, int>, k: K): int {
    if k in m then m[k] else 0
  }

  /** Any key may be taken out first. */
  lemma {:induction false} SumRemove<K(!new)>(m: map<K, int>, k: K)
    requires k in m
    ensures Sum(m) == m[k] + Sum(m - {k})
    decreases |m|
  {
    var c :| c in m && Sum(m) == m[c] + Sum(m - {c});
    if c != k {
      SumRemove(m - {c}, k);
      SumRemove(m - {k}, c);
      assert m - {c} - {k} == m - {k} - {c};
    }
  }

  lemma {:induction false} SumUpdate<K(!new)>(m: map<K, int>, k: K, v: int)
    ensures Sum(m[k := v]) == Sum(m) - Get(m, k) + v
  {
    SumRemove(m[k := v], k);
    assert m[k := v] - {k} == m - {k};
    if k in m {
      SumRemove(m, k);
    } else {
      assert m - {k} == m;
    }
  }

  lemma {:induction false} SumAdd<K(!new)>(m: map<K, int>, a: map<K, int>, b: map<K, int>)
    requires m.Keys == a.Keys == b.Keys
    requires forall k :: k in m ==> m[k] == a[k] + b[k]
    ensures Sum(m) == Sum(a) + Sum(b)
    decreases |m|
  {
    if m != map[] {
      var k :| k in m;
      SumRemove(m, k);
      SumRemove(a, k);
      SumRemove(b, k);
      SumAdd(m - {k}, a - {k}, b - {k});
    }
  }

  /** Multiplication under a name, so that proofs can treat it as a black box. */
  function Mul(x: int, y: int): int {
    x * y
  }

  lemma MulDistributes(c: int, x: int, y: int)
    ensures Mul(c, x + y) == Mul(c, x) + Mul(c, y)
  {}

  lemma {:induction false} SumScale<K(!new)>(m: map<K, int>, b: map<K, int>, c: int)
    requires m.Keys == b.Keys
    requires forall k :: k in m ==> m[k] == Mul(c, b[k])
    ensures Sum(m) == Mul(c, Sum(b))
    decreases |b|
  {
    if b != map[] {
      hide Mul, Sum;
      var k :| k in b;
      SumRemove(m, k);
      SumRemove(b, k);
      SumScale(m - {k}, b - {k}, c);
      MulDistributes(c, b[k], Sum(b - {k}));
    }
  }

  /** Summing is linear: a pointwise combination of two maps sums to the combination. */
  lemma SumLinear<K(!new)>(m: map<K, int>, a: map<K, int>, b: map<K, int>, c: int)
    requires m.Keys == a.Keys == b.Keys
    requires forall k :: k in m ==> m[k] == a[k] + Mul(c, b[k])
    ensures Sum(m) == Sum(a) + Mul(c, Sum(b))
  {
    hide Mul, Sum;
    var scaled := map k | k in b :: Mul(c, b[k]);
    SumScale(scaled, b, c);
    SumAdd(m, a, scaled);
  }

  lemma {:induction false} SumMonotone<K(!new)>(a: map<K, int>, b: map<K, int>)
    requires a.Keys == b.Keys
    requires forall k :: k in a ==> a[k] <= b[k]
    ensures Sum(a) <= Sum(b)
    decreases |a|
  {
    if a != map[] {
      var k :| k in a;
      SumRemove(a, k);
      SumRemove(b, k);
      SumMonotone(a - {k}, b - {k});
    }
  }

  /** A map of non-negative numbers sums to at least each of its entries. */
  lemma {:induction false} SumBoundsEntry<K(!new)>(m: map<K, int>, k: K)
    requires forall x :: x in m ==> 0 <= m[x]
    ensures Get(m, k) <= Sum(m) && 0 <= Sum(m)
    decreases |m|
  {
    if k in m {
      SumRemove(m, k);
      SumNonNegative(m - {k});
    } else {
      SumNonNegative(m);
    }
  }

  lemma {:induction false} SumNonNegative<K(!new)>(m: map<K, int>)
    requires forall x :: x in m ==> 0 <= m[x]
    ensures 0 <= Sum(m)
    decreases |m|
  {
    if m != map[] {
      var k :| k in m;
      SumRemove(m, k);
      SumNonNegative(m - {k});
    }
  }
}
