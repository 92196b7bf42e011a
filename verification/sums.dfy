/**
 * Sums over the entries of a map, in no particular order. The storefront sums
 * with `for ... in` loops whose visiting order is irrelevant to the result;
 * `SumBy` is the order-free reference those loops are proved against.
 */
module Sums {

  /** Some key of a non-empty map: the one `SumBy` takes out first. */
  ghost function Pick<V>(m: map<string, V>): (k: string)
    requires |m| != 0
    ensures k in m
  {
    var k :| k in m; k
  }

  /** The sum of `f(k, m[k])` over every key `k` of `m`. */
  ghost function SumBy<V>(m: map<string, V>, f: (string, V) -> int): int
    decreases |m|
  {
    if |m| == 0 then 0
    else
      var k := Pick(m);
      f(k, m[k]) + SumBy(m - {k}, f)
  }

  /** Any key can be taken out first: the sum does not depend on the visiting order. */
  lemma {:induction false} SumByRemove<V>(m: map<string, V>, f: (string, V) -> int, k: string)
    requires k in m
    ensures SumBy(m, f) == f(k, m[k]) + SumBy(m - {k}, f)
    decreases |m|
  {
    var j := Pick(m);
    if j != k {
      var mj, mk := m - {j}, m - {k};
      RemoveSize(m, j);
      RemoveSize(m, k);
      SumByRemove(mj, f, k);
      SumByRemove(mk, f, j);
      assert mj - {k} == mk - {j};
    }
  }

  lemma RemoveSize<V>(m: map<string, V>, k: string)
    requires k in m
    ensures |m - {k}| == |m| - 1
  {
  }

  /** Overwriting or adding one entry changes the sum by that entry's term only. */
  lemma SumByUpdate<V>(m: map<string, V>, f: (string, V) -> int, k: string, v: V)
    ensures SumBy(m[k := v], f) == SumBy(m, f) - (if k in m then f(k, m[k]) else 0) + f(k, v)
  {
    SumByRemove(m[k := v], f, k);
    assert m[k := v] - {k} == m - {k};
    if k in m {
      SumByRemove(m, f, k);
    } else {
      assert m - {k} == m;
    }
  }

  /** Two term functions that agree on the entries of `m` give the same sum. */
  lemma {:induction false} SumByCongruent<V>(m: map<string, V>, f: (string, V) -> int, g: (string, V) -> int)
    requires forall k :: k in m ==> f(k, m[k]) == g(k, m[k])
    ensures SumBy(m, f) == SumBy(m, g)
    decreases |m|
  {
    if |m| != 0 {
      var k :| k in m;
      SumByRemove(m, f, k);
      SumByRemove(m, g, k);
      SumByCongruent(m - {k}, f, g);
    }
  }

  /** A sum of non-negative terms is non-negative. */
  lemma {:induction false} SumByNonNegative<V>(m: map<string, V>, f: (string, V) -> int)
    requires forall k :: k in m ==> f(k, m[k]) >= 0
    ensures SumBy(m, f) >= 0
    decreases |m|
  {
    if |m| != 0 {
      var k :| k in m;
      SumByRemove(m, f, k);
      SumByNonNegative(m - {k}, f);
    }
  }

  /** A constant factor common to every term comes out of the sum. */
  lemma {:induction false} SumByScale<V>(m: map<string, V>, f: (string, V) -> int, g: (string, V) -> int, c: int)
    requires forall k :: k in m ==> f(k, m[k]) == c * g(k, m[k])
    ensures SumBy(m, f) == c * SumBy(m, g)
    decreases |m|
  {
    if |m| != 0 {
      var k :| k in m;
      SumByRemove(m, f, k);
      SumByRemove(m, g, k);
      SumByScale(m - {k}, f, g, c);
      Distribute(c, g(k, m[k]), SumBy(m - {k}, g));
    }
  }

  lemma Distribute(c: int, a: int, b: int)
    ensures c * (a + b) == c * a + c * b
  {
  }
}
