/** Finite sums whose value does not depend on the order in which a map is walked. */
module Sums {

  ghost function Pick<K(!new), V>(m: map<K, V>): (k: K)
    requires m != map[]
    ensures k in m
  {
    assert m.Keys != {};
    var k :| k in m; k
  }

  lemma SmallerWithout<K(!new), V>(m: map<K, V>, k: K)
    requires k in m
    ensures |m - {k}| < |m|
  {
    assert m.Keys == (m - {k}).Keys + {k};
  }

  ghost function SumBy<K(!new), V>(m: map<K, V>, f: V -> real): real
    decreases |m|
  {
    if m == map[] then 0.0
    else
      var k := Pick(m);
      SmallerWithout(m, k);
      f(m[k]) + SumBy(m - {k}, f)
  }

  /** Any key may be taken out first. */
  lemma {:induction false} SumByRemove<K(!new), V>(m: map<K, V>, f: V -> real, k: K)
    requires k in m
    ensures SumBy(m, f) == f(m[k]) + SumBy(m - {k}, f)
    decreases |m|
  {
    var p := Pick(m);
    if k != p {
      SmallerWithout(m, k);
      SmallerWithout(m, p);
      SumByRemove(m - {p}, f, k);
      SumByRemove(m - {k}, f, p);
      assert m - {p} - {k} == m - {k} - {p};
    }
  }

  lemma SumByInsert<K(!new), V>(m: map<K, V>, f: V -> real, k: K, v: V)
    requires k !in m
    ensures SumBy(m[k := v], f) == SumBy(m, f) + f(v)
  {
    SumByRemove(m[k := v], f, k);
    assert m[k := v] - {k} == m;
  }

  ghost function MapSum<K(!new)>(m: map<K, real>): real { SumBy(m, v => v) }

  lemma MapSumInsert<K(!new)>(m: map<K, real>, k: K, v: real)
    requires k !in m
    ensures MapSum(m[k := v]) == MapSum(m) + v
  {
    SumByInsert(m, v => v, k, v);
  }

  lemma MapSumUpdate<K(!new)>(m: map<K, real>, k: K, v: real)
    requires k in m
    ensures MapSum(m[k := v]) == MapSum(m) - m[k] + v
  {
    SumByRemove(m[k := v], v => v, k);
    SumByRemove(m, v => v, k);
    assert m[k := v] - {k} == m - {k};
  }

  lemma {:induction false} MapSumMono<K(!new)>(a: map<K, real>, b: map<K, real>)
    requires a.Keys <= b.Keys
    requires forall k | k in a :: a[k] <= b[k]
    requires forall k | k in b && k !in a :: 0.0 <= b[k]
    ensures MapSum(a) <= MapSum(b)
    decreases |b|
  {
    if b == map[] {
      assert a == map[];
    } else {
      var k := Pick(b);
      SmallerWithout(b, k);
      MapSumMono(a - {k}, b - {k});
      SumByRemove(b, v => v, k);
      if k in a {
        SumByRemove(a, v => v, k);
      } else {
        assert a - {k} == a;
      }
    }
  }
}
