// SQL aggregates over the rows of a keyed table: SUM, MAX and MIN over a finite map.
// A table has no row order, so each is defined by picking keys in an arbitrary order and
// is then shown not to depend on that order.
module Sums {
  ghost function Pick<K>(m: map<K, real>): (k: K)
    requires m != map[]
    ensures k in m
  {
    var k :| k in m; k
  }

  ghost function Sum<K>(m: map<K, real>): real {
    if m == map[] then 0.0 else var k := Pick(m); m[k] + Sum(m - {k})
  }

  // Any row may be taken out first.
  lemma {:induction false} SumRemove<K>(m: map<K, real>, k: K)
    requires k in m
    ensures Sum(m) == m[k] + Sum(m - {k})
    decreases |m|
  {
    var j := Pick(m);
    if j != k {
      assert (m - {j}).Keys == m.Keys - {j} && (m - {k}).Keys == m.Keys - {k};
      SumRemove(m - {j}, k);
      SumRemove(m - {k}, j);
      assert m - {j} - {k} == m - {k} - {j};
    }
  }

  lemma SumPut<K>(m: map<K, real>, k: K, v: real)
    ensures Sum(m[k := v]) == Sum(m) + v - (if k in m then m[k] else 0.0)
  {
    SumRemove(m[k := v], k);
    assert m[k := v] - {k} == m - {k};
    if k in m {
      SumRemove(m, k);
    } else {
      assert m - {k} == m;
    }
  }

  lemma SumOne<K>(k: K, v: real)
    ensures Sum(map[k := v]) == v
  {
    SumRemove(map[k := v], k);
    assert map[k := v] - {k} == map[];
  }

  lemma UnionStep<K>(a: map<K, real>, b: map<K, real>, k: K)
    requires k in b && a.Keys !! b.Keys
    ensures (b - {k}).Keys == b.Keys - {k} && k !in a + (b - {k})
    ensures a + b == (a + (b - {k}))[k := b[k]]
  {
  }

  lemma {:induction false} SumUnion<K>(a: map<K, real>, b: map<K, real>)
    requires a.Keys !! b.Keys
    ensures Sum(a + b) == Sum(a) + Sum(b)
    decreases b.Keys
  {
    if b == map[] {
      assert a + b == a;
    } else {
      var k := Pick(b);
      UnionStep(a, b, k);
      SumUnion(a, b - {k});
      SumPut(a + (b - {k}), k, b[k]);
    }
  }

  lemma {:induction false} SumNonNegative<K>(m: map<K, real>)
    requires forall k :: k in m ==> m[k] >= 0.0
    ensures Sum(m) >= 0.0
    ensures Sum(m) == 0.0 <==> forall k :: k in m ==> m[k] == 0.0
    decreases |m|
  {
    if m != map[] {
      var k := Pick(m);
      assert (m - {k}).Keys == m.Keys - {k};
      SumNonNegative(m - {k});
      assert forall j :: j in m ==> j == k || (j in m - {k} && (m - {k})[j] == m[j]);
    }
  }

  // Rows of value zero add nothing.
  lemma SumZeros<K>(some: map<K, real>, all: map<K, real>)
    requires some.Keys <= all.Keys
    requires forall k :: k in all ==> all[k] == (if k in some then some[k] else 0.0)
    ensures Sum(some) == Sum(all)
  {
    hide Sum;
    var zeros := all - some.Keys;
    assert all == some + zeros;
    SumUnion(some, zeros);
    SumNonNegative(zeros);
  }

  lemma {:induction false} SumMonotone<K>(a: map<K, real>, b: map<K, real>)
    requires a.Keys == b.Keys && forall k :: k in a ==> a[k] <= b[k]
    ensures Sum(a) <= Sum(b)
    ensures Sum(a) == Sum(b) <==> forall k :: k in a ==> a[k] == b[k]
    decreases |a|
  {
    if a == map[] {
      assert b == map[];
    } else {
      var k := Pick(a);
      assert (a - {k}).Keys == a.Keys - {k} && (b - {k}).Keys == b.Keys - {k};
      SumMonotone(a - {k}, b - {k});
      SumRemove(a, k);
      SumRemove(b, k);
      assert forall j :: j in a ==> j == k || (j in a - {k} && (a - {k})[j] == a[j] && (b - {k})[j] == b[j]);
    }
  }

  ghost predicate IsMaxOf<K>(v: real, m: map<K, real>) {
    (exists k :: k in m && m[k] == v) && forall k :: k in m ==> m[k] <= v
  }

  ghost predicate IsMinOf<K>(v: real, m: map<K, real>) {
    (exists k :: k in m && m[k] == v) && forall k :: k in m ==> v <= m[k]
  }

  ghost function MaxOf<K>(m: map<K, real>): (v: real)
    requires m != map[]
    ensures IsMaxOf(v, m)
    decreases |m|
  {
    var k := Pick(m);
    assert (m - {k}).Keys == m.Keys - {k};
    assert forall j :: j in m ==> j == k || (j in m - {k} && (m - {k})[j] == m[j]);
    if m - {k} == map[] then m[k]
    else
      var rest := MaxOf(m - {k});
      if m[k] < rest then rest else m[k]
  }

  ghost function MinOf<K>(m: map<K, real>): (v: real)
    requires m != map[]
    ensures IsMinOf(v, m)
    decreases |m|
  {
    var k := Pick(m);
    assert (m - {k}).Keys == m.Keys - {k};
    assert forall j :: j in m ==> j == k || (j in m - {k} && (m - {k})[j] == m[j]);
    if m - {k} == map[] then m[k]
    else
      var rest := MinOf(m - {k});
      if rest < m[k] then rest else m[k]
  }
}
