/** Sums over the entries of a map, and sizes of sets. */
module Sums {

  ghost function SumBy<K, V>(m: map<K, V>, f: (K, V) -> int): int {
    if m == map[] then 0
    else
      var k :| k in m;
      f(k, m[k]) + SumBy(m - {k}, f)
  }

  /** Any one entry can be split off the sum. */
  lemma {:induction false} SumSplit<K, V>(m: map<K, V>, f: (K, V) -> int, k: K)
    requires k in m
    ensures SumBy(m, f) == f(k, m[k]) + SumBy(m - {k}, f)
    decreases |m|
  {
    var x :| x in m && SumBy(m, f) == f(x, m[x]) + SumBy(m - {x}, f);
    if x != k {
      assert |m - {x}| < |m| && |m - {k}| < |m| by {
        assert (m - {x}).Keys == m.Keys - {x} && (m - {k}).Keys == m.Keys - {k};
      }
      SumSplit(m - {x}, f, k);
      SumSplit(m - {k}, f, x);
      assert m - {x} - {k} == m - {k} - {x};
    }
  }

  lemma SumPut<K, V>(m: map<K, V>, f: (K, V) -> int, k: K, v: V)
    ensures SumBy(m[k := v], f) == SumBy(m, f) + f(k, v) - if k in m then f(k, m[k]) else 0
  {
    SumSplit(m[k := v], f, k);
    assert m[k := v] - {k} == m - {k};
    if k in m {
      SumSplit(m, f, k);
    } else {
      assert m - {k} == m;
    }
  }

  lemma SumDrop<K, V>(m: map<K, V>, f: (K, V) -> int, k: K)
    requires k in m
    ensures SumBy(m - {k}, f) == SumBy(m, f) - f(k, m[k])
  {
    SumSplit(m, f, k);
  }

  /** A sum of non-negative terms is at least each of its terms. */
  lemma {:induction false} SumNonNegative<K, V>(m: map<K, V>, f: (K, V) -> int)
    requires forall k :: k in m ==> f(k, m[k]) >= 0
    ensures SumBy(m, f) >= 0
    ensures forall k :: k in m ==> f(k, m[k]) <= SumBy(m, f)
    decreases |m|
  {
    forall x | x in m ensures SumBy(m, f) >= f(x, m[x]) >= 0 {
      SumSplit(m, f, x);
      assert (m - {x}).Keys == m.Keys - {x};
      assert |m - {x}| < |m|;
      SumNonNegative(m - {x}, f);
    }
    if m != map[] {
      var x :| x in m;
      assert SumBy(m, f) >= f(x, m[x]) >= 0;
    }
  }

  lemma {:induction false} SumZero<K, V>(m: map<K, V>, f: (K, V) -> int)
    requires forall k :: k in m ==> f(k, m[k]) == 0
    ensures SumBy(m, f) == 0
    decreases |m|
  {
    if m != map[] {
      var x :| x in m;
      SumSplit(m, f, x);
      assert (m - {x}).Keys == m.Keys - {x};
      assert |m - {x}| < |m|;
      SumZero(m - {x}, f);
    }
  }

  lemma {:induction false} SubsetSize<K>(a: set<K>, b: set<K>)
    requires a <= b
    ensures |a| <= |b|
  {
    if a != {} {
      var x :| x in a;
      SubsetSize(a - {x}, b - {x});
    }
  }
}
