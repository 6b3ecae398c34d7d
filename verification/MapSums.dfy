/** Sums over the values of a finite map. */
module MapSums {

  ghost function Sum<K, V>(m: map<K, V>, w: V -> nat): nat {
    if m == map[] then 0
    else
      var k :| k in m;
      Sum(m - {k}, w) + w(m[k])
  }

  lemma {:induction false} SumRemove<K, V>(m: map<K, V>, k: K, w: V -> nat)
    requires k in m
    ensures Sum(m, w) == Sum(m - {k}, w) + w(m[k])
    decreases |m|
  {
    var c :| c in m && Sum(m, w) == Sum(m - {c}, w) + w(m[c]);
    if c != k {
      SumRemove(m - {c}, k, w);
      SumRemove(m - {k}, c, w);
      assert m - {c} - {k} == m - {k} - {c};
    }
  }

  /** Putting a value under a key, in place of the one that was there. */
  lemma SumPut<K, V>(m: map<K, V>, k: K, v: V, w: V -> nat)
    ensures Sum(m[k := v], w) + (if k in m then w(m[k]) else 0) == Sum(m, w) + w(v)
  {
    SumRemove(m[k := v], k, w);
    if k in m {
      SumRemove(m, k, w);
      assert m[k := v] - {k} == m - {k};
    } else {
      assert m[k := v] - {k} == m;
    }
  }

  lemma {:induction false} SumZero<K, V>(m: map<K, V>, w: V -> nat)
    ensures Sum(m, w) == 0 <==> forall k <- m :: w(m[k]) == 0
    decreases |m|
  {
    if m != map[] {
      var k :| k in m;
      SumRemove(m, k, w);
      SumZero(m - {k}, w);
      assert forall x <- m :: x == k || (x in m - {k} && (m - {k})[x] == m[x]);
    }
  }

  lemma SameEntries<K, V>(a: map<K, V>, b: map<K, V>)
    requires a.Keys == b.Keys && forall k <- a :: a[k] == b[k]
    ensures a == b
  {
  }
}
