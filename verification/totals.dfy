/** Sums of integer-valued maps, used wherever the program adds over a whole table. */
module Totals {

  /** The sum of all values of `m`. */
  ghost function Total<K>(m: map<K, int>): int
    decreases |m|
  {
    if m == map[] then 0
    else
      var k :| k in m;
      m[k] + Total(m - {k})
  }

  /** Any key may be taken out first. */
  lemma {:induction false} TotalRemove<K>(m: map<K, int>, k: K)
    requires k in m
    ensures Total(m) == m[k] + Total(m - {k})
    decreases |m|
  {
    var p :| p in m && Total(m) == m[p] + Total(m - {p});
    if p != k {
      TotalRemove(m - {p}, k);
      TotalRemove(m - {k}, p);
      assert m - {p} - {k} == m - {k} - {p};
    }
  }

  /** Writing one entry changes the sum by exactly the change of that entry. */
  lemma {:induction false} TotalUpdate<K>(m: map<K, int>, k: K, v: int)
    ensures Total(m[k := v]) == Total(m) - (if k in m then m[k] else 0) + v
  {
    TotalRemove(m[k := v], k);
    assert m[k := v] - {k} == m - {k};
    if k in m {
      TotalRemove(m, k);
    } else {
      assert m - {k} == m;
    }
  }

  /** A map of zeros sums to zero. */
  lemma {:induction false} TotalZero<K>(m: map<K, int>)
    requires forall k :: k in m ==> m[k] == 0
    ensures Total(m) == 0
    decreases |m|
  {
    if m != map[] {
      var k :| k in m && Total(m) == m[k] + Total(m - {k});
      TotalZero(m - {k});
    }
  }

  /** Entries that are zero do not count: two maps that agree up to zeros have one sum. */
  lemma {:induction false} TotalSame<K>(m: map<K, int>, n: map<K, int>)
    requires forall k :: k in m && k in n ==> m[k] == n[k]
    requires forall k :: k in m && k !in n ==> m[k] == 0
    requires forall k :: k in n && k !in m ==> n[k] == 0
    ensures Total(m) == Total(n)
    decreases |m|
  {
    if m == map[] {
      TotalZero(n);
    } else {
      var k :| k in m;
      TotalRemove(m, k);
      if k in n {
        TotalRemove(n, k);
        TotalSame(m - {k}, n - {k});
      } else {
        TotalSame(m - {k}, n);
      }
    }
  }

  /** A map whose only non-zero entry is at `k` sums to that entry. */
  lemma TotalSingle<K>(m: map<K, int>, k: K)
    requires forall j :: j in m && j != k ==> m[j] == 0
    ensures Total(m) == if k in m then m[k] else 0
  {
    if k in m {
      TotalRemove(m, k);
      TotalZero(m - {k});
    } else {
      TotalZero(m);
    }
  }
}
