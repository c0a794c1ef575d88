/** Sums over the values of a finite map: the arithmetic behind every accounting invariant. */
module Totals {

  /** Any key of a non-empty map, always the same one for the same map. */
  ghost function Pick<K>(m: map<K, nat>): (k: K)
    requires m != map[]
    ensures k in m
  {
    var k :| k in m; k
  }

  ghost function Total<K>(m: map<K, nat>): nat
    decreases |m|
  {
    if m == map[] then 0 else var k := Pick(m); m[k] + Total(m - {k})
  }

  /** Any key can be taken out first, not only the one Total picks. */
  lemma {:induction false} TotalRemove<K>(m: map<K, nat>, k: K)
    requires k in m
    ensures Total(m) == m[k] + Total(m - {k})
    decreases |m|
  {
    var p := Pick(m);
    if p != k {
      TotalRemove(m - {p}, k);
      TotalRemove(m - {k}, p);
      assert m - {p} - {k} == m - {k} - {p};
    }
  }

  function ValueOr0<K>(m: map<K, nat>, k: K): nat {
    if k in m then m[k] else 0
  }

  /** Writing one key moves the sum by the difference at that key. */
  lemma TotalUpdate<K>(m: map<K, nat>, k: K, v: nat)
    ensures Total(m[k := v]) == Total(m) - ValueOr0(m, k) + v
  {
    TotalRemove(m[k := v], k);
    if k in m {
      TotalRemove(m, k);
      assert m[k := v] - {k} == m - {k};
    } else {
      assert m[k := v] - {k} == m;
    }
  }

  lemma TotalAtLeast<K>(m: map<K, nat>, k: K)
    ensures ValueOr0(m, k) <= Total(m)
  {
    if k in m {
      TotalRemove(m, k);
    }
  }

  /** Two different keys both fit under the sum. */
  lemma TotalAtLeastTwo<K>(m: map<K, nat>, k: K, l: K)
    requires k in m && l in m && k != l
    ensures m[k] + m[l] <= Total(m)
  {
    TotalRemove(m, k);
    TotalAtLeast(m - {k}, l);
  }

  lemma {:induction false} TotalZero<K>(m: map<K, nat>)
    requires forall k :: k in m ==> m[k] == 0
    ensures Total(m) == 0
    decreases |m|
  {
    if m != map[] {
      TotalZero(m - {Pick(m)});
    }
  }
}
