/** Finite sums over maps with natural-number values: the total supply of a
    balance ledger, the collateral a registry holds, the amounts a pool has
    paid out.  A key that is absent from a map reads as 0, exactly as an
    unset Solidity mapping entry does. */
module Sums {

  /** The value stored under `k`, or 0 when `k` was never written. */
  function Get<K>(m: map<K, nat>, k: K): nat {
    if k in m then m[k] else 0
  }

  /** The sum of all values of `m`. */
  ghost function Sum<K>(m: map<K, nat>): nat
    decreases m.Keys
  {
    if m.Keys == {} then 0
    else
      var k :| k in m.Keys;
      m[k] + Sum(m - {k})
  }

  /** Any entry can be split off a sum, whichever key `Sum` happens to pick. */
  lemma {:induction false} SumRemove<K>(m: map<K, nat>, k: K)
    requires k in m
    ensures Sum(m) == m[k] + Sum(m - {k})
    decreases m.Keys
  {
    var j :| j in m.Keys && Sum(m) == m[j] + Sum(m - {j});
    if j != k {
      SumRemove(m - {j}, k);
      SumRemove(m - {k}, j);
      assert (m - {j}) - {k} == (m - {k}) - {j};
    }
  }

  /** Overwriting one entry changes the sum by exactly the difference. */
  lemma SumUpdate<K>(m: map<K, nat>, k: K, v: nat)
    ensures Sum(m[k := v]) + Get(m, k) == Sum(m) + v
  {
    var m' := m[k := v];
    SumRemove(m', k);
    assert m' - {k} == m - {k};
    if k in m {
      SumRemove(m, k);
    } else {
      assert m - {k} == m;
    }
  }

  /** No single entry exceeds the sum. */
  lemma EntryBelowSum<K>(m: map<K, nat>, k: K)
    ensures Get(m, k) <= Sum(m)
  {
  }
}
