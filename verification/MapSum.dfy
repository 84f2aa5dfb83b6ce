/** Sums over the values of a finite map. */
module MapSum {
  ghost function Sum<K>(m: map<K, nat>): nat
    decreases |m|
  {
    if m == map[] then 0
    else
      var k :| k in m;
      m[k] + Sum(m - {k})
  }

  /** Any key may be taken out first. */
  lemma {:induction false} SumPick<K>(m: map<K, nat>, k: K)
    requires k in m
    ensures Sum(m) == m[k] + Sum(m - {k})
    decreases |m|
  {
    var first :| first in m && Sum(m) == m[first] + Sum(m - {first});
    if first != k {
      SumPick(m - {first}, k);
      SumPick(m - {k}, first);
      assert (m - {first}) - {k} == (m - {k}) - {first};
    }
  }

  lemma SumUpdate<K>(m: map<K, nat>, k: K, v: nat)
    ensures Sum(m[k := v]) == Sum(m - {k}) + v
  {
    SumPick(m[k := v], k);
    assert m[k := v] - {k} == m - {k};
  }

  /** Sum of `w` over the values of `m`. */
  ghost function SumOf<K, V>(m: map<K, V>, w: V -> nat): nat {
    Sum(map k | k in m :: w(m[k]))
  }

  lemma SumOfWithout<K, V>(m: map<K, V>, w: V -> nat, k: K)
    requires k in m
    ensures SumOf(m, w) == w(m[k]) + SumOf(m - {k}, w)
  {
    var weights := map j | j in m :: w(m[j]);
    SumPick(weights, k);
    assert weights - {k} == map j | j in m - {k} :: w((m - {k})[j]);
  }

  lemma SumOfUpdate<K, V>(m: map<K, V>, w: V -> nat, k: K, v: V)
    ensures SumOf(m[k := v], w) == w(v) + SumOf(m - {k}, w)
  {
    SumOfWithout(m[k := v], w, k);
    assert m[k := v] - {k} == m - {k};
  }

  lemma {:induction false} SumOfMono<K, V>(m: map<K, V>, w: V -> nat, w': V -> nat)
    requires forall k :: k in m ==> w(m[k]) <= w'(m[k])
    ensures SumOf(m, w) <= SumOf(m, w')
    decreases |m|
  {
    if m != map[] {
      var k :| k in m;
      SumOfWithout(m, w, k);
      SumOfWithout(m, w', k);
      SumOfMono(m - {k}, w, w');
    }
  }
}
