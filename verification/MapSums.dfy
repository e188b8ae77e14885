/** Sums of natural numbers over the entries of a finite map. */
module MapSums {
  ghost function Sum<K>(m: map<K, nat>): nat {
    if m == map[] then 0
    else
      var k :| k in m;
      m[k] + Sum(m - {k})
  }

  /** The entry summed first does not matter. */
  lemma {:induction false} SumPick<K>(m: map<K, nat>, k: K)
    requires k in m
    ensures Sum(m) == m[k] + Sum(m - {k})
    decreases |m|
  {
    var j :| j in m && Sum(m) == m[j] + Sum(m - {j});
    if j != k {
      SumPick(m - {j}, k);
      SumPick(m - {k}, j);
      assert m - {j} - {k} == m - {k} - {j};
    }
  }

  lemma SumUpdate<K>(m: map<K, nat>, k: K, v: nat)
    ensures Sum(m[k := v]) == Sum(m - {k}) + v
    ensures k in m ==> Sum(m[k := v]) == Sum(m) - m[k] + v
    ensures k !in m ==> Sum(m[k := v]) == Sum(m) + v
  {
    var m' := m[k := v];
    SumPick(m', k);
    assert m' - {k} == m - {k};
    if k in m { SumPick(m, k); } else { assert m - {k} == m; }
  }

  lemma SumRemove<K>(m: map<K, nat>, k: K)
    ensures Sum(m - {k}) == if k in m then Sum(m) - m[k] else Sum(m)
  {
    if k in m { SumPick(m, k); } else { assert m - {k} == m; }
  }

  /** One entry never exceeds the sum. */
  lemma SumAtLeast<K>(m: map<K, nat>, k: K)
    requires k in m
    ensures m[k] <= Sum(m)
  {
    SumPick(m, k);
  }

  ghost function Only<K>(m: map<K, nat>, part: set<K>): map<K, nat> {
    map k | k in m && k in part :: m[k]
  }

  /** A sum is the sum of its parts. */
  lemma {:induction false} SumSplit<K>(m: map<K, nat>, part: set<K>)
    ensures Sum(m) == Sum(m - part) + Sum(Only(m, part))
    decreases part
  {
    if part == {} {
      assert m - part == m;
      assert Only(m, part) == map[];
    } else {
      var k :| k in part;
      var rest := part - {k};
      SumSplit(m, rest);
      SumRemove(m - rest, k);
      assert m - rest - {k} == m - part;
      if k in m {
        SumUpdate(Only(m, rest), k, m[k]);
        assert Only(m, rest)[k := m[k]] == Only(m, part);
      } else {
        assert Only(m, rest) == Only(m, part);
      }
    }
  }
}
