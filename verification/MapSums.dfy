/** Sums over the values of a finite map. */
module MapSums {

  ghost function Sum<K>(m: map<K, nat>): nat
    decreases |m|
  {
    if m == map[] then 0
    else
      var key :| key in m;
      m[key] + Sum(m - {key})
  }

  /** The sum does not depend on which entry is taken first. */
  lemma {:induction false} SumWithout<K>(m: map<K, nat>, key: K)
    requires key in m
    ensures Sum(m) == m[key] + Sum(m - {key})
    decreases |m|
  {
    var picked :| picked in m && Sum(m) == m[picked] + Sum(m - {picked});
    if picked != key {
      SumWithout(m - {picked}, key);
      SumWithout(m - {key}, picked);
      assert m - {picked} - {key} == m - {key} - {picked};
    }
  }

  lemma SumAdd<K>(m: map<K, nat>, key: K, value: nat)
    requires key !in m
    ensures |m[key := value]| == |m| + 1 && Sum(m[key := value]) == Sum(m) + value
  {
    var grown := m[key := value];
    assert |grown| == |m| + 1 by {
      assert grown.Keys == m.Keys + {key};
    }
    assert Sum(grown) == value + Sum(m) by {
      assert grown - {key} == m;
      SumWithout(grown, key);
    }
  }

  lemma SumRemove<K>(m: map<K, nat>, key: K)
    requires key in m
    ensures |m| >= 1 && |m - {key}| == |m| - 1
    ensures Sum(m) >= m[key] && Sum(m - {key}) == Sum(m) - m[key]
  {
    SumWithout(m, key);
    assert (m - {key}).Keys == m.Keys - {key};
  }

  lemma SumReplace<K>(m: map<K, nat>, key: K, value: nat)
    requires key in m
    ensures Sum(m) >= m[key] && Sum(m[key := value]) == Sum(m) - m[key] + value
  {
    SumWithout(m, key);
    SumWithout(m[key := value], key);
    assert m[key := value] - {key} == m - {key};
  }
}
