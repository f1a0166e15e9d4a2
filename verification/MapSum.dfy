/** Sums of a weight over the values of a finite map, and how they react to a change of one entry. */
module MapSum {
  ghost function Sum<K, V>(m: map<K, V>, weight: V -> int): int
    decreases |m|
  {
    if m == map[] then 0
    else
      var k :| k in m;
      assert |m - {k}| < |m| by { Smaller(m, k); }
      weight(m[k]) + Sum(m - {k}, weight)
  }

  lemma Smaller<K, V>(m: map<K, V>, k: K)
    requires k in m
    ensures |m - {k}| == |m| - 1
  {
    assert (m - {k}).Keys == m.Keys - {k};
  }

  /** Any entry can be the one taken out first. */
  lemma {:induction false} Remove<K, V>(m: map<K, V>, k: K, weight: V -> int)
    requires k in m
    ensures Sum(m, weight) == weight(m[k]) + Sum(m - {k}, weight)
    decreases |m|
  {
    var first :| first in m && Sum(m, weight) == weight(m[first]) + Sum(m - {first}, weight);
    if first != k {
      Smaller(m, first);
      Smaller(m, k);
      Remove(m - {first}, k, weight);
      Remove(m - {k}, first, weight);
      assert m - {first} - {k} == m - {k} - {first};
    }
  }

  lemma Put<K, V>(m: map<K, V>, k: K, v: V, weight: V -> int)
    ensures Sum(m[k := v], weight) == Sum(m, weight) + weight(v) - (if k in m then weight(m[k]) else 0)
  {
    Remove(m[k := v], k, weight);
    assert m[k := v] - {k} == m - {k};
    if k in m {
      Remove(m, k, weight);
    } else {
      assert m - {k} == m;
    }
  }

  lemma Drop<K, V>(m: map<K, V>, k: K, weight: V -> int)
    ensures Sum(m - {k}, weight) == Sum(m, weight) - (if k in m then weight(m[k]) else 0)
  {
    if k in m {
      Remove(m, k, weight);
    } else {
      assert m - {k} == m;
    }
  }

  ghost function Inside<K, V>(m: map<K, V>, s: set<K>): map<K, V> {
    map k | k in m && k in s :: m[k]
  }

  /** A map is the sum of the part inside `s` and the part outside. */
  lemma {:induction false} Divide<K, V>(m: map<K, V>, s: set<K>, weight: V -> int)
    ensures Sum(m, weight) == Sum(Inside(m, s), weight) + Sum(m - s, weight)
    decreases |m|
  {
    if m != map[] {
      var k :| k in m;
      Smaller(m, k);
      Remove(m, k, weight);
      Divide(m - {k}, s, weight);
      if k in s {
        Remove(Inside(m, s), k, weight);
        assert Inside(m, s) - {k} == Inside(m - {k}, s) && (m - {k}) - s == m - s;
      } else {
        Remove(m - s, k, weight);
        assert Inside(m, s) == Inside(m - {k}, s) && (m - {k}) - s == m - s - {k};
      }
    } else {
      assert Inside(m, s) == m && m - s == m;
    }
  }

  /** A pointwise comparison of weights carries over to the sums. */
  lemma {:induction false} Monotone<K, V>(m: map<K, V>, lower: V -> int, upper: V -> int)
    requires forall k :: k in m ==> lower(m[k]) <= upper(m[k])
    ensures Sum(m, lower) <= Sum(m, upper)
    decreases |m|
  {
    if m != map[] {
      var k :| k in m;
      Smaller(m, k);
      Remove(m, k, lower);
      Remove(m, k, upper);
      Monotone(m - {k}, lower, upper);
    }
  }

  lemma {:induction false} Zero<K, V>(m: map<K, V>, weight: V -> int)
    requires forall k :: k in m ==> weight(m[k]) == 0
    ensures Sum(m, weight) == 0
    decreases |m|
  {
    if m != map[] {
      var k :| k in m;
      Smaller(m, k);
      Remove(m, k, weight);
      Zero(m - {k}, weight);
    }
  }

  /** Weights that add up pointwise add up over the whole map. */
  lemma {:induction false} Additive<K, V>(m: map<K, V>, total: V -> int, a: V -> int, b: V -> int)
    requires forall k :: k in m ==> total(m[k]) == a(m[k]) + b(m[k])
    ensures Sum(m, total) == Sum(m, a) + Sum(m, b)
    decreases |m|
  {
    if m != map[] {
      var k :| k in m;
      Smaller(m, k);
      Remove(m, k, total);
      Remove(m, k, a);
      Remove(m, k, b);
      Additive(m - {k}, total, a, b);
    }
  }
}
