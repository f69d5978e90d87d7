/** The sum of a weight over the values of a finite map. */
module MapSums {

  ghost function Sum<K(!new), V(!new)>(m: map<K, V>, w: V -> int): int
    decreases |m|
  {
    if m == map[] then 0
    else
      var k :| k in m;
      assert |m - {k}| < |m| by { DropShrinks(m, k); }
      w(m[k]) + Sum(m - {k}, w)
  }

  lemma DropShrinks<K, V>(m: map<K, V>, k: K)
    requires k in m
    ensures |m - {k}| == |m| - 1
  {
    assert (m - {k}).Keys == m.Keys - {k};
    assert |(m - {k}).Keys| == |m.Keys| - 1;
  }

  /** Any key may be taken out first. */
  lemma {:induction false} SumDrop<K(!new), V(!new)>(m: map<K, V>, w: V -> int, k: K)
    requires k in m
    ensures Sum(m, w) == w(m[k]) + Sum(m - {k}, w)
    decreases |m|
  {
    var first: K :| first in m && Sum(m, w) == w(m[first]) + Sum(m - {first}, w);
    if first != k {
      DropShrinks(m, first);
      DropShrinks(m, k);
      SumDrop(m - {first}, w, k);
      SumDrop(m - {k}, w, first);
      assert m - {first} - {k} == m - {k} - {first};
    }
  }

  lemma SumPut<K(!new), V(!new)>(m: map<K, V>, w: V -> int, k: K, v: V)
    ensures Sum(m[k := v], w) == Sum(m, w) + w(v) - (if k in m then w(m[k]) else 0)
  {
    SumDrop(m[k := v], w, k);
    assert m[k := v] - {k} == m - {k};
    if k in m {
      SumDrop(m, w, k);
    } else {
      assert m - {k} == m;
    }
  }

  lemma {:induction false} SumNonNegative<K(!new), V(!new)>(m: map<K, V>, w: V -> int)
    requires forall k :: k in m ==> 0 <= w(m[k])
    ensures 0 <= Sum(m, w)
    decreases |m|
  {
    if m != map[] {
      var k :| k in m;
      DropShrinks(m, k);
      SumDrop(m, w, k);
      SumNonNegative(m - {k}, w);
    }
  }

  /** Adding a key from `n` to both sides. */
  lemma DropFromUnion<K, V>(m: map<K, V>, n: map<K, V>, k: K)
    requires m.Keys !! n.Keys && k in n
    ensures (m + n) - {k} == m + (n - {k}) && (m + n)[k] == n[k]
  {
  }

  lemma {:induction false} SumUnion<K(!new), V(!new)>(m: map<K, V>, n: map<K, V>, w: V -> int)
    requires m.Keys !! n.Keys
    ensures Sum(m + n, w) == Sum(m, w) + Sum(n, w)
    decreases |n|
  {
    if n == map[] {
      assert m + n == m;
    } else {
      var k :| k in n;
      DropShrinks(n, k);
      DropFromUnion(m, n, k);
      SumDrop(n, w, k);
      SumDrop(m + n, w, k);
      SumUnion(m, n - {k}, w);
    }
  }

  /** Lowering the weight by 3 at the keys of `changed` lowers the sum by 3 for each. */
  lemma {:induction false} SumLowered<K(!new), V(!new)>(m: map<K, V>, m': map<K, V>, w: V -> int, changed: set<K>)
    requires m'.Keys == m.Keys && changed <= m.Keys
    requires forall k :: k in m ==> w(m'[k]) == w(m[k]) - (if k in changed then 3 else 0)
    ensures Sum(m', w) == Sum(m, w) - 3 * |changed|
    decreases |m|
  {
    if m == map[] {
      assert changed == {};
      assert m' == map[];
    } else {
      var k :| k in m;
      DropShrinks(m, k);
      SumDrop(m, w, k);
      SumDrop(m', w, k);
      assert (m' - {k}).Keys == (m - {k}).Keys;
      if k in changed {
        assert |changed - {k}| == |changed| - 1;
      } else {
        assert changed - {k} == changed;
      }
      SumLowered(m - {k}, m' - {k}, w, changed - {k});
    }
  }
}
