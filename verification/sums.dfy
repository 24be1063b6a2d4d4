/** Totals over the values of a dictionary, so that a counter kept alongside a
    dictionary (a grand total, a record count) can be compared with the sum of
    its entries. */
module Sums {
  import opened Wrappers

  /** The sum of all values of `m` (Python's `sum(m.values())`). */
  ghost function SumMap<K>(m: map<K, nat>): nat
    decreases |m|
  {
    if m == map[] then 0
    else
      var k :| k in m;
      m[k] + SumMap(m - {k})
  }

  /** The sum splits off any one entry, whichever the definition happened to pick. */
  lemma {:induction false} SumMapRemove<K>(m: map<K, nat>, k: K)
    requires k in m
    ensures SumMap(m) == m[k] + SumMap(m - {k})
    decreases |m|
  {
    var j :| j in m && SumMap(m) == m[j] + SumMap(m - {j});
    if j != k {
      var mj := m - {j};
      var mk := m - {k};
      assert k in mj && j in mk;
      SumMapRemove(mj, k);
      SumMapRemove(mk, j);
      assert mj - {k} == mk - {j};
    }
  }

  /** Overwriting one entry changes the sum by the difference of the two values;
      adding a new key adds its value. */
  lemma SumMapUpdate<K>(m: map<K, nat>, k: K, v: nat)
    ensures SumMap(m[k := v]) == SumMap(m) - Lookup(m, k) + v
  {
    var m' := m[k := v];
    SumMapRemove(m', k);
    if k in m {
      SumMapRemove(m, k);
      assert m' - {k} == m - {k};
    } else {
      assert m' - {k} == m;
    }
  }

  /** Incrementing one counter (`counts[k] += 1`) adds exactly one to the total. */
  lemma SumMapBump<K(!new)>(m: map<K, nat>, k: K)
    ensures SumMap(Bump(m, k)) == SumMap(m) + 1
  {
    SumMapUpdate(m, k, Lookup(m, k) + 1);
  }

  /** A dictionary of positive counters sums to a positive total exactly when
      it is non-empty. */
  lemma SumMapPositive<K>(m: map<K, nat>)
    requires forall k :: k in m ==> m[k] >= 1
    ensures SumMap(m) > 0 <==> m != map[]
  {
    if m != map[] {
      var k :| k in m;
      SumMapRemove(m, k);
    }
  }

  /** `sum(m[k] for k in ks)`, reading absent keys as 0. */
  function SumOver<K>(ks: seq<K>, m: map<K, nat>): nat {
    if ks == [] then 0 else SumOver(ks[..|ks| - 1], m) + Lookup(m, ks[|ks| - 1])
  }

  /** No two positions of `ks` hold the same element. */
  predicate Distinct<K(==)>(ks: seq<K>) {
    forall i, j :: 0 <= i < j < |ks| ==> ks[i] != ks[j]
  }

  /** Summing over a list of distinct keys takes part of the total; what is
      left is the sum over the keys not listed. */
  lemma {:induction false} SumOverSplit<K>(ks: seq<K>, m: map<K, nat>)
    requires Distinct(ks)
    ensures SumOver(ks, m) + SumMap(m - (set k | k in ks)) == SumMap(m)
  {
    if ks != [] {
      var init := ks[..|ks| - 1];
      var k := ks[|ks| - 1];
      assert Distinct(init);
      SumOverSplit(init, m);
      var s0 := set x | x in init;
      var s1 := set x | x in ks;
      assert s1 == s0 + {k};
      assert k !in s0;
      assert SumOver(ks, m) == SumOver(init, m) + Lookup(m, k);
      if k in m {
        SumMapRemove(m - s0, k);
        assert (m - s0) - {k} == m - s1;
      } else {
        assert m - s0 == m - s1;
      }
    } else {
      assert m - (set k | k in ks) == m;
    }
  }

  /** A map whose every value is 0 sums to 0. */
  lemma SumMapZero<K>(m: map<K, nat>)
    requires forall k :: k in m ==> m[k] == 0
    ensures SumMap(m) == 0
    decreases |m|
  {
    if m != map[] {
      var k :| k in m;
      SumMapRemove(m, k);
      SumMapZero(m - {k});
    }
  }

  /** Summing over distinct keys never exceeds the total, and equals it when
      every key left out holds 0. */
  lemma SumOverCovers<K>(ks: seq<K>, m: map<K, nat>)
    requires Distinct(ks)
    ensures SumOver(ks, m) <= SumMap(m)
    ensures (forall k :: k in m && k !in ks ==> m[k] == 0) ==> SumOver(ks, m) == SumMap(m)
  {
    SumOverSplit(ks, m);
    if forall k :: k in m && k !in ks ==> m[k] == 0 {
      SumMapZero(m - (set k | k in ks));
    }
  }
}
