/** Sums of the values of a finite map, for the "total equals the sum of the
    per-key counts" invariants of both analytics stores. */
module Sums {

  /** The sum of all values of `m`. */
  ghost function SumValues<K>(m: map<K, nat>): nat
    decreases |m|
  {
    if m == map[] then 0
    else
      var k :| k in m;
      m[k] + SumValues(m - {k})
  }

  /** Any key may be taken out first: the sum does not depend on the order. */
  lemma {:induction false} SumValuesRemove<K>(m: map<K, nat>, k: K)
    requires k in m
    ensures SumValues(m) == m[k] + SumValues(m - {k})
    decreases |m|
  {
    var j :| j in m && SumValues(m) == m[j] + SumValues(m - {j});
    if j != k {
      var mj, mk := m - {j}, m - {k};
      SumValuesRemove(mj, k);
      SumValuesRemove(mk, j);
      assert mj - {k} == mk - {j};
    }
  }

  /** Overwriting (or adding) one key changes the sum by the difference. */
  lemma SumValuesUpdate<K>(m: map<K, nat>, k: K, v: nat)
    ensures SumValues(m[k := v]) + (if k in m then m[k] else 0) == SumValues(m) + v
  {
    var m' := m[k := v];
    SumValuesRemove(m', k);
    if k in m {
      SumValuesRemove(m, k);
      assert m' - {k} == m - {k};
    } else {
      assert m' - {k} == m;
    }
  }

  /** The value at `k`, a key outside `m` giving 0. */
  function ValueAt<K>(m: map<K, nat>, k: K): nat {
    if k in m then m[k] else 0
  }

  /** The sum of the values at the listed keys. */
  function SumAt<K>(m: map<K, nat>, keys: seq<K>): nat {
    if keys == [] then 0 else ValueAt(m, keys[0]) + SumAt(m, keys[1..])
  }

  /** Summing over three keys. */
  lemma SumAtThree<K>(m: map<K, nat>, keys: seq<K>, a: K, b: K, c: K)
    requires keys == [a, b, c]
    ensures SumAt(m, keys) == ValueAt(m, a) + ValueAt(m, b) + ValueAt(m, c)
  {
    var k1 := keys[1..];
    assert k1 == [b, c];
    assert SumAt(m, keys) == ValueAt(m, a) + SumAt(m, k1);
    var k2 := k1[1..];
    assert k2 == [c] && k2[1..] == [];
    assert SumAt(m, k1) == ValueAt(m, b) + SumAt(m, k2);
    assert SumAt(m, k2) == ValueAt(m, c);
  }

  /** Summing over five keys. */
  lemma SumAtFive<K>(m: map<K, nat>, keys: seq<K>, a: K, b: K, c: K, d: K, e: K)
    requires keys == [a, b, c, d, e]
    ensures SumAt(m, keys) ==
      ValueAt(m, a) + ValueAt(m, b) + ValueAt(m, c) + ValueAt(m, d) + ValueAt(m, e)
  {
    var k1 := keys[1..];
    assert k1 == [b, c, d, e];
    assert SumAt(m, keys) == ValueAt(m, a) + SumAt(m, k1);
    var k2 := k1[1..];
    assert k2 == [c, d, e];
    assert SumAt(m, k1) == ValueAt(m, b) + SumAt(m, k2);
    SumAtThree(m, k2, c, d, e);
  }

  predicate Distinct<K(==)>(keys: seq<K>) {
    forall i, j :: 0 <= i < j < |keys| ==> keys[i] != keys[j]
  }

  lemma {:induction false} SumAtWithout<K>(m: map<K, nat>, keys: seq<K>, k: K)
    requires k !in keys
    ensures SumAt(m - {k}, keys) == SumAt(m, keys)
  {
    if keys != [] {
      SumAtWithout(m, keys[1..], k);
    }
  }

  /** When the listed keys are distinct and cover `m`, the two sums agree. */
  lemma {:induction false} SumValuesByKeys<K>(m: map<K, nat>, keys: seq<K>)
    requires Distinct(keys)
    requires forall k :: k in m ==> k in keys
    ensures SumValues(m) == SumAt(m, keys)
  {
    if keys == [] {
      assert m == map[];
    } else {
      var k, rest := keys[0], keys[1..];
      assert k !in rest by {
        forall i | 0 <= i < |rest| ensures rest[i] != k {
          assert rest[i] == keys[i + 1];
        }
      }
      if k in m {
        SumValuesRemove(m, k);
        SumValuesByKeys(m - {k}, rest);
        SumAtWithout(m, rest, k);
      } else {
        SumValuesByKeys(m, rest);
      }
    }
  }
}
