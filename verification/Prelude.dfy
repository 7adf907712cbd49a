/** Small vocabulary shared by every module: optional values and sums over maps. */
module Prelude {

  datatype Option<+T> = None | Some(value: T)

  function Min(a: int, b: int): int {
    if a <= b then a else b
  }

  function Pow2(n: nat): (p: nat)
    ensures p > 0
  {
    if n == 0 then 1 else 2 * Pow2(n - 1)
  }

  lemma {:induction false} Pow2Grows(a: nat, b: nat)
    requires a <= b
    ensures Pow2(a) <= Pow2(b)
    decreases b
  {
    if a < b {
      Pow2Grows(a, b - 1);
    }
  }

  /** The total weight of the values of a finite map. */
  ghost function SumOf<K, V>(m: map<K, V>, weight: V -> nat): nat {
    if m == map[] then 0
    else
      var k :| k in m;
      weight(m[k]) + SumOf(m - {k}, weight)
  }

  /** Any key may be taken out first. */
  lemma {:induction false} SumOfRemove<K, V>(m: map<K, V>, weight: V -> nat, k: K)
    requires k in m
    ensures SumOf(m, weight) == weight(m[k]) + SumOf(m - {k}, weight)
    decreases |m|
  {
    var j :| j in m && SumOf(m, weight) == weight(m[j]) + SumOf(m - {j}, weight);
    if j != k {
      SumOfRemove(m - {j}, weight, k);
      SumOfRemove(m - {k}, weight, j);
      assert m - {j} - {k} == m - {k} - {j};
    }
  }

  /** Adding a new key, or replacing the value of an old one. */
  lemma SumOfInsert<K, V>(m: map<K, V>, weight: V -> nat, k: K, v: V)
    requires k !in m
    ensures SumOf(m[k := v], weight) == SumOf(m, weight) + weight(v)
  {
    SumOfRemove(m[k := v], weight, k);
    assert m[k := v] - {k} == m;
  }

  lemma SumOfUpdate<K, V>(m: map<K, V>, weight: V -> nat, k: K, v: V)
    requires k in m
    ensures SumOf(m[k := v], weight) == SumOf(m, weight) - weight(m[k]) + weight(v)
  {
    SumOfRemove(m, weight, k);
    SumOfRemove(m[k := v], weight, k);
    assert m[k := v] - {k} == m - {k};
  }
}
