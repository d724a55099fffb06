/** Pairs of CPU and GPU milliseconds and their sums over finite maps. */
module Amounts {

  datatype Amount = Amount(cpu: real, gpu: real)

  const ZERO := Amount(0.0, 0.0)

  function Plus(a: Amount, b: Amount): Amount { Amount(a.cpu + b.cpu, a.gpu + b.gpu) }

  function Minus(a: Amount, b: Amount): Amount { Amount(a.cpu - b.cpu, a.gpu - b.gpu) }

  function Max(x: real, y: real): real { if x >= y then x else y }

  function Min(x: real, y: real): real { if x <= y then x else y }

  /** Each component raised to at least zero. */
  function Clamp(a: Amount): Amount { Amount(Max(0.0, a.cpu), Max(0.0, a.gpu)) }

  predicate NonNegative(a: Amount) { a.cpu >= 0.0 && a.gpu >= 0.0 }

  predicate Within(a: Amount, b: Amount) { a.cpu <= b.cpu && a.gpu <= b.gpu }

  lemma {:induction false} AnyKey<K, V>(m: map<K, V>) returns (k: K)
    requires m.Keys != {}
    ensures k in m
  {
    k :| k in m;
  }

  /** The sum of a map's values; the order of the keys does not matter (SumPick). */
  ghost function Sum<K(!new)>(m: map<K, Amount>): Amount {
    if m == map[] then ZERO
    else
      var k :| k in m;
      Plus(m[k], Sum(m - {k}))
  }

  lemma {:induction false} SumPick<K(!new)>(m: map<K, Amount>, k: K)
    requires k in m
    ensures Sum(m) == Plus(m[k], Sum(m - {k}))
    decreases |m|
  {
    var j :| j in m && Sum(m) == Plus(m[j], Sum(m - {j}));
    if j != k {
      SumPick(m - {j}, k);
      SumPick(m - {k}, j);
      assert (m - {j}) - {k} == (m - {k}) - {j};
      assert (m - {j})[k] == m[k] && (m - {k})[j] == m[j];
      var rest := Sum((m - {j}) - {k});
      assert Sum(m - {j}) == Plus(m[k], rest);
      assert Sum(m - {k}) == Plus(m[j], rest);
      assert Sum(m) == Plus(m[j], Plus(m[k], rest));
    }
  }

  /** Setting one key changes the sum by the difference in its value, absent keys counting as zero. */
  lemma {:induction false} SumSet<K(!new)>(m: map<K, Amount>, k: K, v: Amount)
    ensures Sum(m[k := v]) == Plus(Sum(m), Minus(v, if k in m then m[k] else ZERO))
  {
    SumPick(m[k := v], k);
    assert m[k := v] - {k} == m - {k};
    if k in m {
      SumPick(m, k);
    } else {
      assert m - {k} == m;
    }
  }

  lemma {:induction false} SumNonNegative<K(!new)>(m: map<K, Amount>)
    requires forall k | k in m :: NonNegative(m[k])
    ensures NonNegative(Sum(m))
    decreases |m|
  {
    if m != map[] {
      var k :| k in m;
      SumPick(m, k);
      SumNonNegative(m - {k});
    }
  }

  /** One value of a non-negative map never exceeds the whole sum. */
  lemma {:induction false} SumCovers<K(!new)>(m: map<K, Amount>, k: K)
    requires forall j | j in m :: NonNegative(m[j])
    requires k in m
    ensures Within(m[k], Sum(m))
  {
    SumPick(m, k);
    SumNonNegative(m - {k});
  }
}
