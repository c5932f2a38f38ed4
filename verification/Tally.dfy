/**
 Sums of bounded ranks over the values of a map.
 They serve as termination measures: a step that lowers the rank of one value and raises
 none lowers the sum.
 */
module Tally {
  /** The keys whose value ranks at least `k`. */
  ghost function Above<K, V>(m: map<K, V>, rank: V -> nat, k: nat): set<K> {
    set key | key in m && rank(m[key]) >= k
  }

  /** The sum of `rank` over all values of `m`, for a rank of at most `limit`. */
  ghost function Total<K, V>(m: map<K, V>, rank: V -> nat, limit: nat): nat {
    if limit == 0 then 0 else |Above(m, rank, limit)| + Total(m, rank, limit - 1)
  }

  lemma AboveAfter<K, V>(m: map<K, V>, rank: V -> nat, key: K, value: V, k: nat)
    requires key in m
    ensures |Above(m[key := value], rank, k)| + (if rank(m[key]) >= k then 1 else 0)
         == |Above(m, rank, k)| + (if rank(value) >= k then 1 else 0)
  {
    var before, after := Above(m, rank, k), Above(m[key := value], rank, k);
    assert after == if rank(value) >= k then before + {key} else before - {key};
    assert key in before <==> rank(m[key]) >= k;
  }

  function Min(a: nat, b: nat): nat { if a <= b then a else b }

  lemma {:induction false} TotalUpTo<K, V>(m: map<K, V>, rank: V -> nat, key: K, value: V, limit: nat)
    requires key in m
    ensures Total(m[key := value], rank, limit) + Min(rank(m[key]), limit)
         == Total(m, rank, limit) + Min(rank(value), limit)
  {
    if limit > 0 {
      TotalUpTo(m, rank, key, value, limit - 1);
      AboveAfter(m, rank, key, value, limit);
    }
  }

  /** Changing one value changes the sum by the difference of the ranks. */
  lemma TotalAfter<K, V>(m: map<K, V>, rank: V -> nat, key: K, value: V, limit: nat)
    requires key in m && rank(value) <= limit && rank(m[key]) <= limit
    ensures Total(m[key := value], rank, limit) + rank(m[key]) == Total(m, rank, limit) + rank(value)
  {
    TotalUpTo(m, rank, key, value, limit);
  }

  lemma {:induction false} SubsetSize<K>(a: set<K>, b: set<K>)
    requires a <= b
    ensures |a| <= |b|
    ensures |a| == |b| ==> a == b
  {
    if a != {} {
      var x :| x in a;
      SubsetSize(a - {x}, b - {x});
    }
  }

  lemma Remainder<K>(a: set<K>, b: set<K>)
    requires a <= b && a != b
    ensures b - a != {}
  {
    assert b == a + (b - a);
  }

  lemma {:induction false} TotalBound<K, V>(m: map<K, V>, rank: V -> nat, limit: nat)
    ensures Total(m, rank, limit) <= limit * |m|
  {
    if limit > 0 {
      TotalBound(m, rank, limit - 1);
      SubsetSize(Above(m, rank, limit), m.Keys);
      assert limit * |m| == (limit - 1) * |m| + |m|;
    }
  }

  /** Values that rank alike sum up alike. */
  lemma {:induction false} TotalSame<K, V>(m: map<K, V>, m': map<K, V>, rank: V -> nat, limit: nat)
    requires m.Keys == m'.Keys && forall key <- m.Keys :: rank(m[key]) == rank(m'[key])
    ensures Total(m, rank, limit) == Total(m', rank, limit)
  {
    if limit > 0 {
      TotalSame(m, m', rank, limit - 1);
      assert Above(m, rank, limit) == Above(m', rank, limit);
    }
  }
}
