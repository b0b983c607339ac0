/**
 Finite sums over the values of a map. The engine adds up squared weights
 (document norms), term counts (document lengths) and per-term shares
 (scores); every one of those sums runs over the entries of a dictionary,
 in whatever order the dictionary yields them. Sums here are exact, so the
 order does not matter (SumRemove).

 Lengths are sums of counts, and in the engine they are integers: `this_len`
 and `all_len` stay whole numbers until `avgdl` divides one by the number
 of documents. `Total` keeps them natural numbers, so a length can be used
 wherever a count is expected. `Sum` is the real-valued sum the norms and
 scores need. The two share one definition shape and one set of
 order-independence lemmas (`TotalRemove`, `SumRemove`).
 */
module Sums {

  /** The value under `k`, or `default` where `k` is absent: a read of a
      zero-default dictionary that does not insert the key. */
  function Get<K, V>(m: map<K, V>, k: K, default: V): V
  {
    if k in m then m[k] else default
  }

  /** The sum of the values of `m`. */
  ghost function Sum<K>(m: map<K, real>): real
    decreases |m|
  {
    if m == map[] then 0.0
    else
      var k :| k in m;
      assert (m - {k}).Keys == m.Keys - {k};
      m[k] + Sum(m - {k})
  }

  /** The sum of the values of `m`, for natural-number values. */
  ghost function Total<K>(m: map<K, nat>): nat
    decreases |m|
  {
    if m == map[] then 0
    else
      var k :| k in m;
      assert (m - {k}).Keys == m.Keys - {k};
      m[k] + Total(m - {k})
  }

  /** `x ** 2`. */
  function Square(x: real): real
  {
    x * x
  }

  /** Every entry squared: the components of a squared Euclidean norm. */
  function SquaresOf<K>(v: map<K, real>): (r: map<K, real>)
    ensures r.Keys == v.Keys
    ensures forall k :: k in r ==> r[k] >= 0.0
  {
    map k | k in v :: Square(v[k])
  }

  /** Dividing the square of a non-zero number by it gives the number back. */
  lemma SquareOverItself(x: real)
    requires x != 0.0
    ensures Square(x) * (1.0 / x) == x
  {
  }

  /** The square of a non-zero number is positive. */
  lemma SquarePositive(x: real)
    requires x != 0.0
    ensures Square(x) > 0.0
  {
    SquareOverItself(x);
    assert Square(x) >= 0.0;
  }

  /** The square of a number at least one is at least one. */
  lemma SquareAtLeastOne(y: real)
    requires 1.0 <= y
    ensures 1.0 <= Square(y)
  {
    assert y * y >= y * 1.0;
  }

  /** Any entry can be taken out first: the sum does not depend on the
      order in which the keys are visited. */
  lemma {:induction false} SumRemove<K>(m: map<K, real>, k: K)
    requires k in m
    ensures Sum(m) == m[k] + Sum(m - {k})
    decreases |m|
  {
    var j :| j in m && Sum(m) == m[j] + Sum(m - {j});
    if j != k {
      var mj, mk := m - {j}, m - {k};
      assert mj.Keys == m.Keys - {j};
      assert mk.Keys == m.Keys - {k};
      SumRemove(mj, k);
      SumRemove(mk, j);
      assert mj - {k} == mk - {j};
    }
  }

  /** Adding a fresh entry adds its value to the sum. */
  lemma SumInsert<K>(m: map<K, real>, k: K, v: real)
    requires k !in m
    ensures Sum(m[k := v]) == Sum(m) + v
  {
    SumRemove(m[k := v], k);
    assert m[k := v] - {k} == m;
  }

  /** A sum of non-negative values is non-negative. */
  lemma {:induction false} SumNonNegative<K>(m: map<K, real>)
    requires forall k :: k in m ==> m[k] >= 0.0
    ensures Sum(m) >= 0.0
    decreases |m|
  {
    if m != map[] {
      var k :| k in m;
      SumRemove(m, k);
      assert (m - {k}).Keys == m.Keys - {k};
      SumNonNegative(m - {k});
    }
  }

  /** A sum of non-negative values is at least each of them. */
  lemma SumAtLeast<K>(m: map<K, real>, k: K)
    requires forall j :: j in m ==> m[j] >= 0.0
    requires k in m
    ensures Sum(m) >= m[k]
  {
    SumRemove(m, k);
    SumNonNegative(m - {k});
  }

  /** A sum of zeros is zero. */
  lemma {:induction false} SumZero<K>(m: map<K, real>)
    requires forall k :: k in m ==> m[k] == 0.0
    ensures Sum(m) == 0.0
    decreases |m|
  {
    if m != map[] {
      var k :| k in m;
      SumRemove(m, k);
      assert (m - {k}).Keys == m.Keys - {k};
      SumZero(m - {k});
    }
  }

  /** Any entry can be taken out of a natural-number total first. */
  lemma {:induction false} TotalRemove<K>(m: map<K, nat>, k: K)
    requires k in m
    ensures Total(m) == m[k] + Total(m - {k})
    decreases |m|
  {
    var j :| j in m && Total(m) == m[j] + Total(m - {j});
    if j != k {
      var mj, mk := m - {j}, m - {k};
      assert mj.Keys == m.Keys - {j};
      assert mk.Keys == m.Keys - {k};
      TotalRemove(mj, k);
      TotalRemove(mk, j);
      assert mj - {k} == mk - {j};
    }
  }

  /** Adding a fresh entry adds its value to the total. */
  lemma TotalInsert<K>(m: map<K, nat>, k: K, v: nat)
    requires k !in m
    ensures Total(m[k := v]) == Total(m) + v
  {
    TotalRemove(m[k := v], k);
    assert m[k := v] - {k} == m;
  }

  /** One more key of `m` visited: the loop step of a pass that totals the
      values of `m` in any order. */
  lemma TotalStep<K>(m: map<K, nat>, rest: set<K>, k: K)
    requires k in rest && rest <= m.Keys
    ensures Total(m - (rest - {k})) == Total(m - rest) + m[k]
  {
    TotalInsert(m - rest, k, m[k]);
    assert (m - rest)[k := m[k]] == m - (rest - {k});
  }

  /** One more key of `full` copied over `prev`: the loop step of a pass
      that writes one entry per key and visits the keys in any order. */
  lemma CopyStep<K, V>(prev: map<K, V>, full: map<K, V>, rest: set<K>, k: K)
    requires k in rest && k in full
    ensures (prev + (full - rest))[k := full[k]] == prev + (full - (rest - {k}))
  {
  }

  /** Once no key is left to visit, everything has been copied. */
  lemma CopyDone<K, V>(prev: map<K, V>, full: map<K, V>)
    ensures prev + (full - {}) == prev + full
  {
    assert full - {} == full;
  }

  /** One more key of `full` visited, copying its entry: the loop step of a
      pass that builds `full` one key at a time, in any order. */
  lemma RestoreStep<K, V>(full: map<K, V>, rest: set<K>, k: K)
    requires k in rest && k in full
    ensures (full - rest)[k := full[k]] == full - (rest - {k})
  {
  }

  /** Once no key is left to visit, all of `full` has been built. */
  lemma RestoreDone<K, V>(full: map<K, V>)
    ensures full - {} == full
  {
  }

  /** Entries merged into an empty table are the table. */
  lemma MergeOntoEmpty<K, V>(m: map<K, V>)
    ensures map[] + m == m
  {
  }

  /** Python's built-in `sum` over the values of a dictionary: one pass
      over the keys, in any order, adding each value to a running total. */
  method SumValues<K>(m: map<K, real>) returns (s: real)
    ensures s == Sum(m)
  {
    s := 0.0;
    var rest := m.Keys;
    assert m - rest == map[];
    while rest != {}
      invariant rest <= m.Keys
      invariant s == Sum(m - rest)
      decreases rest
    {
      var k :| k in rest;
      SumInsert(m - rest, k, m[k]);
      assert (m - rest)[k := m[k]] == m - (rest - {k});
      s := s + m[k];
      rest := rest - {k};
    }
    assert m - rest == m;
  }
}
