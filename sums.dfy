/** Dictionaries of integer counters: `d.get(k, 0)`, the accumulating update
    `d[k] = d.get(k, 0) + v`, and `sum(d.values())`. */
module MapSums {

  /** `d.get(k, 0)`. */
  function Get(m: map<string, int>, k: string): int {
    if k in m then m[k] else 0
  }

  /** The sum of the values of `m`. Python adds them in insertion order;
      SumRemove shows that the order does not matter. */
  ghost function Sum(m: map<string, int>): int
    decreases |m.Keys|
  {
    if m == map[] then 0
    else
      var k :| k in m;
      assert (m - {k}).Keys < m.Keys;
      m[k] + Sum(m - {k})
  }

  /** Any value may be taken out of the sum first. */
  lemma {:induction false} SumRemove(m: map<string, int>, k: string)
    requires k in m
    ensures Sum(m) == m[k] + Sum(m - {k})
    decreases |m.Keys|
  {
    var j :| j in m && Sum(m) == m[j] + Sum(m - {j});
    if j != k {
      assert (m - {j}).Keys < m.Keys;
      assert (m - {k}).Keys < m.Keys;
      SumRemove(m - {j}, k);
      SumRemove(m - {k}, j);
      assert m - {j} - {k} == m - {k} - {j};
    }
  }

  /** Setting `d[k] = w` replaces the old value in the sum by `w`. */
  lemma SumSet(m: map<string, int>, k: string, w: int)
    ensures Sum(m[k := w]) == Sum(m) - Get(m, k) + w
  {
    var m' := m[k := w];
    SumRemove(m', k);
    assert m' - {k} == m - {k};
    if k in m {
      SumRemove(m, k);
    } else {
      assert m - {k} == m;
    }
  }

  /** `d[k] = d.get(k, 0) + v` adds `v` to the sum. */
  lemma SumUpdate(m: map<string, int>, k: string, v: int)
    ensures Sum(m[k := Get(m, k) + v]) == Sum(m) + v
  {
    SumSet(m, k, Get(m, k) + v);
  }

  /** Every counter of `b` added into `a`, as the loop
      `for k, v in b.items(): a[k] = a.get(k, 0) + v` leaves `a`. */
  function Plus(a: map<string, int>, b: map<string, int>): (r: map<string, int>)
    ensures r.Keys == a.Keys + b.Keys
  {
    map k | k in a.Keys + b.Keys :: Get(a, k) + Get(b, k)
  }

  /** Adding one dictionary into another adds their sums. */
  lemma {:induction false} SumPlus(a: map<string, int>, b: map<string, int>)
    ensures Sum(Plus(a, b)) == Sum(a) + Sum(b)
    decreases |b.Keys|
  {
    if b == map[] {
      PlusNothing(a, b);
    } else {
      var k :| k in b;
      assert (b - {k}).Keys < b.Keys;
      SumPlus(a, b - {k});
      SumPlusStep(a, b, k);
    }
  }

  lemma SumPlusStep(a: map<string, int>, b: map<string, int>, k: string)
    requires k in b
    requires Sum(Plus(a, b - {k})) == Sum(a) + Sum(b - {k})
    ensures Sum(Plus(a, b)) == Sum(a) + Sum(b)
  {
    var p := Plus(a, b - {k});
    PlusOneMore(a, b, k);
    SumUpdate(p, k, b[k]);
    SumRemove(b, k);
  }

  lemma PlusNothing(a: map<string, int>, b: map<string, int>)
    requires b == map[]
    ensures Plus(a, b) == a
  {
    forall x | x in a ensures Plus(a, b)[x] == a[x] {
    }
  }

  lemma PlusOneMore(a: map<string, int>, b: map<string, int>, k: string)
    requires k in b
    ensures Plus(a, b) == Plus(a, b - {k})[k := Get(Plus(a, b - {k}), k) + b[k]]
  {
    var p := Plus(a, b - {k});
    var q := p[k := Get(p, k) + b[k]];
    assert Plus(a, b).Keys == q.Keys;
    forall x | x in q ensures Plus(a, b)[x] == q[x] {
      assert Plus(a, b)[x] == Get(a, x) + Get(b, x);
    }
  }

  /** `sum(d.values())`. */
  method SumValues(m: map<string, int>) returns (total: int)
    ensures total == Sum(m)
  {
    total := 0;
    var rest := m;
    while rest != map[]
      invariant total + Sum(rest) == Sum(m)
      decreases |rest.Keys|
    {
      var k :| k in rest;
      SumRemove(rest, k);
      total := total + rest[k];
      assert (rest - {k}).Keys < rest.Keys;
      rest := rest - {k};
    }
  }

  /** Two dictionaries with the same keys and the same value at each key
      are equal. */
  lemma SameEntries(a: map<string, int>, b: map<string, int>)
    requires a.Keys == b.Keys && forall k | k in a :: a[k] == b[k]
    ensures a == b
  {
  }
}
