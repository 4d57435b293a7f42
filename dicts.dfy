/** A dictionary filled by assignments `d[k] = v` made in order, starting
    from `{}`: a later assignment to the same key replaces the earlier one. */
module Dicts {
  import opened Wrappers

  function Collect<V>(pairs: seq<(string, V)>): map<string, V> {
    if pairs == [] then map[]
    else
      var last := pairs[|pairs| - 1];
      Collect(pairs[..|pairs| - 1])[last.0 := last.1]
  }

  /** The keys are exactly the keys assigned. */
  lemma {:induction false} CollectKeys<V>(pairs: seq<(string, V)>, k: string)
    ensures k in Collect(pairs) <==> exists i | 0 <= i < |pairs| :: pairs[i].0 == k
  {
    if pairs != [] {
      var init := pairs[..|pairs| - 1];
      CollectKeys(init, k);
      if i :| 0 <= i < |init| && init[i].0 == k {
        assert pairs[i] == init[i];
      }
      if i :| 0 <= i < |pairs| && pairs[i].0 == k {
        if i < |init| {
          assert init[i] == pairs[i];
        }
      }
    }
  }

  /** A key holds the value of its last assignment. */
  lemma {:induction false} CollectLastWins<V>(pairs: seq<(string, V)>, i: nat)
    requires i < |pairs|
    requires forall j | i < j < |pairs| :: pairs[j].0 != pairs[i].0
    ensures pairs[i].0 in Collect(pairs) && Collect(pairs)[pairs[i].0] == pairs[i].1
  {
    var init := pairs[..|pairs| - 1];
    if i < |init| {
      assert init[i] == pairs[i];
      CollectLastWins(init, i);
    }
  }

  /** The dictionary filled from the elements of `xs` that `f` maps to a
      key and a value, in order. */
  function CollectBy<T, V>(xs: seq<T>, f: T -> Option<(string, V)>): map<string, V> {
    if xs == [] then map[]
    else
      var m := CollectBy(xs[..|xs| - 1], f);
      match f(xs[|xs| - 1])
      case None => m
      case Some(p) => m[p.0 := p.1]
  }

  /** The keys are exactly the keys of the elements that give one. */
  lemma {:induction false} CollectByKeys<T, V>(xs: seq<T>, f: T -> Option<(string, V)>, k: string)
    ensures k in CollectBy(xs, f) <==> exists i | 0 <= i < |xs| :: f(xs[i]).Some? && f(xs[i]).value.0 == k
  {
    if xs != [] {
      var init := xs[..|xs| - 1];
      CollectByKeys(init, f, k);
      if i :| 0 <= i < |init| && f(init[i]).Some? && f(init[i]).value.0 == k {
        assert xs[i] == init[i];
      }
      if i :| 0 <= i < |xs| && f(xs[i]).Some? && f(xs[i]).value.0 == k {
        if i < |init| {
          assert init[i] == xs[i];
        }
      }
    }
  }

  /** A key holds the value of the last element that gives it. */
  lemma {:induction false} CollectByLastWins<T, V>(xs: seq<T>, f: T -> Option<(string, V)>, i: nat, k: string, v: V)
    requires i < |xs| && f(xs[i]) == Some((k, v))
    requires forall j | i < j < |xs| :: f(xs[j]).None? || f(xs[j]).value.0 != k
    ensures k in CollectBy(xs, f) && CollectBy(xs, f)[k] == v
  {
    var init := xs[..|xs| - 1];
    if i < |init| {
      assert init[i] == xs[i];
      CollectByLastWins(init, f, i, k, v);
    }
  }
}
