/** Sequences filtered through a partial function, as a Python loop that
    appends to a list only the elements it can parse. */
module Seqs {
  import opened Wrappers

  /** The values `f` gives for the elements of `xs`, where it gives one,
      in order. */
  function Keep<T, U>(xs: seq<T>, f: T -> Option<U>): (ys: seq<U>)
    ensures |ys| <= |xs|
  {
    if xs == [] then []
    else
      var init := Keep(xs[..|xs| - 1], f);
      match f(xs[|xs| - 1])
      case None => init
      case Some(y) => init + [y]
  }

  /** One more element appends its value, if it has one. */
  lemma KeepStep<T, U>(xs: seq<T>, f: T -> Option<U>, i: nat)
    requires i < |xs|
    ensures f(xs[i]).None? ==> Keep(xs[..i + 1], f) == Keep(xs[..i], f)
    ensures f(xs[i]).Some? ==> Keep(xs[..i + 1], f) == Keep(xs[..i], f) + [f(xs[i]).value]
  {
    assert xs[..i + 1][..i] == xs[..i];
  }

  /** The values kept from a sequence are those kept from its two halves. */
  lemma {:induction false} KeepSplit<T, U>(xs: seq<T>, f: T -> Option<U>, k: nat)
    requires k <= |xs|
    ensures Keep(xs, f) == Keep(xs[..k], f) + Keep(xs[k..], f)
  {
    if k < |xs| {
      var init := xs[..|xs| - 1];
      var last := xs[|xs| - 1];
      KeepSplit(init, f, k);
      assert init[..k] == xs[..k];
      var tail := xs[k..];
      assert tail[..|tail| - 1] == init[k..] && tail[|tail| - 1] == last;
      match f(last)
      case None =>
      case Some(y) =>
        SeqAssoc(Keep(xs[..k], f), Keep(init[k..], f), [y]);
    } else {
      assert xs[k..] == [];
      assert xs[..k] == xs;
    }
  }

  lemma SeqAssoc<T>(a: seq<T>, b: seq<T>, c: seq<T>)
    ensures (a + b) + c == a + (b + c)
  {
  }

  /** The values kept are exactly those some element gives. */
  lemma {:induction false} KeepExactly<T, U>(xs: seq<T>, f: T -> Option<U>, y: U)
    ensures y in Keep(xs, f) <==> exists i | 0 <= i < |xs| :: f(xs[i]) == Some(y)
  {
    if xs != [] {
      var init := xs[..|xs| - 1];
      KeepExactly(init, f, y);
      if i :| 0 <= i < |init| && f(init[i]) == Some(y) {
        assert xs[i] == init[i];
      }
      if i :| 0 <= i < |xs| && f(xs[i]) == Some(y) {
        if i < |init| {
          assert init[i] == xs[i];
        }
      }
    }
  }
}
