/** What the retention engine promises: every kept name belongs to a listed
    snapshot, kept and deleted names partition the listing, each granularity
    keeps one name from each of its min(count, #periods) most recent periods,
    and running the engine again on what it kept keeps everything. */
module RetentionProps {
  import opened Calendar
  import opened Retention

  // ---------------------------------------------------------------------
  // Groups and listing names
  // ---------------------------------------------------------------------

  /** A period's group holds exactly the listed snapshots of that period. */
  lemma {:induction false} InPeriodMembers(snaps: seq<Snapshot>, key: Stamp -> Period, p: Period, x: Snapshot)
    ensures x in InPeriod(snaps, key, p) <==> x in snaps && key(x.ts) == p
  {
    if snaps != [] {
      InPeriodMembers(snaps[1..], key, p, x);
      assert snaps == [snaps[0]] + snaps[1..];
    }
  }

  /** The snapshot a period keeps: listed, of that period, and no listed
      snapshot of the period is newer. */
  lemma NewestOfPeriod(snaps: seq<Snapshot>, key: Stamp -> Period, p: Period)
    requires InPeriod(snaps, key, p) != []
    ensures var x := Newest(InPeriod(snaps, key, p));
            x in snaps && key(x.ts) == p
            && forall y | y in snaps && key(y.ts) == p :: y.At() <= x.At()
  {
    var x := Newest(InPeriod(snaps, key, p));
    InPeriodMembers(snaps, key, p, x);
    NewestIsNewest(InPeriod(snaps, key, p));
    forall y | y in snaps && key(y.ts) == p ensures y.At() <= x.At() {
      InPeriodMembers(snaps, key, p, y);
    }
  }

  lemma NamesMembers(snaps: seq<Snapshot>, n: string)
    ensures n in Names(snaps) <==> exists x | x in snaps :: x.name == n
  {
    if n in Names(snaps) {
      var i :| 0 <= i < |snaps| && Names(snaps)[i] == n;
      assert snaps[i] in snaps;
    }
    if exists x | x in snaps :: x.name == n {
      var x :| x in snaps && x.name == n;
      var i :| 0 <= i < |snaps| && snaps[i] == x;
      assert Names(snaps)[i] == n;
    }
  }

  /** Every name one granularity keeps is the name of a listed snapshot that
      is the newest of one of the `count` most recent periods. */
  lemma SelectedMembers(snaps: seq<Snapshot>, key: Stamp -> Period, count: int, n: string)
    ensures n in Selected(snaps, key, count) <==>
            exists x | x in snaps :: x.name == n && key(x.ts) in Top(Keys(snaps, key), count)
                                     && InPeriod(snaps, key, key(x.ts)) != []
                                     && x == Newest(InPeriod(snaps, key, key(x.ts)))
  {
    if n in Selected(snaps, key, count) {
      var p :| p in Top(Keys(snaps, key), count) && InPeriod(snaps, key, p) != []
               && n == Newest(InPeriod(snaps, key, p)).name;
      NewestOfPeriod(snaps, key, p);
    }
    if exists x | x in snaps :: x.name == n && key(x.ts) in Top(Keys(snaps, key), count)
                                && InPeriod(snaps, key, key(x.ts)) != []
                                && x == Newest(InPeriod(snaps, key, key(x.ts))) {
      var x :| x in snaps && x.name == n && key(x.ts) in Top(Keys(snaps, key), count)
               && InPeriod(snaps, key, key(x.ts)) != []
               && x == Newest(InPeriod(snaps, key, key(x.ts)));
    }
  }

  /** The keep set only names listed snapshots. */
  lemma KeepSetListed(snaps: seq<Snapshot>, policy: Policy)
    ensures forall n | n in KeepSet(snaps, policy) :: n in Names(snaps)
  {
    forall n | n in KeepSet(snaps, policy) ensures n in Names(snaps) {
      SelectedMembers(snaps, KeyOf(Hourly), policy.hourly, n);
      SelectedMembers(snaps, KeyOf(Daily), policy.daily, n);
      SelectedMembers(snaps, KeyOf(Weekly), policy.weekly, n);
      SelectedMembers(snaps, KeyOf(Monthly), policy.monthly, n);
      SelectedMembers(snaps, KeyOf(Yearly), policy.yearly, n);
      NamesMembers(snaps, n);
    }
  }

  // ---------------------------------------------------------------------
  // Kept and deleted partition the listing
  // ---------------------------------------------------------------------

  /** Each listed name is either kept or deleted, never both, and nothing
      else is deleted. */
  lemma Partition(snaps: seq<Snapshot>, policy: Policy, n: string)
    ensures var keep := KeepSet(snaps, policy);
            n in Names(snaps) <==> (n in keep || n in ToDelete(snaps, keep))
    ensures !(n in KeepSet(snaps, policy) && n in ToDelete(snaps, KeepSet(snaps, policy)))
  {
    KeepSetListed(snaps, policy);
    ToDeleteMembers(snaps, KeepSet(snaps, policy), n);
  }

  /** With every count at zero or below, nothing is kept and the whole
      listing is deleted in listing order. */
  lemma {:induction false} AllZeroDeletesAll(snaps: seq<Snapshot>, policy: Policy)
    requires policy.hourly <= 0 && policy.daily <= 0 && policy.weekly <= 0
    requires policy.monthly <= 0 && policy.yearly <= 0
    ensures KeepSet(snaps, policy) == {}
    ensures ToDelete(snaps, KeepSet(snaps, policy)) == Names(snaps)
  {
    SelectedNone(snaps, KeyOf(Hourly), policy.hourly);
    SelectedNone(snaps, KeyOf(Daily), policy.daily);
    SelectedNone(snaps, KeyOf(Weekly), policy.weekly);
    SelectedNone(snaps, KeyOf(Monthly), policy.monthly);
    SelectedNone(snaps, KeyOf(Yearly), policy.yearly);
    DeleteNothingKept(snaps);
  }

  lemma {:induction false} DeleteNothingKept(snaps: seq<Snapshot>)
    ensures ToDelete(snaps, {}) == Names(snaps)
  {
    if snaps != [] {
      DeleteNothingKept(snaps[1..]);
    }
  }

  /** An empty listing keeps nothing and deletes nothing. */
  lemma EmptyListing(policy: Policy)
    ensures KeepSet([], policy) == {}
    ensures ToDelete([], KeepSet([], policy)) == []
  {
    KeepSetListed([], policy);
  }

  // ---------------------------------------------------------------------
  // How many names one granularity keeps
  // ---------------------------------------------------------------------

  /** No two different snapshots share a name (a listing read from one
      directory, where each name carries its own timestamp). */
  predicate UniqueNames(snaps: seq<Snapshot>) {
    forall x, y | x in snaps && y in snaps && x.name == y.name :: x == y
  }

  /** The period of each listed snapshot, in listing order (the insertion
      order of the `defaultdict`). */
  function KeySeq(snaps: seq<Snapshot>, key: Stamp -> Period): (ks: seq<Period>)
    ensures Elems(ks) == Keys(snaps, key)
  {
    if snaps == [] then []
    else
      var rest := KeySeq(snaps[1..], key);
      assert snaps == [snaps[0]] + snaps[1..];
      assert Keys(snaps, key) == {key(snaps[0].ts)} + Keys(snaps[1..], key);
      [key(snaps[0].ts)] + rest
  }

  /** One granularity keeps at most min(count, #periods) names, none for a
      count below one, and exactly that many when names are unique: one per
      kept period. */
  lemma SelectedCount(snaps: seq<Snapshot>, key: Stamp -> Period, count: int)
    ensures |Selected(snaps, key, count)| <= TopSize(count, |Keys(snaps, key)|)
    ensures UniqueNames(snaps) ==> |Selected(snaps, key, count)| == TopSize(count, |Keys(snaps, key)|)
  {
    var periods := SortPeriodsDesc(KeySeq(snaps, key));
    DistinctCount(periods);
    var m := TopSize(count, |periods|);
    TopOfSorted(periods, count);
    SelectedAsPrefix(snaps, key, count, periods, m);
    NewestOfFirstCount(snaps, key, periods, m);
  }

  lemma NewestOfFirstCount(snaps: seq<Snapshot>, key: Stamp -> Period, periods: seq<Period>, m: nat)
    requires m <= |periods| && LatestFirst(periods) && Elems(periods) == Keys(snaps, key)
    ensures |NewestOfFirst(snaps, key, periods, m)| <= m
    ensures UniqueNames(snaps) ==> |NewestOfFirst(snaps, key, periods, m)| == m
  {
    NewestOfFirstAtMost(snaps, key, periods, m);
    if UniqueNames(snaps) {
      NewestOfFirstExactly(snaps, key, periods, m);
    }
  }

  lemma {:induction false} NewestOfFirstAtMost(snaps: seq<Snapshot>, key: Stamp -> Period, periods: seq<Period>, m: nat)
    requires m <= |periods| && Elems(periods) == Keys(snaps, key)
    ensures |NewestOfFirst(snaps, key, periods, m)| <= m
  {
    if m > 0 {
      NewestOfFirstAtMost(snaps, key, periods, m - 1);
      var name := NewestOfFirstStep(snaps, key, periods, m);
      AddOneName(NewestOfFirst(snaps, key, periods, m - 1), name);
    }
  }

  lemma {:induction false} NewestOfFirstExactly(snaps: seq<Snapshot>, key: Stamp -> Period, periods: seq<Period>, m: nat)
    requires m <= |periods| && LatestFirst(periods) && Elems(periods) == Keys(snaps, key)
    requires UniqueNames(snaps)
    ensures |NewestOfFirst(snaps, key, periods, m)| == m
  {
    if m > 0 {
      NewestOfFirstExactly(snaps, key, periods, m - 1);
      var name := NewestOfFirstStep(snaps, key, periods, m);
      FreshName(snaps, key, periods, m);
      AddOneName(NewestOfFirst(snaps, key, periods, m - 1), name);
    }
  }

  /** Each period adds the name of its newest snapshot. */
  lemma NewestOfFirstStep(snaps: seq<Snapshot>, key: Stamp -> Period, periods: seq<Period>, m: nat) returns (name: string)
    requires 0 < m <= |periods| && Elems(periods) == Keys(snaps, key)
    ensures InPeriod(snaps, key, periods[m - 1]) != []
    ensures name == Newest(InPeriod(snaps, key, periods[m - 1])).name
    ensures NewestOfFirst(snaps, key, periods, m) == NewestOfFirst(snaps, key, periods, m - 1) + {name}
  {
    var p := periods[m - 1];
    assert p in Elems(periods);
    InPeriodNonEmpty(snaps, key, p);
    name := Newest(InPeriod(snaps, key, p)).name;
  }

  lemma AddOneName(names: set<string>, n: string)
    ensures |names + {n}| <= |names| + 1
    ensures n !in names ==> |names + {n}| == |names| + 1
  {
    if n in names {
      assert names + {n} == names;
    }
  }

  /** The name kept for the `m`-th period is not among those kept for the
      periods before it. */
  lemma FreshName(snaps: seq<Snapshot>, key: Stamp -> Period, periods: seq<Period>, m: nat)
    requires 0 < m <= |periods| && LatestFirst(periods) && Elems(periods) == Keys(snaps, key)
    requires UniqueNames(snaps)
    requires InPeriod(snaps, key, periods[m - 1]) != []
    ensures Newest(InPeriod(snaps, key, periods[m - 1])).name !in NewestOfFirst(snaps, key, periods, m - 1)
  {
    var name := Newest(InPeriod(snaps, key, periods[m - 1])).name;
    NewestOfFirstMembers(snaps, key, periods, m - 1, name);
    forall k | 0 <= k < m - 1 ensures name !in NewestOf(snaps, key, periods[k]) {
      OtherPeriodName(snaps, key, periods, k, m - 1);
    }
  }

  lemma OtherPeriodName(snaps: seq<Snapshot>, key: Stamp -> Period, periods: seq<Period>, k: nat, j: nat)
    requires k < j < |periods| && LatestFirst(periods) && Elems(periods) == Keys(snaps, key)
    requires UniqueNames(snaps)
    requires InPeriod(snaps, key, periods[j]) != []
    ensures Newest(InPeriod(snaps, key, periods[j])).name !in NewestOf(snaps, key, periods[k])
  {
    var p := periods[j];
    assert periods[k] in Elems(periods);
    InPeriodNonEmpty(snaps, key, periods[k]);
    assert Later(periods[k], p);
    LaterTotal(periods[k], p);
    NewestNamesDiffer(snaps, key, periods[k], p);
  }

  /** With unique names, two different periods keep two different names. */
  lemma NewestNamesDiffer(snaps: seq<Snapshot>, key: Stamp -> Period, p: Period, q: Period)
    requires UniqueNames(snaps) && p != q
    requires InPeriod(snaps, key, p) != [] && InPeriod(snaps, key, q) != []
    ensures Newest(InPeriod(snaps, key, p)).name != Newest(InPeriod(snaps, key, q)).name
  {
    NewestOfPeriod(snaps, key, p);
    NewestOfPeriod(snaps, key, q);
  }

  // ---------------------------------------------------------------------
  // Idempotence
  // ---------------------------------------------------------------------

  /** The listed snapshots whose names are kept, in listing order: what is
      left after the deletions. */
  function KeptOnly(snaps: seq<Snapshot>, keep: set<string>): (kept: seq<Snapshot>)
    ensures |kept| <= |snaps|
  {
    if snaps == [] then []
    else (if snaps[0].name in keep then [snaps[0]] else []) + KeptOnly(snaps[1..], keep)
  }

  lemma {:induction false} KeptOnlyMembers(snaps: seq<Snapshot>, keep: set<string>, x: Snapshot)
    ensures x in KeptOnly(snaps, keep) <==> x in snaps && x.name in keep
  {
    if snaps != [] {
      KeptOnlyMembers(snaps[1..], keep, x);
      assert snaps == [snaps[0]] + snaps[1..];
    }
  }

  /** Filtering by name and grouping by period commute. */
  lemma {:induction false} InPeriodKeptOnly(snaps: seq<Snapshot>, keep: set<string>, key: Stamp -> Period, p: Period)
    ensures InPeriod(KeptOnly(snaps, keep), key, p) == KeptOnly(InPeriod(snaps, key, p), keep)
  {
    if snaps != [] {
      var x := snaps[0];
      InPeriodKeptOnly(snaps[1..], keep, key, p);
      var kept := KeptOnly(snaps[1..], keep);
      var group := InPeriod(snaps[1..], key, p);
      if x.name in keep {
        FrontOf([x], kept);
        assert InPeriod(KeptOnly(snaps, keep), key, p)
            == (if key(x.ts) == p then [x] else []) + InPeriod(kept, key, p);
      }
      if key(x.ts) == p {
        FrontOf([x], group);
        assert KeptOnly(InPeriod(snaps, key, p), keep)
            == (if x.name in keep then [x] else []) + KeptOnly(group, keep);
      } else {
        assert KeptOnly(InPeriod(snaps, key, p), keep) == KeptOnly(group, keep);
      }
      if x.name !in keep {
        assert KeptOnly(snaps, keep) == [] + kept == kept;
        assert InPeriod(KeptOnly(snaps, keep), key, p) == InPeriod(kept, key, p);
      }
    }
  }

  lemma FrontOf(front: seq<Snapshot>, rest: seq<Snapshot>)
    requires |front| == 1
    ensures (front + rest)[0] == front[0] && (front + rest)[1..] == rest
  {
  }

  /** Dropping snapshots other than the newest leaves the newest in place. */
  lemma {:induction false} NewestKeptOnly(group: seq<Snapshot>, keep: set<string>)
    requires group != [] && Newest(group).name in keep
    ensures KeptOnly(group, keep) != [] && Newest(KeptOnly(group, keep)) == Newest(group)
  {
    var x := group[0];
    if |group| > 1 {
      var rest := Newest(group[1..]);
      var tail := KeptOnly(group[1..], keep);
      if rest.At() <= x.At() {
        assert Newest(group) == x;
        assert KeptOnly(group, keep) == [x] + tail;
        if tail != [] {
          FrontOf([x], tail);
          NewestIsNewest(group[1..]);
          KeptOnlyMembers(group[1..], keep, Newest(tail));
          assert Newest(tail).At() <= x.At();
        } else {
          assert KeptOnly(group, keep) == [x];
        }
      } else {
        assert Newest(group) == rest;
        NewestKeptOnly(group[1..], keep);
        if x.name in keep {
          assert KeptOnly(group, keep) == [x] + tail;
          FrontOf([x], tail);
        } else {
          assert KeptOnly(group, keep) == tail;
        }
      }
    } else {
      assert KeptOnly(group, keep) == [x];
    }
  }

  lemma {:induction false} SubsetCard(a: set<Period>, b: set<Period>)
    requires a <= b
    ensures |a| <= |b|
    decreases |b|
  {
    if a != {} {
      var x :| x in a;
      SubsetCard(a - {x}, b - {x});
    }
  }

  /** Fewer periods never raise a period's rank. */
  lemma RankSubset(p: Period, a: set<Period>, b: set<Period>)
    requires a <= b
    ensures Rank(p, a) <= Rank(p, b)
  {
    SubsetCard(set q | q in a && Later(q, p), set q | q in b && Later(q, p));
  }

  /** A granularity whose names are all kept selects them again from the
      kept snapshots alone. */
  lemma SelectedStable(snaps: seq<Snapshot>, key: Stamp -> Period, count: int, keep: set<string>)
    requires Selected(snaps, key, count) <= keep
    ensures Selected(snaps, key, count) <= Selected(KeptOnly(snaps, keep), key, count)
  {
    forall n | n in Selected(snaps, key, count) ensures n in Selected(KeptOnly(snaps, keep), key, count) {
      var p :| p in Top(Keys(snaps, key), count) && InPeriod(snaps, key, p) != []
               && n == Newest(InPeriod(snaps, key, p)).name;
      StillSelected(snaps, key, count, keep, p);
    }
  }

  /** The newest snapshot of a kept period is still the newest of that
      period, and the period still ranks among the `count` most recent. */
  lemma StillSelected(snaps: seq<Snapshot>, key: Stamp -> Period, count: int, keep: set<string>, p: Period)
    requires p in Top(Keys(snaps, key), count) && InPeriod(snaps, key, p) != []
    requires Newest(InPeriod(snaps, key, p)).name in keep
    ensures var kept := KeptOnly(snaps, keep);
            p in Top(Keys(kept, key), count) && InPeriod(kept, key, p) != []
            && Newest(InPeriod(kept, key, p)) == Newest(InPeriod(snaps, key, p))
  {
    var kept := KeptOnly(snaps, keep);
    var x := Newest(InPeriod(snaps, key, p));
    NewestOfPeriod(snaps, key, p);
    KeptOnlyMembers(snaps, keep, x);
    InPeriodKeptOnly(snaps, keep, key, p);
    NewestKeptOnly(InPeriod(snaps, key, p), keep);
    KeysKeptOnly(snaps, keep, key);
    RankSubset(p, Keys(kept, key), Keys(snaps, key));
  }

  lemma KeysKeptOnly(snaps: seq<Snapshot>, keep: set<string>, key: Stamp -> Period)
    ensures Keys(KeptOnly(snaps, keep), key) <= Keys(snaps, key)
  {
    forall q | q in Keys(KeptOnly(snaps, keep), key) ensures q in Keys(snaps, key) {
      var y :| y in KeptOnly(snaps, keep) && key(y.ts) == q;
      KeptOnlyMembers(snaps, keep, y);
    }
  }

  /** Running the policy again on the snapshots it kept keeps every one of
      them and deletes nothing. */
  lemma Idempotent(snaps: seq<Snapshot>, policy: Policy)
    ensures var keep := KeepSet(snaps, policy);
            var kept := KeptOnly(snaps, keep);
            KeepSet(kept, policy) == keep && ToDelete(kept, KeepSet(kept, policy)) == []
  {
    var keep := KeepSet(snaps, policy);
    var kept := KeptOnly(snaps, keep);
    var again := KeepSet(kept, policy);
    KeepSetGrows(snaps, policy);
    KeepSetShrinks(snaps, policy);
    SubsetAntisymmetric(again, keep);
    forall x | x in kept ensures x.name in KeepSet(kept, policy) {
      KeptOnlyMembers(snaps, keep, x);
    }
    AllKeptDeletesNothing(kept, KeepSet(kept, policy));
  }

  lemma SubsetAntisymmetric(a: set<string>, b: set<string>)
    requires a <= b && b <= a
    ensures a == b
  {
  }

  lemma KeepSetGrows(snaps: seq<Snapshot>, policy: Policy)
    ensures var keep := KeepSet(snaps, policy);
            keep <= KeepSet(KeptOnly(snaps, keep), policy)
  {
    var keep := KeepSet(snaps, policy);
    SelectedStable(snaps, KeyOf(Hourly), policy.hourly, keep);
    SelectedStable(snaps, KeyOf(Daily), policy.daily, keep);
    SelectedStable(snaps, KeyOf(Weekly), policy.weekly, keep);
    SelectedStable(snaps, KeyOf(Monthly), policy.monthly, keep);
    SelectedStable(snaps, KeyOf(Yearly), policy.yearly, keep);
  }

  lemma KeepSetShrinks(snaps: seq<Snapshot>, policy: Policy)
    ensures var keep := KeepSet(snaps, policy);
            KeepSet(KeptOnly(snaps, keep), policy) <= keep
  {
    var keep := KeepSet(snaps, policy);
    var kept := KeptOnly(snaps, keep);
    KeepSetListed(kept, policy);
    forall n | n in KeepSet(kept, policy) ensures n in keep {
      NamesMembers(kept, n);
      var x :| x in kept && x.name == n;
      KeptOnlyMembers(snaps, keep, x);
    }
  }

  lemma {:induction false} AllKeptDeletesNothing(snaps: seq<Snapshot>, keep: set<string>)
    requires forall x | x in snaps :: x.name in keep
    ensures ToDelete(snaps, keep) == []
  {
    if snaps != [] {
      assert snaps[0] in snaps;
      AllKeptDeletesNothing(snaps[1..], keep);
    }
  }
}
