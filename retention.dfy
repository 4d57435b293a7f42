/** The retention engine of the snapshot tool
    (packages/bcachefs-snap/bcachefs-snap.py, `prune_snapshots`): which
    snapshots a policy keeps and which it deletes. */
module Retention {
  import opened Calendar

  /** A managed snapshot: its directory name and the timestamp parsed from it. */
  datatype Snapshot = Snapshot(name: string, ts: Stamp) {
    /** Where the snapshot sits in time; `InstantOrder` ties this to the
        comparison of `datetime` values. */
    function At(): int {
      Instant(ts)
    }
  }

  // ---------------------------------------------------------------------
  // Newest-first order
  // ---------------------------------------------------------------------

  /** Each snapshot is no newer than the one before it. */
  predicate NewestFirst(s: seq<Snapshot>) {
    forall i, j | 0 <= i < j < |s| :: s[j].At() <= s[i].At()
  }

  /** Python's stable `sort(key=ts, reverse=True)`: `x` goes in front of the
      first element that is not newer than it. */
  function InsertNewestFirst(x: Snapshot, s: seq<Snapshot>): (r: seq<Snapshot>)
    requires NewestFirst(s)
    ensures NewestFirst(r)
    ensures multiset(r) == multiset(s) + multiset{x}
    ensures r != [] && (r[0] == x || (s != [] && r[0] == s[0]))
  {
    if s == [] || s[0].At() <= x.At() then
      FrontKeepsOrder(x, s);
      [x] + s
    else
      var rest := InsertNewestFirst(x, s[1..]);
      assert s == [s[0]] + s[1..];
      BelowHead(x, s, rest);
      FrontKeepsOrder(s[0], rest);
      [s[0]] + rest
  }

  /** What goes behind the head of a newest-first list is not newer than it. */
  lemma BelowHead(x: Snapshot, s: seq<Snapshot>, rest: seq<Snapshot>)
    requires NewestFirst(s) && s != [] && x.At() < s[0].At()
    requires multiset(rest) == multiset(s[1..]) + multiset{x}
    ensures forall y | y in rest :: y.At() <= s[0].At()
  {
    forall y | y in rest ensures y.At() <= s[0].At() {
      assert y in multiset(rest);
      if y != x {
        assert y in multiset(s[1..]);
        var k :| 0 <= k < |s[1..]| && s[1..][k] == y;
        assert s[k + 1] == y;
      }
    }
  }

  lemma FrontKeepsOrder(x: Snapshot, s: seq<Snapshot>)
    requires NewestFirst(s)
    requires forall y | y in s :: y.At() <= x.At()
    ensures NewestFirst([x] + s)
  {
    var r := [x] + s;
    forall i, j | 0 <= i < j < |r| ensures r[j].At() <= r[i].At() {
      if i > 0 {
        assert r[i] == s[i - 1] && r[j] == s[j - 1];
      } else {
        assert r[j] in s;
      }
    }
  }

  /** `sorted(s, key=ts, reverse=True)`. */
  function SortNewestFirst(s: seq<Snapshot>): (r: seq<Snapshot>)
    ensures NewestFirst(r)
    ensures multiset(r) == multiset(s) && |r| == |s|
  {
    if s == [] then []
    else
      assert s == [s[0]] + s[1..];
      InsertNewestFirst(s[0], SortNewestFirst(s[1..]))
  }

  /** The newest snapshot of a non-empty sequence, the earliest one among
      equally new ones. */
  function Newest(s: seq<Snapshot>): (x: Snapshot)
    requires s != []
    ensures x in s
  {
    if |s| == 1 then s[0]
    else
      var rest := Newest(s[1..]);
      if rest.At() <= s[0].At() then s[0] else rest
  }

  /** No snapshot of `s` is newer than `Newest(s)`, and every snapshot
      before it is strictly older. */
  lemma NewestIsNewest(s: seq<Snapshot>)
    requires s != []
    ensures forall y | y in s :: y.At() <= Newest(s).At()
    ensures exists i | 0 <= i < |s| :: s[i] == Newest(s) && forall j | 0 <= j < i :: s[j].At() < s[i].At()
  {
    NewestIsMax(s);
    NewestIsFirst(s);
  }

  lemma {:induction false} NewestIsMax(s: seq<Snapshot>)
    requires s != []
    ensures forall y | y in s :: y.At() <= Newest(s).At()
  {
    if |s| > 1 {
      NewestIsMax(s[1..]);
      forall y | y in s ensures y.At() <= Newest(s).At() {
        if y != s[0] {
          var k :| 0 <= k < |s| && s[k] == y;
          assert s[1..][k - 1] == y;
        }
      }
    }
  }

  lemma NewestIsFirst(s: seq<Snapshot>)
    requires s != []
    ensures exists i | 0 <= i < |s| :: s[i] == Newest(s) && forall j | 0 <= j < i :: s[j].At() < s[i].At()
  {
    var i := NewestAt(s);
  }

  /** The position of `Newest(s)`: every snapshot before it is older. */
  lemma {:induction false} NewestAt(s: seq<Snapshot>) returns (i: nat)
    requires s != []
    ensures i < |s| && s[i] == Newest(s)
    ensures forall j | 0 <= j < i :: s[j].At() < s[i].At()
  {
    if |s| == 1 {
      return 0;
    }
    var k := NewestAt(s[1..]);
    if s[1..][k].At() <= s[0].At() {
      return 0;
    }
    i := k + 1;
    assert s[i] == s[1..][k];
    forall j | 0 <= j < i ensures s[j].At() < s[i].At() {
      if j > 0 {
        assert s[j] == s[1..][j - 1];
      }
    }
  }

  /** The first element of the stable newest-first sort is the newest
      snapshot, the earliest among ties. */
  lemma {:induction false} SortedHeadIsNewest(s: seq<Snapshot>)
    requires s != []
    ensures SortNewestFirst(s)[0] == Newest(s)
  {
    if |s| > 1 {
      SortedHeadIsNewest(s[1..]);
    }
  }

  // ---------------------------------------------------------------------
  // Calendar periods
  // ---------------------------------------------------------------------

  datatype Granularity = Hourly | Daily | Weekly | Monthly | Yearly

  /** A period key: the tuple the source groups by, padded with zeros to four
      numbers (all keys of one granularity have the same length, so padding
      does not change how they compare). */
  datatype Period = Period(a: int, b: int, c: int, d: int)

  /** Tuple comparison: `p` is a later period than `q`. */
  predicate Later(p: Period, q: Period) {
    || p.a > q.a
    || (p.a == q.a && p.b > q.b)
    || (p.a == q.a && p.b == q.b && p.c > q.c)
    || (p.a == q.a && p.b == q.b && p.c == q.c && p.d > q.d)
  }

  /** The period a timestamp falls in: (Y, M, D, h), (Y, M, D), the ISO 8601
      (year, week), (Y, M) or (Y). */
  function PeriodOf(g: Granularity, t: Stamp): Period {
    match g
    case Hourly => Period(t.year, t.month, t.day, t.hour)
    case Daily => Period(t.year, t.month, t.day, 0)
    case Weekly =>
      var iso := IsoCalendar(t.year, t.month, t.day);
      Period(iso.year, iso.week, 0, 0)
    case Monthly => Period(t.year, t.month, 0, 0)
    case Yearly => Period(t.year, 0, 0, 0)
  }

  /** The periods that hold at least one snapshot. */
  function Keys(snaps: seq<Snapshot>, key: Stamp -> Period): (keys: set<Period>)
    ensures forall x | x in snaps :: key(x.ts) in keys
  {
    set x | x in snaps :: key(x.ts)
  }

  /** The snapshots of one period, in listing order. */
  function InPeriod(snaps: seq<Snapshot>, key: Stamp -> Period, p: Period): seq<Snapshot> {
    if snaps == [] then []
    else if key(snaps[0].ts) == p then [snaps[0]] + InPeriod(snaps[1..], key, p)
    else InPeriod(snaps[1..], key, p)
  }

  /** Every period with a snapshot has a non-empty group. */
  lemma {:induction false} InPeriodNonEmpty(snaps: seq<Snapshot>, key: Stamp -> Period, p: Period)
    ensures InPeriod(snaps, key, p) != [] <==> p in Keys(snaps, key)
  {
    if snaps != [] {
      InPeriodNonEmpty(snaps[1..], key, p);
      assert Keys(snaps, key) == {key(snaps[0].ts)} + Keys(snaps[1..], key) by {
        assert snaps == [snaps[0]] + snaps[1..];
      }
    }
  }

  /** How many periods of `keys` are later than `p`. */
  function Rank(p: Period, keys: set<Period>): nat {
    |set q | q in keys && Later(q, p)|
  }

  /** The `n` most recent periods of `keys`. */
  function Top(keys: set<Period>, n: int): (top: set<Period>)
    ensures top <= keys
  {
    set p | p in keys && Rank(p, keys) < n
  }

  /** The names one granularity keeps: the newest snapshot of each of the
      `count` most recent periods. */
  function Selected(snaps: seq<Snapshot>, key: Stamp -> Period, count: int): set<string> {
    set p | p in Top(Keys(snaps, key), count) && InPeriod(snaps, key, p) != [] :: Newest(InPeriod(snaps, key, p)).name
  }

  lemma LaterTransitive(p: Period, q: Period, r: Period)
    requires Later(p, q) && Later(q, r)
    ensures Later(p, r)
  {
  }

  lemma LaterTotal(p: Period, q: Period)
    ensures Later(p, q) || p == q || Later(q, p)
    ensures !(Later(p, q) && Later(q, p))
  {
  }

  function Elems(ks: seq<Period>): set<Period> {
    set k | k in ks
  }

  /** Later periods first, no period twice. */
  predicate LatestFirst(ks: seq<Period>) {
    forall i, j | 0 <= i < j < |ks| :: Later(ks[i], ks[j])
  }

  function InsertPeriod(p: Period, ks: seq<Period>): (r: seq<Period>)
    requires LatestFirst(ks)
    ensures LatestFirst(r)
    ensures Elems(r) == Elems(ks) + {p}
    ensures r != [] && (r[0] == p || (ks != [] && r[0] == ks[0]))
  {
    if ks == [] || Later(p, ks[0]) then
      FrontKeepsPeriodOrder(p, ks);
      [p] + ks
    else if p == ks[0] then ks
    else
      LaterTotal(p, ks[0]);
      var rest := InsertPeriod(p, ks[1..]);
      assert ks == [ks[0]] + ks[1..];
      forall k | k in rest ensures Later(ks[0], k) {
        assert k in Elems(rest);
        if k != p {
          assert k in ks[1..];
        }
      }
      FrontKeepsPeriodOrder(ks[0], rest);
      assert Elems([ks[0]] + rest) == {ks[0]} + Elems(rest);
      assert Elems(ks) == {ks[0]} + Elems(ks[1..]);
      [ks[0]] + rest
  }

  lemma FrontKeepsPeriodOrder(p: Period, ks: seq<Period>)
    requires LatestFirst(ks)
    requires ks != [] ==> Later(p, ks[0])
    requires forall k | k in ks :: Later(p, k)
    ensures LatestFirst([p] + ks)
  {
    var r := [p] + ks;
    forall i, j | 0 <= i < j < |r| ensures Later(r[i], r[j]) {
      if i > 0 {
        assert r[i] == ks[i - 1] && r[j] == ks[j - 1];
      } else {
        assert r[j] in ks;
      }
    }
  }

  /** `sorted(keys, reverse=True)` for the keys of a dictionary. */
  function SortPeriodsDesc(ks: seq<Period>): (r: seq<Period>)
    ensures LatestFirst(r)
    ensures Elems(r) == Elems(ks)
  {
    if ks == [] then []
    else
      assert ks == [ks[0]] + ks[1..];
      InsertPeriod(ks[0], SortPeriodsDesc(ks[1..]))
  }

  /** Keys without repetition have as many elements as their sequence. */
  lemma {:induction false} DistinctCount(ks: seq<Period>)
    requires LatestFirst(ks)
    ensures |Elems(ks)| == |ks|
  {
    if ks != [] {
      DistinctCount(ks[1..]);
      assert Elems(ks) == {ks[0]} + Elems(ks[1..]);
      forall i | 1 <= i < |ks| ensures ks[i] != ks[0] {
        assert Later(ks[0], ks[i]);
      }
      assert ks[0] !in Elems(ks[1..]);
    }
  }

  /** In a latest-first list of keys, the key at index `j` has exactly `j`
      later keys. */
  lemma RankInSorted(ks: seq<Period>, j: nat)
    requires LatestFirst(ks) && j < |ks|
    ensures Rank(ks[j], Elems(ks)) == j
  {
    var later := set q | q in Elems(ks) && Later(q, ks[j]);
    forall q | q in later ensures q in Elems(ks[..j]) {
      var i :| 0 <= i < |ks| && ks[i] == q;
      assert i < j;
    }
    forall q | q in Elems(ks[..j]) ensures q in later {
      var i :| 0 <= i < j && ks[..j][i] == q;
      assert Later(ks[i], ks[j]);
    }
    assert later == Elems(ks[..j]);
    DistinctCount(ks[..j]);
  }

  /** The `n` most recent periods are the first `n` of the latest-first
      list (all of them when there are fewer). */
  lemma TopOfSorted(ks: seq<Period>, n: int)
    requires LatestFirst(ks)
    ensures Top(Elems(ks), n) == Elems(ks[..TopSize(n, |ks|)])
  {
    var m := TopSize(n, |ks|);
    forall p | p in Top(Elems(ks), n) ensures p in Elems(ks[..m]) {
      var j :| 0 <= j < |ks| && ks[j] == p;
      RankInSorted(ks, j);
      assert ks[..m][j] == p;
    }
    forall p | p in Elems(ks[..m]) ensures p in Top(Elems(ks), n) {
      var j :| 0 <= j < m && ks[..m][j] == p;
      RankInSorted(ks, j);
    }
  }

  /** How many periods a count of `n` selects out of `k`: min(n, k), and none
      for a count below one. */
  function TopSize(n: int, k: nat): (m: nat)
    ensures m <= k
    ensures n <= 0 ==> m == 0
    ensures n > 0 ==> m == if n < k then n else k
  {
    if n <= 0 then 0 else if n < k then n else k
  }

  lemma {:induction false} InPeriodSnoc(s: seq<Snapshot>, x: Snapshot, key: Stamp -> Period, p: Period)
    ensures InPeriod(s + [x], key, p)
         == InPeriod(s, key, p) + (if key(x.ts) == p then [x] else [])
  {
    if s != [] {
      assert (s + [x])[1..] == s[1..] + [x];
      InPeriodSnoc(s[1..], x, key, p);
    }
  }

  lemma KeysSnoc(s: seq<Snapshot>, x: Snapshot, key: Stamp -> Period)
    ensures Keys(s + [x], key) == Keys(s, key) + {key(x.ts)}
  {
    forall p | p in Keys(s + [x], key) ensures p in Keys(s, key) + {key(x.ts)} {
      var y :| y in s + [x] && key(y.ts) == p;
      if y != x {
        assert y in s;
      }
    }
  }

  /** The grouping loop of `apply_period_retention`: a dictionary from each
      period to its snapshots in listing order, and its keys in the order
      they were first seen. */
  method GroupByPeriod(snaps: seq<Snapshot>, key: Stamp -> Period)
    returns (groups: map<Period, seq<Snapshot>>, order: seq<Period>)
    ensures Elems(order) == groups.Keys == Keys(snaps, key)
    ensures forall p | p in groups :: groups[p] == InPeriod(snaps, key, p)
  {
    groups := map[];
    order := [];
    var i := 0;
    while i < |snaps|
      invariant 0 <= i <= |snaps|
      invariant Elems(order) == groups.Keys == Keys(snaps[..i], key)
      invariant forall p | p in groups :: groups[p] == InPeriod(snaps[..i], key, p)
    {
      var x := snaps[i];
      var p := key(x.ts);
      GroupStep(snaps[..i], x, key, groups, order);
      assert snaps[..i + 1] == snaps[..i] + [x];
      if p in groups {
        groups := groups[p := groups[p] + [x]];
      } else {
        groups := groups[p := [x]];
        order := order + [p];
      }
      i := i + 1;
    }
    assert snaps[..i] == snaps;
  }

  /** One turn of the grouping loop keeps the dictionary equal to the
      grouping of the snapshots seen so far. */
  lemma GroupStep(seen: seq<Snapshot>, x: Snapshot, key: Stamp -> Period,
                  groups: map<Period, seq<Snapshot>>, order: seq<Period>)
    requires Elems(order) == groups.Keys == Keys(seen, key)
    requires forall p | p in groups :: groups[p] == InPeriod(seen, key, p)
    ensures var p := key(x.ts);
            var groups' := if p in groups then groups[p := groups[p] + [x]] else groups[p := [x]];
            var order' := if p in groups then order else order + [p];
            && Elems(order') == groups'.Keys == Keys(seen + [x], key)
            && forall q | q in groups' :: groups'[q] == InPeriod(seen + [x], key, q)
  {
    var p := key(x.ts);
    KeysSnoc(seen, x, key);
    var groups' := if p in groups then groups[p := groups[p] + [x]] else groups[p := [x]];
    forall q | q in groups' ensures groups'[q] == InPeriod(seen + [x], key, q) {
      InPeriodSnoc(seen, x, key, q);
      if q != p {
        assert groups'[q] == groups[q];
      } else if p !in groups {
        InPeriodNonEmpty(seen, key, p);
      }
    }
    if p !in groups {
      assert Elems(order + [p]) == Elems(order) + {p};
    }
  }

  /** `apply_period_retention`: group the snapshots by period, then keep
      the newest snapshot of each of the `count` latest periods. */
  method ApplyPeriodRetention(snaps: seq<Snapshot>, count: int, key: Stamp -> Period, keep: set<string>)
    returns (kept: set<string>)
    ensures kept == keep + Selected(snaps, key, count)
  {
    if count <= 0 {
      assert Top(Keys(snaps, key), count) == {};
      return keep;
    }
    var groups, order := GroupByPeriod(snaps, key);
    var periods := SortPeriodsDesc(order);
    kept := KeepLatestPeriods(snaps, key, groups, periods, count, keep);
    TopOfSorted(periods, count);
    SelectedAsPrefix(snaps, key, count, periods, TopSize(count, |periods|));
  }

  /** The `kept_periods` loop: walk the periods latest first and keep the
      newest snapshot of each until `count` periods are kept. */
  method KeepLatestPeriods(snaps: seq<Snapshot>, key: Stamp -> Period, groups: map<Period, seq<Snapshot>>,
                           periods: seq<Period>, count: int, keep: set<string>)
    returns (kept: set<string>)
    requires Elems(periods) == groups.Keys == Keys(snaps, key)
    requires forall p | p in groups :: groups[p] == InPeriod(snaps, key, p)
    ensures kept == keep + NewestOfFirst(snaps, key, periods, TopSize(count, |periods|))
  {
    kept := keep;
    var keptPeriods := 0;
    var j := 0;
    while j < |periods|
      invariant 0 <= j <= |periods| && keptPeriods == j && j <= (if count > 0 then count else 0)
      invariant KeptSoFar(snaps, key, periods, j, keep, kept)
    {
      if keptPeriods >= count {
        break;
      }
      var group := SortNewestFirst(groups[periods[j]]);
      KeptStep(snaps, key, groups, periods, j, keep, kept);
      if group != [] {
        kept := kept + {group[0].name};
        keptPeriods := keptPeriods + 1;
      }
      j := j + 1;
    }
    assert j == TopSize(count, |periods|);
  }

  lemma KeptStep(snaps: seq<Snapshot>, key: Stamp -> Period, groups: map<Period, seq<Snapshot>>,
                 periods: seq<Period>, j: nat, keep: set<string>, kept: set<string>)
    requires j < |periods| && Elems(periods) == groups.Keys == Keys(snaps, key)
    requires forall p | p in groups :: groups[p] == InPeriod(snaps, key, p)
    requires KeptSoFar(snaps, key, periods, j, keep, kept)
    ensures periods[j] in groups && SortNewestFirst(groups[periods[j]]) != []
    ensures KeptSoFar(snaps, key, periods, j + 1, keep, kept + {SortNewestFirst(groups[periods[j]])[0].name})
  {
    KeepStep(snaps, key, groups, periods, j);
    UnionAssoc(keep, NewestOfFirst(snaps, key, periods, j), {SortNewestFirst(groups[periods[j]])[0].name});
  }

  ghost predicate KeptSoFar(snaps: seq<Snapshot>, key: Stamp -> Period, periods: seq<Period>, j: nat,
                            keep: set<string>, kept: set<string>)
    requires j <= |periods|
  {
    kept == keep + NewestOfFirst(snaps, key, periods, j)
  }

  lemma UnionAssoc<T>(a: set<T>, b: set<T>, c: set<T>)
    ensures a + b + c == a + (b + c)
  {
  }

  /** The names of the newest snapshots of the first `m` listed periods. */
  function NewestOfFirst(snaps: seq<Snapshot>, key: Stamp -> Period, periods: seq<Period>, m: nat): set<string>
    requires m <= |periods|
  {
    if m == 0 then {}
    else NewestOfFirst(snaps, key, periods, m - 1) + NewestOf(snaps, key, periods[m - 1])
  }

  /** The name kept for one period: that of its newest snapshot, if it has any. */
  function NewestOf(snaps: seq<Snapshot>, key: Stamp -> Period, p: Period): set<string> {
    var group := InPeriod(snaps, key, p);
    if group != [] then {Newest(group).name} else {}
  }

  lemma {:induction false} NewestOfFirstMembers(snaps: seq<Snapshot>, key: Stamp -> Period, periods: seq<Period>, m: nat, n: string)
    requires m <= |periods|
    ensures n in NewestOfFirst(snaps, key, periods, m)
        <==> exists k | 0 <= k < m :: n in NewestOf(snaps, key, periods[k])
  {
    if m > 0 {
      NewestOfFirstMembers(snaps, key, periods, m - 1, n);
      if k :| 0 <= k < m && n in NewestOf(snaps, key, periods[k]) {
        if k < m - 1 {
          assert exists k' | 0 <= k' < m - 1 :: n in NewestOf(snaps, key, periods[k']);
        }
      }
    }
  }

  lemma KeepStep(snaps: seq<Snapshot>, key: Stamp -> Period, groups: map<Period, seq<Snapshot>>,
                 periods: seq<Period>, j: nat)
    requires j < |periods| && Elems(periods) == groups.Keys == Keys(snaps, key)
    requires forall p | p in groups :: groups[p] == InPeriod(snaps, key, p)
    ensures periods[j] in groups && SortNewestFirst(groups[periods[j]]) != []
    ensures NewestOfFirst(snaps, key, periods, j + 1)
         == NewestOfFirst(snaps, key, periods, j) + {SortNewestFirst(groups[periods[j]])[0].name}
  {
    assert periods[j] in Elems(periods);
    InPeriodNonEmpty(snaps, key, periods[j]);
    SortedHeadIsNewest(groups[periods[j]]);
  }

  lemma SelectedAsPrefix(snaps: seq<Snapshot>, key: Stamp -> Period, count: int, periods: seq<Period>, m: nat)
    requires m <= |periods|
    requires Top(Keys(snaps, key), count) == Elems(periods[..m])
    ensures Selected(snaps, key, count) == NewestOfFirst(snaps, key, periods, m)
  {
    forall n ensures n in Selected(snaps, key, count) <==> n in NewestOfFirst(snaps, key, periods, m) {
      if n in Selected(snaps, key, count) {
        SelectedInPrefix(snaps, key, count, periods, m, n);
      }
      if n in NewestOfFirst(snaps, key, periods, m) {
        PrefixSelected(snaps, key, count, periods, m, n);
      }
    }
  }

  lemma SelectedInPrefix(snaps: seq<Snapshot>, key: Stamp -> Period, count: int, periods: seq<Period>, m: nat, n: string)
    requires m <= |periods|
    requires Top(Keys(snaps, key), count) == Elems(periods[..m])
    requires n in Selected(snaps, key, count)
    ensures n in NewestOfFirst(snaps, key, periods, m)
  {
    NewestOfFirstMembers(snaps, key, periods, m, n);
    var p := SelectedPeriod(snaps, key, count, n);
    var k := PrefixIndex(periods, m, p);
    assert n in NewestOf(snaps, key, periods[k]);
  }

  /** A selected name is that of the newest snapshot of a top period. */
  lemma SelectedPeriod(snaps: seq<Snapshot>, key: Stamp -> Period, count: int, n: string) returns (p: Period)
    requires n in Selected(snaps, key, count)
    ensures p in Top(Keys(snaps, key), count) && InPeriod(snaps, key, p) != []
    ensures n == Newest(InPeriod(snaps, key, p)).name
  {
    p :| p in Top(Keys(snaps, key), count) && InPeriod(snaps, key, p) != []
         && n == Newest(InPeriod(snaps, key, p)).name;
  }

  lemma PrefixIndex(periods: seq<Period>, m: nat, p: Period) returns (k: nat)
    requires m <= |periods| && p in Elems(periods[..m])
    ensures k < m && periods[k] == p
  {
    k :| 0 <= k < m && periods[..m][k] == p;
  }

  lemma PrefixSelected(snaps: seq<Snapshot>, key: Stamp -> Period, count: int, periods: seq<Period>, m: nat, n: string)
    requires m <= |periods|
    requires Top(Keys(snaps, key), count) == Elems(periods[..m])
    requires n in NewestOfFirst(snaps, key, periods, m)
    ensures n in Selected(snaps, key, count)
  {
    NewestOfFirstMembers(snaps, key, periods, m, n);
    var k :| 0 <= k < m && n in NewestOf(snaps, key, periods[k]);
    InPrefix(periods, m, k);
  }

  lemma InPrefix(periods: seq<Period>, m: nat, k: nat)
    requires k < m <= |periods|
    ensures periods[k] in Elems(periods[..m])
  {
    assert periods[..m][k] == periods[k];
  }

  // ---------------------------------------------------------------------
  // The policy, the keep set and the delete list
  // ---------------------------------------------------------------------

  /** How many periods of each granularity to keep. */
  datatype Policy = Policy(hourly: int, daily: int, weekly: int, monthly: int, yearly: int)

  function KeyOf(g: Granularity): Stamp -> Period {
    (t: Stamp) => PeriodOf(g, t)
  }

  /** The names a policy keeps: the union of the five selections, added
      hourly to yearly to a set that starts empty. */
  function KeepSet(snaps: seq<Snapshot>, policy: Policy): set<string> {
    {}
      + Selected(snaps, KeyOf(Hourly), policy.hourly)
      + Selected(snaps, KeyOf(Daily), policy.daily)
      + Selected(snaps, KeyOf(Weekly), policy.weekly)
      + Selected(snaps, KeyOf(Monthly), policy.monthly)
      + Selected(snaps, KeyOf(Yearly), policy.yearly)
  }

  /** The five guarded calls of `prune_snapshots`, hourly to yearly, each
      adding to the same set. */
  method KeepNames(snaps: seq<Snapshot>, policy: Policy) returns (keep: set<string>)
    ensures keep == KeepSet(snaps, policy)
  {
    keep := {};
    keep := RetainIfCounted(snaps, policy.hourly, KeyOf(Hourly), keep);
    keep := RetainIfCounted(snaps, policy.daily, KeyOf(Daily), keep);
    keep := RetainIfCounted(snaps, policy.weekly, KeyOf(Weekly), keep);
    keep := RetainIfCounted(snaps, policy.monthly, KeyOf(Monthly), keep);
    keep := RetainIfCounted(snaps, policy.yearly, KeyOf(Yearly), keep);
  }

  /** One guarded call: the retention pass runs only for a positive count,
      and a count of zero or less keeps nothing more. */
  method RetainIfCounted(snaps: seq<Snapshot>, count: int, key: Stamp -> Period, keep: set<string>)
    returns (kept: set<string>)
    ensures kept == keep + Selected(snaps, key, count)
  {
    if count > 0 {
      kept := ApplyPeriodRetention(snaps, count, key, keep);
    } else {
      SelectedNone(snaps, key, count);
      kept := keep;
    }
  }

  /** A count of zero or less selects nothing. */
  lemma SelectedNone(snaps: seq<Snapshot>, key: Stamp -> Period, count: int)
    ensures count <= 0 ==> Selected(snaps, key, count) == {}
  {
    if count <= 0 {
      assert Top(Keys(snaps, key), count) == {};
    }
  }

  /** The listed names not kept, in listing order. */
  function ToDelete(snaps: seq<Snapshot>, keep: set<string>): (names: seq<string>)
    ensures forall n | n in names :: n !in keep
    ensures |names| <= |snaps|
  {
    if snaps == [] then []
    else (if snaps[0].name in keep then [] else [snaps[0].name]) + ToDelete(snaps[1..], keep)
  }

  /** The loop that builds `snapshots_to_delete_names`. */
  method PlanDeletions(snaps: seq<Snapshot>, keep: set<string>) returns (names: seq<string>)
    ensures names == ToDelete(snaps, keep)
  {
    names := [];
    var i := 0;
    while i < |snaps|
      invariant 0 <= i <= |snaps|
      invariant names == ToDelete(snaps[..i], keep)
    {
      ToDeleteSnoc(snaps[..i], snaps[i], keep);
      assert snaps[..i + 1] == snaps[..i] + [snaps[i]];
      if snaps[i].name !in keep {
        names := names + [snaps[i].name];
      }
      i := i + 1;
    }
    assert snaps[..i] == snaps;
  }

  lemma {:induction false} ToDeleteSnoc(s: seq<Snapshot>, x: Snapshot, keep: set<string>)
    ensures ToDelete(s + [x], keep) == ToDelete(s, keep) + (if x.name in keep then [] else [x.name])
  {
    if s != [] {
      assert (s + [x])[1..] == s[1..] + [x];
      ToDeleteSnoc(s[1..], x, keep);
    }
  }

  /** The names of a listing, in order. */
  function Names(snaps: seq<Snapshot>): (names: seq<string>)
    ensures |names| == |snaps|
    ensures forall i | 0 <= i < |snaps| :: names[i] == snaps[i].name
  {
    if snaps == [] then [] else [snaps[0].name] + Names(snaps[1..])
  }

  /** A name is deleted exactly when it is listed and not kept. */
  lemma {:induction false} ToDeleteMembers(snaps: seq<Snapshot>, keep: set<string>, n: string)
    ensures n in ToDelete(snaps, keep) <==> n in Names(snaps) && n !in keep
  {
    if snaps != [] {
      ToDeleteMembers(snaps[1..], keep, n);
      assert Names(snaps) == [snaps[0].name] + Names(snaps[1..]);
    }
  }
}
