/** Matching block devices to their `/dev/disk/by-id` names
    (packages/remote-drive-info/remote-drive-info.py, `parse_by_id_links`):
    the `ls -la /dev/disk/by-id` listing is read in three passes — collect
    the link names of each whole disk, choose one per disk by priority, then
    name the partitions. */
module ByIdLinks {
  import opened Wrappers
  import opened Text
  import opened Seqs

  const ByIdDir: string := "/dev/disk/by-id/"

  /** One symbolic link of the listing: its name and the device it points
      at (the last path component of the link target). */
  datatype Link = Link(idPath: string, target: string)

  /** A line counts when it has at least 11 white-space separated fields
      and contains `->`; the link name is field 8 and the target field 10. */
  function LinkOf(line: string): Option<Link> {
    var parts := SplitWs(line);
    if |parts| >= 11 && Contains(line, "->") then Some(Link(parts[8], LastPart(parts[10], '/')))
    else None
  }

  /** The links of the listing, in listing order. */
  function Links(lines: seq<string>): (links: seq<Link>)
    ensures |links| <= |lines|
  {
    Keep(lines, LinkOf)
  }

  // ---------------------------------------------------------------------
  // Which targets are partitions
  // ---------------------------------------------------------------------

  /** The partition test as written, and a corrected one under which an
      NVMe namespace such as `nvme0n1` is a whole disk. */
  datatype Scheme = AsWritten | Corrected

  predicate EndsInDigit123(t: string) {
    EndsWith(t, "1") || EndsWith(t, "2") || EndsWith(t, "3")
  }

  predicate EndsInP123(t: string) {
    EndsWith(t, "p1") || EndsWith(t, "p2") || EndsWith(t, "p3")
  }

  /** `target.endswith(('p1', 'p2', 'p3', '1', '2', '3'))` as written; the
      corrected test asks NVMe names for the `p<n>` form. */
  predicate IsPartition(scheme: Scheme, t: string) {
    match scheme
    case AsWritten => EndsInP123(t) || EndsInDigit123(t)
    case Corrected => if StartsWith(t, "nvme") then EndsInP123(t) else EndsInDigit123(t)
  }

  /** `target.rstrip('p123').rstrip('123')` as written; the corrected form
      drops the `p<n>` of an NVMe partition. */
  function Parent(scheme: Scheme, t: string): string {
    match scheme
    case AsWritten => RStripChars(RStripChars(t, {'p', '1', '2', '3'}), {'1', '2', '3'})
    case Corrected =>
      if StartsWith(t, "nvme") && |t| >= 2 then t[..|t| - 2] else RStripChars(t, {'1', '2', '3'})
  }

  // ---------------------------------------------------------------------
  // First pass: the link names of each whole disk
  // ---------------------------------------------------------------------

  /** Some link of the listing points at `t`. */
  predicate Targets(links: seq<Link>, t: string) {
    exists i | 0 <= i < |links| :: links[i].target == t
  }

  /** The names of the links pointing at `t`, in listing order. */
  function PathsTo(links: seq<Link>, t: string): (paths: seq<string>)
    ensures |paths| <= |links|
  {
    if links == [] then []
    else
      var init := PathsTo(links[..|links| - 1], t);
      var l := links[|links| - 1];
      if l.target == t then init + [l.idPath] else init
  }

  /** One link of the first pass: a whole-disk target gets the link name
      appended to its list, started empty the first time. */
  function AddEntry(m: map<string, seq<string>>, l: Link, scheme: Scheme): map<string, seq<string>> {
    if IsPartition(scheme, l.target) then m
    else m[l.target := (if l.target in m then m[l.target] else []) + [l.idPath]]
  }

  /** `all_entries` after the first pass. */
  function Entries(links: seq<Link>, scheme: Scheme): (m: map<string, seq<string>>)
    ensures forall t | t in m :: m[t] != []
  {
    if links == [] then map[]
    else AddEntry(Entries(links[..|links| - 1], scheme), links[|links| - 1], scheme)
  }

  /** The first pass records exactly the non-partition targets, each with
      all its link names in listing order. */
  lemma {:induction false} EntriesAre(links: seq<Link>, scheme: Scheme, t: string)
    ensures t in Entries(links, scheme) <==> !IsPartition(scheme, t) && PathsTo(links, t) != []
    ensures t in Entries(links, scheme) ==> Entries(links, scheme)[t] == PathsTo(links, t)
  {
    if links != [] {
      EntriesAre(links[..|links| - 1], scheme, t);
    }
  }

  // ---------------------------------------------------------------------
  // Second pass: one name per whole disk
  // ---------------------------------------------------------------------

  predicate IsAta(p: string) {
    StartsWith(p, "ata-")
  }

  predicate IsNvmeModel(p: string) {
    StartsWith(p, "nvme-") && '_' in p && !EndsWith(p, "_1") && !EndsWith(p, "_2")
  }

  predicate IsNvme(p: string) {
    StartsWith(p, "nvme-")
  }

  /** The first element satisfying `f`. */
  function First(xs: seq<string>, f: string -> bool): Option<string> {
    if xs == [] then None
    else if f(xs[0]) then Some(xs[0])
    else First(xs[1..], f)
  }

  /** The position of `First`'s answer: nothing before it satisfies `f`. */
  lemma {:induction false} FirstAt(xs: seq<string>, f: string -> bool) returns (i: int)
    ensures First(xs, f).None? ==> i == -1 && forall j | 0 <= j < |xs| :: !f(xs[j])
    ensures First(xs, f).Some? ==>
              0 <= i < |xs| && xs[i] == First(xs, f).value && f(xs[i])
              && forall j | 0 <= j < i :: !f(xs[j])
  {
    if xs == [] {
      i := -1;
    } else if f(xs[0]) {
      i := 0;
    } else {
      var k := FirstAt(xs[1..], f);
      i := if k == -1 then -1 else k + 1;
      if k != -1 {
        forall j | 0 <= j < i ensures !f(xs[j]) {
          if j > 0 {
            assert xs[j] == xs[1..][j - 1];
          }
        }
      } else {
        forall j | 0 <= j < |xs| ensures !f(xs[j]) {
          if j > 0 {
            assert xs[j] == xs[1..][j - 1];
          }
        }
      }
    }
  }

  /** The choice for one whole disk: the first `ata-` name, else the first
      `nvme-` name with a model and serial (a `_`, and no `_1`/`_2`
      namespace suffix), else the first `nvme-` name, else the first name. */
  function Prefer(paths: seq<string>): string
    requires paths != []
  {
    var ata := First(paths, IsAta);
    if ata.Some? then ata.value
    else
      var model := First(paths, IsNvmeModel);
      if model.Some? then model.value
      else
        var nvme := First(paths, IsNvme);
        if nvme.Some? then nvme.value else paths[0]
  }

  /** The priority classes of a link name, best first. */
  function Rank(p: string): nat {
    if IsAta(p) then 0 else if IsNvmeModel(p) then 1 else if IsNvme(p) then 2 else 3
  }

  /** The choice is the first name of the best priority class present. */
  lemma PreferIsBest(paths: seq<string>)
    requires paths != []
    ensures exists i | 0 <= i < |paths| ::
              && Prefer(paths) == paths[i]
              && (forall j | 0 <= j < |paths| :: Rank(paths[i]) <= Rank(paths[j]))
              && (forall j | 0 <= j < i :: Rank(paths[j]) > Rank(paths[i]))
  {
    var a := FirstAt(paths, IsAta);
    var b := FirstAt(paths, IsNvmeModel);
    var c := FirstAt(paths, IsNvme);
    var i: int;
    if a != -1 {
      i := a;
    } else if b != -1 {
      i := b;
    } else if c != -1 {
      i := c;
    } else {
      i := 0;
    }
    assert Prefer(paths) == paths[i];
    assert forall j | 0 <= j < |paths| :: Rank(paths[i]) <= Rank(paths[j]);
    assert forall j | 0 <= j < i :: Rank(paths[j]) > Rank(paths[i]);
  }

  /** `by_id_map` after the second pass. */
  function WholeDisks(entries: map<string, seq<string>>): map<string, string>
    requires forall t | t in entries :: entries[t] != []
  {
    map t | t in entries :: ByIdDir + Prefer(entries[t])
  }

  // ---------------------------------------------------------------------
  // Third pass: partitions
  // ---------------------------------------------------------------------

  /** One line of the third pass. A partition not yet named takes, when its
      parent disk is named, the first listing line mentioning both the
      partition and the parent name's prefix (`ata`, `nvme`, ...); field 8
      of that line is the name, and a line with fewer fields is the
      `IndexError` (`None`). Otherwise the partition takes this line's own
      link name. */
  function PartitionStep(l: Link, lines: seq<string>, scheme: Scheme, m: map<string, string>)
    : Option<map<string, string>>
  {
    if !IsPartition(scheme, l.target) || l.target in m then Some(m)
    else
      var parent := Parent(scheme, l.target);
      if parent !in m then Some(m[l.target := ByIdDir + l.idPath])
      else
        var prefix := Split(LastPart(m[parent], '/'), '-')[0];
        match FirstMention(lines, l.target, prefix)
        case None => Some(m[l.target := ByIdDir + l.idPath])
        case Some(p) =>
          var fields := SplitWs(p);
          if |fields| < 9 then None else Some(m[l.target := ByIdDir + fields[8]])
  }

  /** `[p for p in lines if target in p and prefix in p]`, first element. */
  function FirstMention(lines: seq<string>, target: string, prefix: string): Option<string> {
    First(lines, p => Contains(p, target) && Contains(p, prefix))
  }

  /** The third pass over the links in listing order. */
  function PartitionPass(links: seq<Link>, lines: seq<string>, scheme: Scheme, m0: map<string, string>)
    : Option<map<string, string>>
  {
    if links == [] then Some(m0)
    else
      match PartitionPass(links[..|links| - 1], lines, scheme, m0)
      case None => None
      case Some(m) => PartitionStep(links[|links| - 1], lines, scheme, m)
  }

  /** `parse_by_id_links` on the lines of the listing. */
  function ByIdMap(lines: seq<string>, scheme: Scheme): Option<map<string, string>> {
    var links := Links(lines);
    PartitionPass(links, lines, scheme, WholeDisks(Entries(links, scheme)))
  }

  /** The third pass never replaces an entry, and adds one for every
      partition target it meets and for nothing else. */
  lemma {:induction false} PartitionPassKeeps(links: seq<Link>, lines: seq<string>, scheme: Scheme,
                                              m0: map<string, string>)
    requires PartitionPass(links, lines, scheme, m0).Some?
    ensures var m := PartitionPass(links, lines, scheme, m0).value;
            && (forall t | t in m0 :: t in m && m[t] == m0[t])
            && (forall i | 0 <= i < |links| && IsPartition(scheme, links[i].target) :: links[i].target in m)
            && (forall t | t in m && t !in m0 ::
                  IsPartition(scheme, t) && Targets(links, t))
  {
    if links != [] {
      var init := links[..|links| - 1];
      PartitionPassKeeps(init, lines, scheme, m0);
      var m := PartitionPass(init, lines, scheme, m0).value;
      var l := links[|links| - 1];
      var m' := PartitionPass(links, lines, scheme, m0).value;
      PartitionStepKeeps(l, lines, scheme, m, m');
      forall i | 0 <= i < |links| && IsPartition(scheme, links[i].target)
        ensures links[i].target in m'
      {
        if i < |links| - 1 {
          assert links[i] == init[i];
        }
      }
      forall t | t in m' && t !in m0
        ensures IsPartition(scheme, t) && Targets(links, t)
      {
        if t in m {
          var i :| 0 <= i < |init| && init[i].target == t;
          assert links[i] == init[i];
        } else {
          assert links[|links| - 1].target == t;
        }
      }
    }
  }

  /** One step of the third pass keeps every entry and adds at most the
      link's own target, and only when that is a partition. */
  lemma PartitionStepKeeps(l: Link, lines: seq<string>, scheme: Scheme, m: map<string, string>,
                           m': map<string, string>)
    requires PartitionStep(l, lines, scheme, m) == Some(m')
    ensures forall t | t in m :: t in m' && m'[t] == m[t]
    ensures forall t | t in m' && t !in m :: t == l.target && IsPartition(scheme, t)
    ensures IsPartition(scheme, l.target) ==> l.target in m'
  {
  }

  /** Once the third pass fails it stays failed. */
  lemma {:induction false} PartitionPassFails(links: seq<Link>, more: seq<Link>, lines: seq<string>,
                                              scheme: Scheme, m0: map<string, string>)
    requires PartitionPass(links, lines, scheme, m0).None?
    ensures PartitionPass(links + more, lines, scheme, m0).None?
    decreases |more|
  {
    if more != [] {
      PartitionPassFails(links, more[..|more| - 1], lines, scheme, m0);
      InitOfAppend(links, more);
    } else {
      assert links + more == links;
    }
  }

  /** Every whole-disk target gets the link name of the best priority
      class, whatever the partitions do. */
  lemma WholeDiskChoice(lines: seq<string>, scheme: Scheme, t: string)
    requires ByIdMap(lines, scheme).Some?
    requires !IsPartition(scheme, t) && PathsTo(Links(lines), t) != []
    ensures var m := ByIdMap(lines, scheme).value;
            t in m && m[t] == ByIdDir + Prefer(PathsTo(Links(lines), t))
  {
    var links := Links(lines);
    var entries := Entries(links, scheme);
    EntriesAre(links, scheme, t);
    PartitionPassKeeps(links, lines, scheme, WholeDisks(entries));
  }

  /** The map names exactly the targets of the listing's links. */
  lemma ByIdMapDomain(lines: seq<string>, scheme: Scheme, t: string)
    requires ByIdMap(lines, scheme).Some?
    ensures t in ByIdMap(lines, scheme).value <==> Targets(Links(lines), t)
  {
    var links := Links(lines);
    var entries := Entries(links, scheme);
    var m0 := WholeDisks(entries);
    var m := ByIdMap(lines, scheme).value;
    assert m == PartitionPass(links, lines, scheme, m0).value;
    assert t in m0 <==> t in entries;
    EntriesAre(links, scheme, t);
    PartitionPassKeeps(links, lines, scheme, m0);
    if t in m {
      if t in m0 {
        PathsToFrom(links, t);
      }
    } else {
      forall i | 0 <= i < |links| ensures links[i].target != t {
        if links[i].target == t && !IsPartition(scheme, t) {
          PathsToHas(links, t, i);
        }
      }
    }
  }

  lemma {:induction false} PathsToHas(links: seq<Link>, t: string, i: nat)
    requires i < |links| && links[i].target == t
    ensures PathsTo(links, t) != []
  {
    if i < |links| - 1 {
      PathsToHas(links[..|links| - 1], t, i);
    }
  }

  lemma {:induction false} PathsToFrom(links: seq<Link>, t: string)
    requires PathsTo(links, t) != []
    ensures Targets(links, t)
  {
    var init := links[..|links| - 1];
    if links[|links| - 1].target != t {
      PathsToFrom(init, t);
      var i :| 0 <= i < |init| && init[i].target == t;
      assert links[i] == init[i];
    }
  }

  // ---------------------------------------------------------------------
  // The NVMe namespace
  // ---------------------------------------------------------------------

  const EuiName: string := "nvme-eui.0025"
  const ModelName: string := "nvme-Samsung_SSD_S4EW"

  lemma NamesRank()
    ensures !IsAta(EuiName) && !IsAta(ModelName)
    ensures !IsNvmeModel(EuiName) && IsNvmeModel(ModelName)
  {
    assert EuiName[0] == 'n' && ModelName[0] == 'n';
    forall i | 0 <= i < |EuiName| ensures EuiName[i] != '_' {
    }
    assert ModelName[12] == '_';
    assert ModelName[|ModelName| - 2..] == "EW";
    assert ModelName[..5] == "nvme-";
  }

  /** Of the EUI name and the model-and-serial name, the latter is chosen. */
  lemma PreferModel()
    ensures Prefer([EuiName, ModelName]) == ModelName
  {
    var paths := [EuiName, ModelName];
    NamesRank();
    assert paths[1..] == [ModelName] && paths[1..][1..] == [];
    assert First(paths[1..][1..], IsAta) == None;
    assert First(paths[1..], IsAta) == None;
    assert First(paths, IsAta) == None;
    assert First(paths[1..], IsNvmeModel) == Some(ModelName);
    assert First(paths, IsNvmeModel) == Some(ModelName);
  }

  /** The first pass over two links to the same target. */
  lemma EntriesOfTwo(links: seq<Link>, scheme: Scheme)
    requires |links| == 2 && links[0].target == links[1].target
    ensures IsPartition(scheme, links[0].target) ==> Entries(links, scheme) == map[]
    ensures !IsPartition(scheme, links[0].target) ==>
              Entries(links, scheme) == map[links[0].target := [links[0].idPath, links[1].idPath]]
  {
    var t := links[0].target;
    assert links[..1] == [links[0]] && links[..1][..0] == [];
    assert Entries(links[..1][..0], scheme) == map[];
    var e1 := Entries(links[..1], scheme);
    if IsPartition(scheme, t) {
      assert e1 == map[];
    } else {
      assert e1 == map[t := [] + [links[0].idPath]];
      assert Entries(links, scheme) == e1[t := e1[t] + [links[1].idPath]];
      assert [] + [links[0].idPath] + [links[1].idPath] == [links[0].idPath, links[1].idPath];
    }
  }

  /** The third pass over two links to the same target, from an empty map or
      from one that already names the target. */
  lemma PartitionsOfTwo(links: seq<Link>, lines: seq<string>, scheme: Scheme, m0: map<string, string>)
    requires |links| == 2 && links[0].target == links[1].target
    requires IsPartition(scheme, links[0].target) ==> m0 == map[]
    ensures IsPartition(scheme, links[0].target) ==>
              PartitionPass(links, lines, scheme, m0) == Some(map[links[0].target := ByIdDir + links[0].idPath])
    ensures !IsPartition(scheme, links[0].target) ==> PartitionPass(links, lines, scheme, m0) == Some(m0)
  {
    var t := links[0].target;
    assert links[..1] == [links[0]] && links[..1][..0] == [];
    assert PartitionPass(links[..1][..0], lines, scheme, m0) == Some(m0);
    var p1 := PartitionPass(links[..1], lines, scheme, m0);
    assert p1 == PartitionStep(links[0], lines, scheme, m0);
    if IsPartition(scheme, t) {
      assert Parent(scheme, t) !in m0;
      assert p1 == Some(map[t := ByIdDir + links[0].idPath]);
      assert PartitionPass(links, lines, scheme, m0) == PartitionStep(links[1], lines, scheme, p1.value);
    } else {
      assert p1 == Some(m0);
      assert PartitionPass(links, lines, scheme, m0) == PartitionStep(links[1], lines, scheme, m0);
    }
  }

  /** As written, the whole NVMe namespace `nvme0n1` ends in `1` and is
      handled as a partition: it skips the priority choice and takes the
      first link listed for it. */
  lemma NamespaceAsWritten(lines: seq<string>)
    requires Links(lines) == [Link(EuiName, "nvme0n1"), Link(ModelName, "nvme0n1")]
    ensures ByIdMap(lines, AsWritten) == Some(map["nvme0n1" := ByIdDir + EuiName])
  {
    var links := Links(lines);
    assert EndsWith("nvme0n1", "1");
    EntriesOfTwo(links, AsWritten);
    assert WholeDisks(map[]) == map[];
    PartitionsOfTwo(links, lines, AsWritten, map[]);
  }

  /** Under the corrected test `nvme0n1` is a whole disk and gets its
      model-and-serial name. */
  lemma NamespaceCorrected(lines: seq<string>)
    requires Links(lines) == [Link(EuiName, "nvme0n1"), Link(ModelName, "nvme0n1")]
    ensures ByIdMap(lines, Corrected) == Some(map["nvme0n1" := ByIdDir + ModelName])
  {
    var links := Links(lines);
    NamespaceWhole();
    var m0 := map["nvme0n1" := ByIdDir + ModelName];
    CorrectedWholeDisks(links);
    PartitionsOfTwo(links, lines, Corrected, m0);
  }

  lemma NamespaceWhole()
    ensures !IsPartition(Corrected, "nvme0n1")
  {
    assert "nvme0n1"[..4] == "nvme" && "nvme0n1"[5..] == "n1";
  }

  /** The second pass, corrected, over the two names of `nvme0n1`. */
  lemma CorrectedWholeDisks(links: seq<Link>)
    requires links == [Link(EuiName, "nvme0n1"), Link(ModelName, "nvme0n1")]
    ensures WholeDisks(Entries(links, Corrected)) == map["nvme0n1" := ByIdDir + ModelName]
  {
    NamespaceWhole();
    EntriesOfTwo(links, Corrected);
    PreferModel();
  }

  // ---------------------------------------------------------------------
  // The three passes
  // ---------------------------------------------------------------------

  /** `parse_by_id_links(by_id_output)`, with the partition test chosen by
      `scheme`; `None` is the `IndexError` of the third pass. */
  method ParseByIdLinks(output: string, scheme: Scheme) returns (res: Option<map<string, string>>)
    ensures res == ByIdMap(SplitLines(output), scheme)
  {
    var lines := SplitLines(output);
    var entries := CollectEntries(lines, scheme);
    var byId := ChooseWholeDisks(entries);
    res := NamePartitions(lines, scheme, byId);
  }

  /** One line of the first pass, for its link `l`. */
  method AddLink(entries: map<string, seq<string>>, l: Link, scheme: Scheme)
    returns (updated: map<string, seq<string>>)
    ensures updated == AddEntry(entries, l, scheme)
  {
    updated := entries;
    if !IsPartition(scheme, l.target) {
      // A target seen for the first time starts with no names.
      var paths := if l.target in entries then entries[l.target] else [];
      updated := entries[l.target := paths + [l.idPath]];
    }
  }

  /** The first pass: `all_entries`. */
  method CollectEntries(lines: seq<string>, scheme: Scheme) returns (entries: map<string, seq<string>>)
    ensures entries == Entries(Links(lines), scheme)
  {
    entries := map[];
    ghost var links: seq<Link> := [];
    var i := 0;
    while i < |lines|
      invariant 0 <= i <= |lines|
      invariant links == Links(lines[..i])
      invariant entries == Entries(links, scheme)
    {
      var link := LinkOf(lines[i]);
      LinksStep(lines, i);
      if link.Some? {
        entries := AddLink(entries, link.value, scheme);
        EntriesStep(links, link.value, scheme);
        links := links + [link.value];
      }
      i := i + 1;
    }
    assert lines[..i] == lines;
  }

  /** The second pass: one name per whole disk. */
  method ChooseWholeDisks(entries: map<string, seq<string>>) returns (byId: map<string, string>)
    requires forall t | t in entries :: entries[t] != []
    ensures byId == WholeDisks(entries)
  {
    byId := map[];
    var todo := entries.Keys;
    while todo != {}
      invariant todo <= entries.Keys
      invariant byId.Keys == entries.Keys - todo
      invariant forall t | t in byId :: byId[t] == ByIdDir + Prefer(entries[t])
      decreases |todo|
    {
      var t :| t in todo;
      byId := byId[t := ByIdDir + Prefer(entries[t])];
      todo := todo - {t};
    }
  }

  /** One line of the third pass, for its link `l`. */
  method NamePartition(l: Link, lines: seq<string>, scheme: Scheme, byId: map<string, string>)
    returns (res: Option<map<string, string>>)
    ensures res == PartitionStep(l, lines, scheme, byId)
  {
    if !IsPartition(scheme, l.target) || l.target in byId {
      return Some(byId);
    }
    var parent := Parent(scheme, l.target);
    if parent !in byId {
      return Some(byId[l.target := ByIdDir + l.idPath]);
    }
    var prefix := Split(LastPart(byId[parent], '/'), '-')[0];
    var matching := FirstMention(lines, l.target, prefix);
    if matching.None? {
      return Some(byId[l.target := ByIdDir + l.idPath]);
    }
    var fields := SplitWs(matching.value);
    if |fields| < 9 {
      // `IndexError`
      return None;
    }
    res := Some(byId[l.target := ByIdDir + fields[8]]);
  }

  /** The third pass: partitions, from the whole-disk map `m0`. */
  method NamePartitions(lines: seq<string>, scheme: Scheme, m0: map<string, string>)
    returns (res: Option<map<string, string>>)
    ensures res == PartitionPass(Links(lines), lines, scheme, m0)
  {
    var byId := m0;
    ghost var links: seq<Link> := [];
    var i := 0;
    while i < |lines|
      invariant 0 <= i <= |lines|
      invariant links == Links(lines[..i])
      invariant PartitionPass(links, lines, scheme, m0) == Some(byId)
    {
      var link := LinkOf(lines[i]);
      LinksStep(lines, i);
      if link.Some? {
        var step := NamePartition(link.value, lines, scheme, byId);
        PartitionPassStep(links, link.value, lines, scheme, m0);
        if step.None? {
          PartitionFailsToEnd(lines, i + 1, links + [link.value], scheme, m0);
          return None;
        }
        byId := step.value;
        links := links + [link.value];
      }
      i := i + 1;
    }
    assert lines[..i] == lines;
    return Some(byId);
  }

  /** One more link in the third pass. */
  lemma PartitionPassStep(links: seq<Link>, l: Link, lines: seq<string>, scheme: Scheme, m0: map<string, string>)
    requires PartitionPass(links, lines, scheme, m0).Some?
    ensures PartitionPass(links + [l], lines, scheme, m0)
            == PartitionStep(l, lines, scheme, PartitionPass(links, lines, scheme, m0).value)
  {
    assert (links + [l])[..|links|] == links;
  }

  /** A failure after the first `k` lines is a failure of the whole pass. */
  lemma PartitionFailsToEnd(lines: seq<string>, k: nat, links: seq<Link>, scheme: Scheme, m0: map<string, string>)
    requires k <= |lines| && links == Links(lines[..k])
    requires PartitionPass(links, lines, scheme, m0).None?
    ensures PartitionPass(Links(lines), lines, scheme, m0).None?
  {
    PartitionPassFails(links, Links(lines[k..]), lines, scheme, m0);
    LinksSplit(lines, k);
  }

  /** One more line of the listing adds its link, if it has one. */
  lemma LinksStep(lines: seq<string>, i: nat)
    requires i < |lines|
    ensures LinkOf(lines[i]).None? ==> Links(lines[..i + 1]) == Links(lines[..i])
    ensures LinkOf(lines[i]).Some? ==> Links(lines[..i + 1]) == Links(lines[..i]) + [LinkOf(lines[i]).value]
  {
    KeepStep(lines, LinkOf, i);
  }

  /** One more link in the first pass. */
  lemma EntriesStep(links: seq<Link>, l: Link, scheme: Scheme)
    ensures Entries(links + [l], scheme) == AddEntry(Entries(links, scheme), l, scheme)
  {
    assert (links + [l])[..|links|] == links;
  }

  /** The links of a listing are those of its two halves. */
  lemma LinksSplit(lines: seq<string>, k: nat)
    requires k <= |lines|
    ensures Links(lines) == Links(lines[..k]) + Links(lines[k..])
  {
    KeepSplit(lines, LinkOf, k);
  }

  /** Dropping the last element of a concatenation with a non-empty tail. */
  lemma InitOfAppend<T>(a: seq<T>, b: seq<T>)
    requires b != []
    ensures (a + b)[..|a + b| - 1] == a + b[..|b| - 1] && (a + b)[|a + b| - 1] == b[|b| - 1]
  {
  }
}
