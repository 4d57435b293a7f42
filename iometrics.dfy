/** bcachefs I/O metrics (packages/bcachefs-io-metrics/bcachefs-io-metrics.py):
    the instances under /sys/fs/bcachefs, and for one instance the `io_done`
    counters of its member devices summed per label group ("ssd", "hdd",
    ...), per device, and over the whole instance. */
module IoMetrics {
  import opened Wrappers
  import opened Text
  import opened MapSums
  import opened IoDone

  // ---------------------------------------------------------------------
  // Instances
  // ---------------------------------------------------------------------

  /** One entry of a directory listing: its name and whether it is itself a
      directory. */
  datatype DirEntry = DirEntry(name: string, isDir: bool)

  /** The names of the sub-directories other than "by-uuid", in listing
      order. */
  function InstanceNames(entries: seq<DirEntry>): (names: seq<string>)
    ensures |names| <= |entries|
  {
    if entries == [] then []
    else
      var init := InstanceNames(entries[..|entries| - 1]);
      var e := entries[|entries| - 1];
      if e.isDir && e.name != "by-uuid" then init + [e.name] else init
  }

  /** `find_bcachefs_instances`: `listing` is the content of
      /sys/fs/bcachefs, `None` when that directory does not exist. */
  function FindInstances(listing: Option<seq<DirEntry>>): seq<string> {
    match listing
    case None => []
    case Some(entries) => InstanceNames(entries)
  }

  /** An instance is exactly a listed directory other than "by-uuid". */
  lemma {:induction false} InstancesAreDirectories(entries: seq<DirEntry>, name: string)
    ensures name in InstanceNames(entries) <==>
            exists i | 0 <= i < |entries| :: entries[i].isDir && entries[i].name == name && name != "by-uuid"
  {
    if entries != [] {
      var init := entries[..|entries| - 1];
      InstancesAreDirectories(init, name);
      if exists i | 0 <= i < |init| :: init[i].isDir && init[i].name == name && name != "by-uuid" {
        var i :| 0 <= i < |init| && init[i].isDir && init[i].name == name && name != "by-uuid";
        assert entries[i] == init[i];
      }
      if exists i | 0 <= i < |entries| :: entries[i].isDir && entries[i].name == name && name != "by-uuid" {
        var i :| 0 <= i < |entries| && entries[i].isDir && entries[i].name == name && name != "by-uuid";
        if i < |init| {
          assert init[i] == entries[i];
        }
      }
    }
  }

  // ---------------------------------------------------------------------
  // Device labels
  // ---------------------------------------------------------------------

  /** The group and the device name in a label file such as "ssd.ssd1": the
      first two '.'-separated parts, stripped; a label without '.' is both. */
  function LabelParts(raw: string): (r: (string, string)) {
    var content := Strip(raw);
    var parts := Split(content, '.');
    if |parts| >= 2 then (Strip(parts[0]), Strip(parts[1])) else (content, content)
  }

  /** A label without '.' names both the group and the device. */
  lemma LabelWithoutDot(raw: string)
    requires '.' !in Strip(raw)
    ensures LabelParts(raw) == (Strip(raw), Strip(raw))
  {
  }

  /** A label "group.device", possibly followed by further '.'-separated
      parts, reads back as that group and device. */
  lemma LabelReadsBack(group: string, device: string, tail: string)
    requires '.' !in group && '.' !in device
    requires tail == [] || tail[0] == '.'
    requires forall i | 0 <= i < |group| :: !IsSpace(group[i])
    requires forall i | 0 <= i < |device| :: !IsSpace(device[i])
    requires forall i | 0 <= i < |tail| :: !IsSpace(tail[i])
    ensures LabelParts(group + "." + device + tail) == (group, device)
  {
    var s := group + "." + device + tail;
    NoSpaceStrip(s);
    NoSpaceStrip(group);
    NoSpaceStrip(device);
    assert s == group + ['.'] + (device + tail);
    SplitAt(group, device + tail, '.');
    if tail == [] {
      assert device + tail == device;
    } else {
      assert device + tail == device + ['.'] + tail[1..];
      SplitAt(device, tail[1..], '.');
    }
  }

  // ---------------------------------------------------------------------
  // Aggregation
  // ---------------------------------------------------------------------

  /** One dev-* directory: the content of its `label` file, `None` where
      that file is missing or cannot be read; and the lines of its `io_done`
      file, `None` only where no such file exists. An `io_done` file that
      fails part way through reading is the lines read before the failure,
      possibly none: `parse_io_done` catches the error and returns what it
      has, and the device is still counted. */
  datatype DevDir = DevDir(labelText: Option<string>, ioDone: Option<seq<string>>)

  /** The counters of one section of one group: the totals over the group's
      devices, and each device's own counters. */
  datatype SectionData = SectionData(totals: map<string, int>, devices: map<string, map<string, int>>)

  const EmptySection := SectionData(map[], map[])

  datatype GroupData = GroupData(read: SectionData, write: SectionData) {
    function Of(s: Section): SectionData {
      if s == Read then read else write
    }
  }

  const EmptyGroup := GroupData(EmptySection, EmptySection)

  /** The result of `analyze_bcachefs_instance`. */
  datatype Analysis = Analysis(groupData: map<string, GroupData>, overallRead: int, overallWrite: int, fsUuid: string) {
    function Overall(s: Section): int {
      if s == Read then overallRead else overallWrite
    }
  }

  /** What one device contributes: its group, its name within the group and
      its counters. */
  datatype Reading = Reading(group: string, device: string, io: Counters)

  /** A device counts only when it has both a label and an `io_done` file. */
  function ReadingOf(d: DevDir): Option<Reading> {
    if d.labelText.None? || d.ioDone.None? then None
    else
      var (group, device) := LabelParts(d.labelText.value);
      Some(Reading(group, device, Parse(d.ioDone.value)))
  }

  /** A device's counters added to a section: to the totals and to the
      device's own dictionary, which is created empty when first seen. */
  function AddToSection(sd: SectionData, device: string, io: map<string, int>): SectionData {
    var mine := if device in sd.devices then sd.devices[device] else map[];
    SectionData(Plus(sd.totals, io), sd.devices[device := Plus(mine, io)])
  }

  /** A device's counters added to both sections of its group. */
  function Join(g: GroupData, device: string, io: Counters): GroupData {
    GroupData(AddToSection(g.read, device, io.read), AddToSection(g.write, device, io.write))
  }

  /** The group a device joins: the group so far, or an empty one. */
  function GroupOf(groups: map<string, GroupData>, group: string): GroupData {
    if group in groups then groups[group] else EmptyGroup
  }

  function AddDevice(groups: map<string, GroupData>, group: string, device: string, io: Counters): map<string, GroupData> {
    groups[group := Join(GroupOf(groups, group), device, io)]
  }

  /** What one dev-* directory does to `group_data`. */
  function Absorb(groups: map<string, GroupData>, d: DevDir): map<string, GroupData> {
    match ReadingOf(d)
    case None => groups
    case Some(r) => AddDevice(groups, r.group, r.device, r.io)
  }

  /** `group_data` after the devices, in order. */
  function Groups(devs: seq<DevDir>): map<string, GroupData> {
    if devs == [] then map[] else Absorb(Groups(devs[..|devs| - 1]), devs[|devs| - 1])
  }

  /** Each group's total of one section. */
  ghost function SectionSums(groups: map<string, GroupData>, s: Section): map<string, int> {
    map g | g in groups :: Sum(groups[g].Of(s).totals)
  }

  /** `analyze_bcachefs_instance`: `None` when the instance has no dev-*
      directory; `baseDir`'s last path component is the filesystem UUID. */
  ghost function Analyze(baseDir: string, devs: seq<DevDir>): (r: Option<Analysis>)
    ensures r == None <==> devs == []
  {
    if devs == [] then None
    else
      var groups := Groups(devs);
      Some(Analysis(groups, Sum(SectionSums(groups, Read)), Sum(SectionSums(groups, Write)), LastPart(baseDir, '/')))
  }

  // ---------------------------------------------------------------------
  // The analysis, step by step
  // ---------------------------------------------------------------------

  method AnalyzeInstance(baseDir: string, devs: seq<DevDir>) returns (r: Option<Analysis>)
    ensures r == Analyze(baseDir, devs)
  {
    if devs == [] {
      return None;
    }
    var groupData: map<string, GroupData> := map[];
    for i := 0 to |devs|
      invariant groupData == Groups(devs[..i])
    {
      assert devs[..i + 1][..i] == devs[..i];
      groupData := AddDevDir(groupData, devs[i]);
    }
    assert devs[..|devs|] == devs;
    var overallRead := OverallTotal(groupData, Read);
    var overallWrite := OverallTotal(groupData, Write);
    r := Some(Analysis(groupData, overallRead, overallWrite, LastPart(baseDir, '/')));
  }

  /** The body of the loop of `analyze_bcachefs_instance`, for one dev-*
      directory: skipped without a label or an `io_done` file, otherwise its
      counters are added to its group, which is created when first seen. */
  method AddDevDir(groupData: map<string, GroupData>, dev: DevDir) returns (next: map<string, GroupData>)
    ensures next == Absorb(groupData, dev)
  {
    next := groupData;
    if dev.labelText.None? {
      return;
    }
    var (group, devLabel) := LabelParts(dev.labelText.value);
    if dev.ioDone.None? {
      return;
    }
    var ioData := ParseIoDone(dev.ioDone.value);
    if group !in next {
      next := next[group := EmptyGroup];
    }
    var g := next[group];
    var readData := AccumulateSection(g.read, devLabel, ioData.read);
    var writeData := AccumulateSection(g.write, devLabel, ioData.write);
    next := next[group := GroupData(readData, writeData)];
  }

  /** The device is registered in the section, then each of its counters is
      added to the group totals and to the device's own counters. */
  method AccumulateSection(sd: SectionData, device: string, io: map<string, int>) returns (r: SectionData)
    ensures r == AddToSection(sd, device, io)
  {
    var totals := sd.totals;
    var devMetrics: map<string, int> := if device in sd.devices then sd.devices[device] else map[];
    ghost var mine := devMetrics;
    var todo := io.Keys;
    while todo != {}
      invariant todo <= io.Keys
      invariant AddedSoFar(sd.totals, io, io.Keys - todo, totals)
      invariant AddedSoFar(mine, io, io.Keys - todo, devMetrics)
      decreases todo
    {
      var metric :| metric in todo;
      totals, devMetrics := AddMetric(totals, devMetrics, io, metric, todo, sd.totals, mine);
      todo := todo - {metric};
    }
    AddedAll(sd.totals, io, totals);
    AddedAll(mine, io, devMetrics);
    r := SectionData(totals, sd.devices[device := devMetrics]);
  }

  /** The body of the loop of `AccumulateSection`: one counter added to the
      group totals and to the device's counters. */
  method AddMetric(totals: map<string, int>, devMetrics: map<string, int>, io: map<string, int>, metric: string,
                   ghost todo: set<string>, ghost base: map<string, int>, ghost mine: map<string, int>)
    returns (totals': map<string, int>, devMetrics': map<string, int>)
    requires todo <= io.Keys && metric in todo
    requires AddedSoFar(base, io, io.Keys - todo, totals)
    requires AddedSoFar(mine, io, io.Keys - todo, devMetrics)
    ensures AddedSoFar(base, io, io.Keys - (todo - {metric}), totals')
    ensures AddedSoFar(mine, io, io.Keys - (todo - {metric}), devMetrics')
  {
    var value := io[metric];
    AddOneMore(base, io, todo, totals, metric);
    AddOneMore(mine, io, todo, devMetrics, metric);
    totals' := totals[metric := Get(totals, metric) + value];
    devMetrics' := devMetrics[metric := Get(devMetrics, metric) + value];
  }

  /** `acc` is `base` with the counters of `io` named in `done` added. */
  ghost predicate AddedSoFar(base: map<string, int>, io: map<string, int>, done: set<string>, acc: map<string, int>) {
    && acc.Keys == base.Keys + done
    && forall k | k in acc :: acc[k] == Get(base, k) + (if k in done then Get(io, k) else 0)
  }

  lemma AddOneMore(base: map<string, int>, io: map<string, int>, todo: set<string>, acc: map<string, int>, k: string)
    requires todo <= io.Keys && k in todo
    requires AddedSoFar(base, io, io.Keys - todo, acc)
    ensures AddedSoFar(base, io, io.Keys - (todo - {k}), acc[k := Get(acc, k) + io[k]])
  {
    assert io.Keys - (todo - {k}) == (io.Keys - todo) + {k};
  }

  lemma AddedAll(base: map<string, int>, io: map<string, int>, acc: map<string, int>)
    requires AddedSoFar(base, io, io.Keys, acc)
    ensures acc == Plus(base, io)
  {
  }

  /** The sum, over the groups, of each group's totals of one section. */
  method OverallTotal(groups: map<string, GroupData>, s: Section) returns (total: int)
    ensures total == Sum(SectionSums(groups, s))
  {
    total := 0;
    var rest := groups;
    while rest != map[]
      invariant total + Sum(SectionSums(rest, s)) == Sum(SectionSums(groups, s))
      decreases |rest.Keys|
    {
      var group :| group in rest;
      var sectionTotal := SumValues(rest[group].Of(s).totals);
      SectionSumsRemove(rest, group, s);
      total := total + sectionTotal;
      assert (rest - {group}).Keys < rest.Keys;
      rest := rest - {group};
    }
  }

  lemma SectionSumsRemove(groups: map<string, GroupData>, g: string, s: Section)
    requires g in groups
    ensures Sum(SectionSums(groups, s)) == Sum(groups[g].Of(s).totals) + Sum(SectionSums(groups - {g}, s))
  {
    SumRemove(SectionSums(groups, s), g);
    assert SectionSums(groups, s) - {g} == SectionSums(groups - {g}, s);
  }

  // ---------------------------------------------------------------------
  // Properties of the aggregation
  // ---------------------------------------------------------------------

  /** How much of counter `metric` each device of a section holds. */
  function Column(devices: map<string, map<string, int>>, metric: string): map<string, int> {
    map d | d in devices :: Get(devices[d], metric)
  }

  /** A section's totals are the sums of its devices' counters. */
  ghost predicate Consistent(sd: SectionData) {
    forall metric :: Get(sd.totals, metric) == Sum(Column(sd.devices, metric))
  }

  lemma PlusGet(a: map<string, int>, b: map<string, int>, k: string)
    ensures Get(Plus(a, b), k) == Get(a, k) + Get(b, k)
  {
  }

  lemma ColumnAdd(sd: SectionData, device: string, io: map<string, int>, metric: string)
    ensures var c := Column(sd.devices, metric);
            Column(AddToSection(sd, device, io).devices, metric) == c[device := Get(c, device) + Get(io, metric)]
  {
    var mine := if device in sd.devices then sd.devices[device] else map[];
    PlusGet(mine, io, metric);
  }

  /** Adding a device keeps every total the sum of the device counters. */
  lemma ConsistentAdd(sd: SectionData, device: string, io: map<string, int>)
    requires Consistent(sd)
    ensures Consistent(AddToSection(sd, device, io))
  {
    forall metric ensures Get(AddToSection(sd, device, io).totals, metric)
                          == Sum(Column(AddToSection(sd, device, io).devices, metric)) {
      ConsistentAddAt(sd, device, io, metric);
    }
  }

  lemma ConsistentAddAt(sd: SectionData, device: string, io: map<string, int>, metric: string)
    requires Get(sd.totals, metric) == Sum(Column(sd.devices, metric))
    ensures Get(AddToSection(sd, device, io).totals, metric) == Sum(Column(AddToSection(sd, device, io).devices, metric))
  {
    PlusGet(sd.totals, io, metric);
    ColumnAdd(sd, device, io, metric);
    SumUpdate(Column(sd.devices, metric), device, Get(io, metric));
  }

  lemma EmptyConsistent()
    ensures Consistent(EmptySection)
  {
    forall metric ensures Get(EmptySection.totals, metric) == Sum(Column(EmptySection.devices, metric)) {
      assert Column(EmptySection.devices, metric) == map[];
    }
  }

  /** In every group and section, each metric's total is the sum of that
      metric over the group's devices. */
  lemma {:induction false} GroupTotalsAreDeviceSums(devs: seq<DevDir>, group: string, s: Section)
    requires group in Groups(devs)
    ensures Consistent(Groups(devs)[group].Of(s))
  {
    var init := devs[..|devs| - 1];
    var reading := ReadingOf(devs[|devs| - 1]);
    if reading.Some? && reading.value.group == group {
      var r := reading.value;
      var before := if group in Groups(init) then Groups(init)[group] else EmptyGroup;
      if group in Groups(init) {
        GroupTotalsAreDeviceSums(init, group, s);
      } else {
        EmptyConsistent();
      }
      ConsistentAdd(before.Of(s), r.device, r.io.Of(s));
    } else {
      GroupTotalsAreDeviceSums(init, group, s);
    }
  }

  /** The sum of all counters of one section over the devices that count. */
  ghost function DevicesTotal(devs: seq<DevDir>, s: Section): int {
    if devs == [] then 0
    else
      DevicesTotal(devs[..|devs| - 1], s) +
      match ReadingOf(devs[|devs| - 1])
      case None => 0
      case Some(r) => Sum(r.io.Of(s))
  }

  /** A device adds its counters to its group's total. */
  lemma GroupTotalAdd(groups: map<string, GroupData>, group: string, device: string, io: Counters, s: Section)
    ensures Sum(Join(GroupOf(groups, group), device, io).Of(s).totals) == Get(SectionSums(groups, s), group) + Sum(io.Of(s))
  {
    var g := GroupOf(groups, group);
    assert Join(g, device, io).Of(s).totals == Plus(g.Of(s).totals, io.Of(s));
    SumPlus(g.Of(s).totals, io.Of(s));
    if group !in groups {
      assert g.Of(s).totals == map[];
    }
  }

  /** Replacing one group changes only that group's total. */
  lemma SectionSumsUpdate(groups: map<string, GroupData>, group: string, ng: GroupData, s: Section)
    ensures SectionSums(groups[group := ng], s) == SectionSums(groups, s)[group := Sum(ng.Of(s).totals)]
  {
    var after := SectionSums(groups[group := ng], s);
    var expected := SectionSums(groups, s)[group := Sum(ng.Of(s).totals)];
    assert after.Keys == expected.Keys;
    SameEntries(after, expected);
  }

  /** The overall total of a section is the sum of every counter of that
      section over all devices that count. */
  lemma {:induction false} OverallIsAllCounters(devs: seq<DevDir>, s: Section)
    ensures Sum(SectionSums(Groups(devs), s)) == DevicesTotal(devs, s)
  {
    if devs == [] {
      assert SectionSums(Groups(devs), s) == map[];
    } else {
      var init := devs[..|devs| - 1];
      OverallIsAllCounters(init, s);
      OverallStep(devs, s);
    }
  }

  lemma OverallStep(devs: seq<DevDir>, s: Section)
    requires devs != []
    ensures Sum(SectionSums(Groups(devs), s))
            == Sum(SectionSums(Groups(devs[..|devs| - 1]), s))
               + match ReadingOf(devs[|devs| - 1]) case None => 0 case Some(r) => Sum(r.io.Of(s))
  {
    var groups := Groups(devs[..|devs| - 1]);
    var reading := ReadingOf(devs[|devs| - 1]);
    if reading.Some? {
      var r := reading.value;
      assert Groups(devs) == AddDevice(groups, r.group, r.device, r.io);
      AddDeviceSum(groups, r, s);
    } else {
      assert Groups(devs) == groups;
    }
  }

  /** A device adds the sum of its counters to the overall total. */
  lemma AddDeviceSum(groups: map<string, GroupData>, r: Reading, s: Section)
    ensures Sum(SectionSums(AddDevice(groups, r.group, r.device, r.io), s)) == Sum(SectionSums(groups, s)) + Sum(r.io.Of(s))
  {
    var sums := SectionSums(groups, s);
    var joined := Join(GroupOf(groups, r.group), r.device, r.io);
    SectionSumsUpdate(groups, r.group, joined, s);
    GroupTotalAdd(groups, r.group, r.device, r.io, s);
    SumSet(sums, r.group, Sum(joined.Of(s).totals));
  }

  /** Device `d` counts and belongs to `group`. */
  predicate InGroup(d: DevDir, group: string) {
    ReadingOf(d).Some? && ReadingOf(d).value.group == group
  }

  /** The groups are exactly the label groups of the devices that count. */
  lemma GroupsOfKeptDevices(devs: seq<DevDir>, group: string)
    ensures group in Groups(devs) <==> exists i | 0 <= i < |devs| :: InGroup(devs[i], group)
  {
    GroupKeys(devs);
    LabelGroupsMember(devs, group);
  }

  /** The label groups of the devices that count. */
  function LabelGroups(devs: seq<DevDir>): set<string> {
    if devs == [] then {}
    else
      var d := devs[|devs| - 1];
      LabelGroups(devs[..|devs| - 1]) + if ReadingOf(d).Some? then {ReadingOf(d).value.group} else {}
  }

  lemma {:induction false} GroupKeys(devs: seq<DevDir>)
    ensures Groups(devs).Keys == LabelGroups(devs)
  {
    if devs != [] {
      GroupKeys(devs[..|devs| - 1]);
    }
  }

  lemma {:induction false} LabelGroupsMember(devs: seq<DevDir>, group: string)
    ensures group in LabelGroups(devs) <==> exists i | 0 <= i < |devs| :: InGroup(devs[i], group)
  {
    if devs != [] {
      var init := devs[..|devs| - 1];
      LabelGroupsMember(init, group);
      if i :| 0 <= i < |init| && InGroup(init[i], group) {
        assert devs[i] == init[i];
      }
      if i :| 0 <= i < |devs| && InGroup(devs[i], group) {
        if i < |init| {
          assert init[i] == devs[i];
        }
      }
    }
  }

  /** Every device that counts is registered, under its own name, in both
      sections of its group, even when its `io_done` names no counter. */
  lemma {:induction false} DeviceRegistered(devs: seq<DevDir>, i: nat, s: Section)
    requires i < |devs| && ReadingOf(devs[i]).Some?
    ensures var r := ReadingOf(devs[i]).value;
            r.group in Groups(devs) && r.device in Groups(devs)[r.group].Of(s).devices
  {
    var init := devs[..|devs| - 1];
    var last := ReadingOf(devs[|devs| - 1]);
    if i < |init| {
      assert init[i] == devs[i];
      DeviceRegistered(init, i, s);
      if last.Some? {
        var r := ReadingOf(devs[i]).value;
        AddDeviceKeeps(Groups(init), last.value, r.group, r.device, s);
      }
    } else {
      AddDeviceRegisters(Groups(init), last.value, s);
    }
  }

  /** Adding a device keeps every device already registered. */
  lemma AddDeviceKeeps(groups: map<string, GroupData>, r: Reading, group: string, device: string, s: Section)
    requires group in groups && device in groups[group].Of(s).devices
    ensures var after := AddDevice(groups, r.group, r.device, r.io);
            group in after && device in after[group].Of(s).devices
  {
  }

  /** Adding a device registers it in both sections of its group. */
  lemma AddDeviceRegisters(groups: map<string, GroupData>, r: Reading, s: Section)
    ensures var after := AddDevice(groups, r.group, r.device, r.io);
            r.group in after && r.device in after[r.group].Of(s).devices
  {
  }
}
