/** The drive inventory and disko configuration of the drive-info tool
    (packages/remote-drive-info/remote-drive-info.py): block devices are
    filtered and classified into tiers, then numbered per class into the
    disks of one bcachefs pool. */
module DriveInfo {
  import opened Wrappers
  import opened Text
  import Nix
  import ByIdLinks

  // ---------------------------------------------------------------------
  // Block devices
  // ---------------------------------------------------------------------

  /** One top-level entry of `lsblk --all -po ... --json`: its name and
      path, its `type`, whether it is rotational, its transport and serial
      (`None` for a JSON null). */
  datatype BlockDevice = BlockDevice(
    name: string, path: string, kind: string, rota: bool,
    tran: Option<string>, serial: Option<string>)

  datatype BlockClass = Nvme | Ssd | Hdd {
    function Name(): string {
      match this
      case Nvme => "nvme"
      case Ssd => "ssd"
      case Hdd => "hdd"
    }

    function Tier(): string {
      match this
      case Nvme => "hot"
      case Ssd => "warm"
      case Hdd => "cold"
    }
  }

  /** `_classify_block_class`: solid state on the NVMe transport is the
      hot tier, other solid state the warm tier, rotational disks the cold
      tier. */
  function ClassOf(d: BlockDevice): (c: BlockClass)
    ensures c == Nvme <==> !d.rota && d.tran == Some("nvme")
    ensures c == Ssd <==> !d.rota && d.tran != Some("nvme")
    ensures c == Hdd <==> d.rota
  {
    if !d.rota then (if d.tran == Some("nvme") then Nvme else Ssd) else Hdd
  }

  /** A device with the `tier` and `block_class` fields added. */
  datatype Disk = Disk(device: BlockDevice, blockClass: BlockClass) {
    function Tier(): string {
      blockClass.Tier()
    }
  }

  /** `block_device.get("serial")` is truthy. */
  predicate HasSerial(d: BlockDevice) {
    d.serial.Some? && d.serial.value != ""
  }

  /** A device `get_block_devices` keeps. */
  predicate Kept(d: BlockDevice) {
    d.kind == "disk" && HasSerial(d)
  }

  /** The devices `get_block_devices` returns, classified, in input order. */
  function Disks(devices: seq<BlockDevice>): (disks: seq<Disk>)
    ensures |disks| <= |devices|
  {
    if devices == [] then []
    else Disks(devices[..|devices| - 1]) + DiskOf(devices[|devices| - 1])
  }

  /** What one device contributes: itself, classified, when it is kept. */
  function DiskOf(d: BlockDevice): (disks: seq<Disk>)
    ensures |disks| <= 1
  {
    if Kept(d) then [Disk(d, ClassOf(d))] else []
  }

  /** A classified device is returned exactly when it is a disk with a
      serial number, under its own class. */
  lemma {:induction false} DisksMember(devices: seq<BlockDevice>, x: Disk)
    ensures x in Disks(devices) <==> x.device in devices && Kept(x.device) && x.blockClass == ClassOf(x.device)
  {
    if devices != [] {
      var init := devices[..|devices| - 1];
      DisksMember(init, x);
      assert devices == init + [devices[|devices| - 1]];
    }
  }

  /** Filtering keeps the input order: the devices of a concatenation are
      those of the first part followed by those of the second. */
  lemma {:induction false} DisksAppend(a: seq<BlockDevice>, b: seq<BlockDevice>)
    ensures Disks(a + b) == Disks(a) + Disks(b)
    decreases |b|
  {
    if b == [] {
      assert a + b == a;
    } else {
      var ab := a + b;
      var init := b[..|b| - 1];
      DisksAppend(a, init);
      assert ab[..|ab| - 1] == a + init && ab[|ab| - 1] == b[|b| - 1];
      assert Disks(ab) == Disks(a + init) + DiskOf(b[|b| - 1]);
      assert Disks(b) == Disks(init) + DiskOf(b[|b| - 1]);
      DisksAssoc(Disks(a), Disks(init), DiskOf(b[|b| - 1]));
    }
  }

  lemma DisksAssoc(a: seq<Disk>, b: seq<Disk>, c: seq<Disk>)
    ensures (a + b) + c == a + (b + c)
  {
  }

  /** `get_block_devices` on the parsed `lsblk` output. */
  method GetBlockDevices(devices: seq<BlockDevice>) returns (disks: seq<Disk>)
    ensures disks == Disks(devices)
  {
    disks := [];
    var i := 0;
    while i < |devices|
      invariant 0 <= i <= |devices|
      invariant disks == Disks(devices[..i])
    {
      assert devices[..i + 1][..i] == devices[..i];
      var d := devices[i];
      if d.kind != "disk" {
        i := i + 1;
        continue;
      }
      var c := ClassOf(d);
      if HasSerial(d) {
        disks := disks + [Disk(d, c)];
      }
      i := i + 1;
    }
    assert devices[..i] == devices;
  }

  // ---------------------------------------------------------------------
  // The disko configuration
  // ---------------------------------------------------------------------

  /** The number of disks of class `c`. */
  function CountClass(disks: seq<Disk>, c: BlockClass): (n: nat)
    ensures n <= |disks|
  {
    if disks == [] then 0
    else CountClass(disks[..|disks| - 1], c) + (if disks[|disks| - 1].blockClass == c then 1 else 0)
  }

  /** One entry of `disko_config["disk"]`: the class and number its key
      and label are made of, and its device path. */
  datatype DiskEntry = DiskEntry(blockClass: BlockClass, number: nat, device: string) {
    /** The key, `<class><number>`. */
    function Id(): string {
      DiskId(blockClass, number)
    }

    /** The member label, `<class>.<key>`. */
    function Label(): string {
      blockClass.Name() + "." + Id()
    }
  }

  /** The device path: the by-id name of the device if known, else its
      own path. */
  function DevicePath(disk: Disk, byId: map<string, string>): string {
    var name := LastPart(disk.device.name, '/');
    if name in byId then byId[name] else disk.device.path
  }

  /** The key of the `n`-th disk of class `c`: `<class><n>`. */
  function DiskId(c: BlockClass, n: nat): string {
    c.Name() + NatToString(n)
  }

  /** The entry of the `n`-th disk of its class. */
  function Entry(disk: Disk, n: nat, byId: map<string, string>): DiskEntry {
    DiskEntry(disk.blockClass, n, DevicePath(disk, byId))
  }

  /** The entries in input order; each disk is numbered by how many disks
      of its class come before it, plus one. */
  function DiskEntries(disks: seq<Disk>, byId: map<string, string>): (entries: seq<DiskEntry>)
    ensures |entries| == |disks|
  {
    seq(|disks|, i requires 0 <= i < |disks| => Entry(disks[i], CountClass(disks[..i], disks[i].blockClass) + 1, byId))
  }

  /** Counting over a prefix counts no more. */
  lemma {:induction false} CountPrefix(disks: seq<Disk>, k: nat, c: BlockClass)
    requires k <= |disks|
    ensures CountClass(disks[..k], c) <= CountClass(disks, c)
    decreases |disks| - k
  {
    if k < |disks| {
      CountPrefix(disks[..|disks| - 1], k, c);
      assert disks[..|disks| - 1][..k] == disks[..k];
    } else {
      assert disks[..k] == disks;
    }
  }

  /** A later disk of the same class gets a larger number. */
  lemma CountLater(disks: seq<Disk>, i: nat, j: nat)
    requires i < j <= |disks|
    ensures var c := disks[i].blockClass;
            CountClass(disks[..j], c) >= CountClass(disks[..i], c) + 1
  {
    var c := disks[i].blockClass;
    var pre := disks[..j];
    CountPrefix(pre, i + 1, c);
    assert pre[..i + 1] == disks[..i + 1];
    assert disks[..i + 1][..i] == disks[..i];
  }

  lemma NatToStringInjective(m: nat, n: nat)
    requires NatToString(m) == NatToString(n)
    ensures m == n
  {
    NatToStringValue(m);
    NatToStringValue(n);
  }

  /** No two disks get the same key, so `disko_config["disk"]` keeps every
      device. */
  lemma DiskIdsDistinct(disks: seq<Disk>, byId: map<string, string>, i: nat, j: nat)
    requires i < j < |disks|
    ensures DiskEntries(disks, byId)[i].Id() != DiskEntries(disks, byId)[j].Id()
  {
    var entries := DiskEntries(disks, byId);
    var ci := disks[i].blockClass;
    assert entries[i].blockClass == ci && entries[i].number == CountClass(disks[..i], ci) + 1;
    assert entries[j].blockClass == disks[j].blockClass && entries[j].number == CountClass(disks[..j], disks[j].blockClass) + 1;
    if ci == disks[j].blockClass {
      CountLater(disks, i, j);
    }
    IdsDiffer(entries[i], entries[j]);
  }

  /** Entries of different classes or numbers have different keys. */
  lemma IdsDiffer(a: DiskEntry, b: DiskEntry)
    requires a.blockClass != b.blockClass || a.number != b.number
    ensures a.Id() != b.Id()
  {
    if a.blockClass != b.blockClass {
      IdsOfClassesDiffer(a.blockClass, b.blockClass, a.number, b.number);
    } else {
      IdsOfNumbersDiffer(a.blockClass, a.number, b.number);
    }
  }

  lemma IdsOfClassesDiffer(ci: BlockClass, cj: BlockClass, ni: nat, nj: nat)
    requires ci != cj
    ensures DiskId(ci, ni) != DiskId(cj, nj)
  {
    var a := DiskId(ci, ni);
    var b := DiskId(cj, nj);
    assert a[0] == ci.Name()[0] && b[0] == cj.Name()[0];
  }

  lemma IdsOfNumbersDiffer(c: BlockClass, ni: nat, nj: nat)
    requires ni != nj
    ensures DiskId(c, ni) != DiskId(c, nj)
  {
    var a := DiskId(c, ni);
    var b := DiskId(c, nj);
    assert a[|c.Name()|..] == NatToString(ni) && b[|c.Name()|..] == NatToString(nj);
    if NatToString(ni) == NatToString(nj) {
      NatToStringInjective(ni, nj);
    }
  }

  /** One more disk: its class count goes up by one and it gets the next
      number of its class. */
  /** `generate_disko_config`: the per-class counters and the entries, in
      input order, as the `disk` attribute set; the bcachefs pool is
      always added. */
  method GenerateDiskoConfig(disks: seq<Disk>, byId: map<string, string>) returns (config: Nix.Json)
    ensures config == DiskoConfig(DiskEntries(disks, byId))
  {
    var entries := NumberDisks(disks, byId);
    config := DiskoConfig(entries);
  }

  /** The loop of `generate_disko_config`: the counters dictionary and the
      entries it numbers. */
  method NumberDisks(disks: seq<Disk>, byId: map<string, string>) returns (entries: seq<DiskEntry>)
    ensures entries == DiskEntries(disks, byId)
  {
    var counters: map<BlockClass, nat> := map[Nvme := 0, Ssd := 0, Hdd := 0];
    entries := [];
    var i := 0;
    assert disks[..0] == [];
    assert Counts(counters, []) by {
      forall c: BlockClass ensures c in counters && counters[c] == CountClass([], c) {
        match c
        case Nvme =>
        case Ssd =>
        case Hdd =>
      }
    }
    while i < |disks|
      invariant 0 <= i <= |disks|
      invariant Counts(counters, disks[..i])
      invariant entries == DiskEntries(disks, byId)[..i]
    {
      CountsStep(counters, disks, i);
      var entry;
      counters, entry := NumberDisk(counters, disks[i], byId);
      assert DiskEntries(disks, byId)[..i + 1] == entries + [entry];
      entries := entries + [entry];
      i := i + 1;
    }
  }

  /** One pass of the loop: count the disk in its class and number it. */
  method NumberDisk(counters: map<BlockClass, nat>, device: Disk, byId: map<string, string>)
    returns (counted: map<BlockClass, nat>, entry: DiskEntry)
    requires device.blockClass in counters
    ensures counted == counters[device.blockClass := counters[device.blockClass] + 1]
    ensures entry == Entry(device, counters[device.blockClass] + 1, byId)
  {
    var deviceType := device.blockClass;
    var fullPath := DevicePath(device, byId);
    counted := counters[deviceType := counters[deviceType] + 1];
    // The key `f"{device_type}{counter}"` and the label are `entry.Id()`
    // and `entry.Label()`.
    entry := DiskEntry(deviceType, counted[deviceType], fullPath);
  }

  /** The counter dictionary holds, for every class, how many of `disks` belong to it. */
  ghost predicate Counts(counters: map<BlockClass, nat>, disks: seq<Disk>) {
    forall c: BlockClass :: c in counters && counters[c] == CountClass(disks, c)
  }

  lemma CountsStep(counters: map<BlockClass, nat>, disks: seq<Disk>, i: nat)
    requires i < |disks| && Counts(counters, disks[..i])
    ensures disks[i].blockClass in counters
    ensures Counts(counters[disks[i].blockClass := counters[disks[i].blockClass] + 1], disks[..i + 1])
  {
    assert disks[..i + 1][..i] == disks[..i];
  }

  function DiskJson(e: DiskEntry): Nix.Json {
    Nix.Obj([("type", Nix.Str("disk")),
             ("device", Nix.Str(e.device)),
             ("content", Nix.Obj([("type", Nix.Str("bcachefs_member")),
                                  ("pool", Nix.Str("pool")),
                                  ("label", Nix.Str(e.Label()))]))])
  }

  const PoolJson: Nix.Json :=
    Nix.Obj([("pool", Nix.Obj([("type", Nix.Str("bcachefs")),
                               ("mountpoint", Nix.Str("/mnt/bcachefs")),
                               ("formatOptions", Nix.List([Nix.Str("--compression=lz4")])),
                               ("mountOptions", Nix.List([Nix.Str("verbose"), Nix.Str("degraded")]))]))])

  /** The configuration: the disks under `disk`, then the pool under
      `bcachefs`. */
  function DiskoConfig(entries: seq<DiskEntry>): Nix.Json {
    Nix.Obj([("disk", Nix.Obj(seq(|entries|, i requires 0 <= i < |entries| => (entries[i].Id(), DiskJson(entries[i]))))),
             ("bcachefs", PoolJson)])
  }

  // ---------------------------------------------------------------------
  // Collecting
  // ---------------------------------------------------------------------

  /** `collect_and_generate` followed by the `--nix` rendering: the
      devices from `lsblk`, the by-id listing (empty when `ls` failed), the
      disko configuration. `None` is the `IndexError` of the by-id parser. */
  method CollectAndGenerate(devices: seq<BlockDevice>, byIdOutput: string, scheme: ByIdLinks.Scheme,
                            e: Nix.Escaping)
    returns (nix: Option<string>)
    ensures var m := ByIdLinks.ByIdMap(SplitLines(byIdOutput), scheme);
            && (m.None? <==> nix.None?)
            && (m.Some? ==> nix == Some(Nix.NixDocument(DiskoConfig(DiskEntries(Disks(devices), m.value)), e)))
  {
    var disks := GetBlockDevices(devices);
    var byId := ByIdLinks.ParseByIdLinks(byIdOutput, scheme);
    if byId.None? {
      return None;
    }
    var config := GenerateDiskoConfig(disks, byId.value);
    return Some(Nix.NixDocument(config, e));
  }
}
