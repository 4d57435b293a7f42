/** The snapshot tool's operations on the filesystem
    (packages/bcachefs-snap/bcachefs-snap.py): where snapshots live, which
    directory entries count as snapshots, and the `bcachefs subvolume`
    commands that `create`, `ensure`, `delete` and `prune` issue. The
    filesystem is given as data (does the directory exist, what does it
    list) and the commands go through a `Runner`. */
module SnapStore {
  import opened Wrappers
  import opened Text
  import opened Calendar
  import opened SnapNames
  import opened Retention
  import opened RetentionProps
  import opened Exec

  const DefaultSubdir: string := ".bcachefs_snapshots"

  // ---------------------------------------------------------------------
  // Paths
  // ---------------------------------------------------------------------

  /** `os.path.join(a, b)` on POSIX: an absolute `b` replaces `a`; otherwise
      `b` is appended, with a '/' unless `a` is empty or already ends in one. */
  function JoinPath(a: string, b: string): string {
    if |b| > 0 && b[0] == '/' then b
    else if a == [] || a[|a| - 1] == '/' then a + b
    else a + "/" + b
  }

  /** The joined path ends with `b`; it is `b` itself when `b` is absolute
      and otherwise starts with `a`. */
  lemma JoinPathShape(a: string, b: string)
    ensures EndsWith(JoinPath(a, b), b)
    ensures |b| > 0 && b[0] == '/' ==> JoinPath(a, b) == b
    ensures !(|b| > 0 && b[0] == '/') ==> StartsWith(JoinPath(a, b), a)
  {
  }

  /** A relative, non-empty path component that does not end in '/'. */
  predicate Component(s: string) {
    |s| > 0 && s[0] != '/' && s[|s| - 1] != '/'
  }

  /** `_get_snapshots_dir_path`. */
  function SnapshotsDir(parent: string, subdir: string): string {
    JoinPath(parent, subdir)
  }

  /** `_get_full_snapshot_path`: `os.path.join(parent, subdir, name)`. */
  function SnapshotPath(parent: string, subdir: string, name: string): string {
    JoinPath(JoinPath(parent, subdir), name)
  }

  /** For a parent that does not end in '/' and plain components, the
      snapshot path is parent/subdir/name, and it lies in the snapshots
      directory. */
  lemma SnapshotPathShape(parent: string, subdir: string, name: string)
    requires parent != [] && parent[|parent| - 1] != '/'
    requires Component(subdir) && Component(name)
    ensures SnapshotsDir(parent, subdir) == parent + "/" + subdir
    ensures SnapshotPath(parent, subdir, name) == parent + "/" + subdir + "/" + name
    ensures SnapshotPath(parent, subdir, name) == SnapshotsDir(parent, subdir) + "/" + name
  {
    var dir := parent + "/" + subdir;
    assert dir[|dir| - 1] == subdir[|subdir| - 1];
  }

  // ---------------------------------------------------------------------
  // Listing the snapshots directory
  // ---------------------------------------------------------------------

  /** One entry of `os.listdir`, with whether `os.path.isdir` holds for it. */
  datatype DirEntry = DirEntry(name: string, isDir: bool)

  /** What the snapshots directory looks like: absent, unreadable
      (`OSError` from `os.listdir`), or its entries in listing order. */
  datatype Listing = Missing | Unreadable | Entries(entries: seq<DirEntry>)

  /** The entries that are managed snapshots, in listing order: directories
      whose names parse as timestamps. */
  function Managed(entries: seq<DirEntry>): seq<Snapshot> {
    if entries == [] then []
    else Managed(entries[..|entries| - 1]) + ManagedEntry(entries[|entries| - 1])
  }

  function ManagedEntry(e: DirEntry): seq<Snapshot> {
    if e.isDir then
      match ParseName(e.name)
      case Some(t) => [Snapshot(e.name, t)]
      case None => []
    else []
  }

  /** What `list_snapshots` returns. */
  function Listed(listing: Listing): seq<Snapshot> {
    match listing
    case Entries(entries) => SortNewestFirst(Managed(entries))
    case _ => []
  }

  /** `list_snapshots`: collect the managed entries, then sort newest first. */
  method ListSnapshots(listing: Listing) returns (snaps: seq<Snapshot>)
    ensures snaps == Listed(listing)
    ensures NewestFirst(snaps)
  {
    if !listing.Entries? {
      return [];
    }
    var entries := listing.entries;
    var found: seq<Snapshot> := [];
    var i := 0;
    while i < |entries|
      invariant 0 <= i <= |entries|
      invariant found == Managed(entries[..i])
    {
      var e := entries[i];
      assert entries[..i + 1][..i] == entries[..i];
      if e.isDir {
        var t := ParseName(e.name);
        if t.Some? {
          found := found + [Snapshot(e.name, t.value)];
        }
      }
      i := i + 1;
    }
    assert entries[..i] == entries;
    snaps := SortNewestFirst(found);
  }

  lemma {:induction false} ManagedMembers(entries: seq<DirEntry>, x: Snapshot)
    ensures x in Managed(entries) <==> DirEntry(x.name, true) in entries && ParseName(x.name) == Some(x.ts)
  {
    if entries != [] {
      var init := entries[..|entries| - 1];
      ManagedMembers(init, x);
      assert entries == init + [entries[|entries| - 1]];
    }
  }

  /** A snapshot is listed exactly when the directory exists and holds a
      sub-directory with that name, and the name parses to its timestamp. */
  lemma ListedMembers(listing: Listing, x: Snapshot)
    ensures x in Listed(listing) <==>
            listing.Entries? && DirEntry(x.name, true) in listing.entries && ParseName(x.name) == Some(x.ts)
  {
    if listing.Entries? {
      ManagedMembers(listing.entries, x);
      var sorted := SortNewestFirst(Managed(listing.entries));
      assert x in sorted <==> x in multiset(sorted);
    }
  }

  /** A name determines its timestamp, so a listing never holds two
      different snapshots with one name. */
  lemma ListedUniqueNames(listing: Listing)
    ensures UniqueNames(Listed(listing))
  {
    forall x, y | x in Listed(listing) && y in Listed(listing) && x.name == y.name
      ensures x == y
    {
      ListedMembers(listing, x);
      ListedMembers(listing, y);
    }
  }

  /** A missing or unreadable snapshots directory lists nothing. */
  lemma NoDirectoryListsNothing(listing: Listing)
    requires !listing.Entries?
    ensures Listed(listing) == []
  {
  }

  // ---------------------------------------------------------------------
  // Commands
  // ---------------------------------------------------------------------

  function CreateSubvolumeArgv(dir: string): seq<string> {
    ["bcachefs", "subvolume", "create", dir]
  }

  /** `bcachefs subvolume snapshot [-r] <parent> <dest>`. */
  function SnapshotArgv(parent: string, dest: string, readOnly: bool): (argv: seq<string>)
    ensures |argv| >= 5 && argv[..3] == ["bcachefs", "subvolume", "snapshot"]
    ensures argv[3..] == (if readOnly then ["-r", parent, dest] else [parent, dest])
  {
    ["bcachefs", "subvolume", "snapshot"] + (if readOnly then ["-r"] else []) + [parent, dest]
  }

  function DeleteArgv(path: string): seq<string> {
    ["bcachefs", "subvolume", "delete", path]
  }

  /** `ensure_snapshots_subdir_exists`. An existing directory, or a dry run,
      needs no command; otherwise `bcachefs subvolume create` runs and any
      failure ends the program with status 1 (`Err(1)`). */
  method EnsureSnapshotsDir(r: Runner, parent: string, subdir: string, dirExists: bool, dryRun: bool)
    returns (res: Result<string, int>)
    modifies r
    ensures var dir := SnapshotsDir(parent, subdir);
            if dirExists || dryRun then
              res == Ok(dir) && r.log == old(r.log) && r.script == old(r.script)
            else
              r.log == old(r.log) + [Command(CreateSubvolumeArgv(dir))]
              && r.script == RestOf(old(r.script))
              && res == (if NextOutcome(old(r.script)).Succeeded() then Ok(dir) else Err(1))
  {
    var dir := SnapshotsDir(parent, subdir);
    if dirExists || dryRun {
      return Ok(dir);
    }
    var o := r.Run(CreateSubvolumeArgv(dir));
    if o.Succeeded() {
      res := Ok(dir);
    } else {
      res := Err(1);
    }
  }

  /** `create_snapshot`, with the clock reading `now` as a parameter. The
      snapshot is named after `now`; a dry run issues no command and returns
      the path the snapshot would have. */
  method CreateSnapshot(r: Runner, parent: string, subdir: string, readOnly: bool, dryRun: bool,
                        dirExists: bool, now: Stamp)
    returns (res: Result<string, int>)
    modifies r
    ensures var path := SnapshotPath(parent, subdir, FormatName(now));
            var ensure := if dirExists || dryRun then [] else [Command(CreateSubvolumeArgv(SnapshotsDir(parent, subdir)))];
            var ensured := dirExists || dryRun || NextOutcome(old(r.script)).Succeeded();
            var afterEnsure := if dirExists || dryRun then old(r.script) else RestOf(old(r.script));
            if !ensured then
              res == Err(1) && r.log == old(r.log) + ensure && r.script == afterEnsure
            else if dryRun then
              res == Ok(path) && r.log == old(r.log) && r.script == old(r.script)
            else
              r.log == old(r.log) + ensure + [Command(SnapshotArgv(parent, path, readOnly))]
              && r.script == RestOf(afterEnsure)
              && res == (if NextOutcome(afterEnsure).Succeeded() then Ok(path) else Err(1))
  {
    var ensured := EnsureSnapshotsDir(r, parent, subdir, dirExists, dryRun);
    if ensured.Err? {
      return Err(1);
    }
    var path := SnapshotPath(parent, subdir, FormatName(now));
    if dryRun {
      return Ok(path);
    }
    var o := r.Run(SnapshotArgv(parent, path, readOnly));
    if o.Succeeded() {
      res := Ok(path);
    } else {
      res := Err(1);
    }
  }

  /** A snapshot taken at `now` (a four-digit year) shows up in the next
      listing under its own timestamp once its directory exists. */
  lemma CreatedIsListed(entries: seq<DirEntry>, now: Stamp)
    requires now.year >= 1000
    requires DirEntry(FormatName(now), true) in entries
    ensures Snapshot(FormatName(now), now) in Listed(Entries(entries))
  {
    ParseFormatName(now);
    ListedMembers(Entries(entries), Snapshot(FormatName(now), now));
  }

  /** How one deletion ended: the command succeeded, it failed and the
      failure was reported, or the `bcachefs` executable was missing and
      the program exited with status 1. */
  datatype Deletion = Deleted | Reported | Exit

  function DeletionOf(o: Outcome): Deletion {
    match o
    case NotFound => Exit
    case Exited(code, _, _) => if code == 0 then Deleted else Reported
  }

  /** `delete_snapshot`. A dry run issues no command. */
  method DeleteSnapshot(r: Runner, parent: string, subdir: string, name: string, dryRun: bool)
    returns (d: Deletion)
    modifies r
    ensures dryRun ==> d == Deleted && r.log == old(r.log) && r.script == old(r.script)
    ensures !dryRun ==> r.log == old(r.log) + [Command(DeleteArgv(SnapshotPath(parent, subdir, name)))]
                        && r.script == RestOf(old(r.script))
                        && d == DeletionOf(NextOutcome(old(r.script)))
  {
    if dryRun {
      return Deleted;
    }
    var o := r.Run(DeleteArgv(SnapshotPath(parent, subdir, name)));
    d := DeletionOf(o);
  }

  // ---------------------------------------------------------------------
  // Pruning
  // ---------------------------------------------------------------------

  /** What the deletion loop does for `names`, given the outcomes the runner
      will hand out: the delete commands it issues (one per name, in order,
      stopping right after a missing executable), the names whose failure is
      reported, whether it ends the program, and the outcomes still unused
      when it is over. */
  datatype DeleteRun = DeleteRun(cmds: seq<Effect>, failed: seq<string>, exits: bool, left: seq<Outcome>)

  function Deletions(parent: string, subdir: string, names: seq<string>, script: seq<Outcome>): (run: DeleteRun)
    ensures |run.cmds| <= |names|
  {
    if names == [] then DeleteRun([], [], false, script)
    else
      var cmd := Command(DeleteArgv(SnapshotPath(parent, subdir, names[0])));
      var o := NextOutcome(script);
      if o == NotFound then DeleteRun([cmd], [], true, RestOf(script))
      else
        var rest := Deletions(parent, subdir, names[1..], RestOf(script));
        DeleteRun([cmd] + rest.cmds, (if DeletionOf(o) == Reported then [names[0]] else []) + rest.failed, rest.exits, rest.left)
  }

  /** How `prune_snapshots` ends. */
  datatype PruneEnd =
    | NoSnapshots
    | NothingToDelete
    | DryRunOnly
    | Declined
    | Pruned(failed: seq<string>)
    | Stopped(code: int)

  /** The names `prune_snapshots` would delete for this listing and policy. */
  function PrunePlan(listing: Listing, policy: Policy): seq<string> {
    var snaps := Listed(listing);
    ToDelete(snaps, KeepSet(snaps, policy))
  }

  /** How the deletion loop ends the prune. */
  function EndOf(run: DeleteRun): PruneEnd {
    if run.exits then Stopped(1) else Pruned(run.failed)
  }

  /** `prune_snapshots`: list, select what to keep, and delete the rest
      unless this is a dry run or the answer to the prompt is not "yes". */
  method PruneSnapshots(r: Runner, parent: string, subdir: string, listing: Listing, policy: Policy,
                        dryRun: bool, answer: string)
    returns (end: PruneEnd)
    modifies r
    ensures var snaps := Listed(listing);
            var plan := PrunePlan(listing, policy);
            var proceed := snaps != [] && plan != [] && !dryRun && Lower(answer) == "yes";
            (snaps == [] ==> end == NoSnapshots)
            && (snaps != [] && plan == [] ==> end == NothingToDelete)
            && (snaps != [] && plan != [] && dryRun ==> end == DryRunOnly)
            && (snaps != [] && plan != [] && !dryRun && Lower(answer) != "yes" ==> end == Declined)
            && (!proceed ==> r.log == old(r.log) && r.script == old(r.script))
            && (proceed ==>
                  var run := Deletions(parent, subdir, plan, old(r.script));
                  r.log == old(r.log) + run.cmds && r.script == run.left && end == EndOf(run))
  {
    var snaps := ListSnapshots(listing);
    if snaps == [] {
      return NoSnapshots;
    }
    var keep := KeepNames(snaps, policy);
    var plan := PlanDeletions(snaps, keep);
    if plan == [] {
      return NothingToDelete;
    }
    if dryRun {
      return DryRunOnly;
    }
    if Lower(answer) != "yes" {
      return Declined;
    }
    end := DeleteAll(r, parent, subdir, plan);
  }

  /** The deletion loop of `prune_snapshots`. */
  method DeleteAll(r: Runner, parent: string, subdir: string, names: seq<string>) returns (end: PruneEnd)
    modifies r
    ensures var run := Deletions(parent, subdir, names, old(r.script));
            r.log == old(r.log) + run.cmds && r.script == run.left && end == EndOf(run)
  {
    var failed: seq<string> := [];
    var i := 0;
    while i < |names|
      invariant 0 <= i <= |names|
      invariant Continues(Deletions(parent, subdir, names, old(r.script)), old(r.log), failed,
                          Deletions(parent, subdir, names[i..], r.script), r.log)
    {
      ghost var log := r.log;
      ghost var now := Deletions(parent, subdir, names[i..], r.script);
      var stop, failed' := DeleteNext(r, parent, subdir, names, i, failed);
      if stop {
        return Stopped(1);
      }
      ContinuesTrans(Deletions(parent, subdir, names, old(r.script)), old(r.log), failed, now, log,
                     failed'[|failed|..], Deletions(parent, subdir, names[i + 1..], r.script), r.log);
      assert failed' == failed + failed'[|failed|..];
      failed := failed';
      i := i + 1;
    }
    assert names[i..] == [];
    end := Pruned(failed);
  }

  /** The whole run from `log0` is the part done so far (`log`, `failed`)
      followed by the remaining run. */
  predicate Continues(whole: DeleteRun, log0: seq<Effect>, failed: seq<string>, rest: DeleteRun, log: seq<Effect>) {
    log + rest.cmds == log0 + whole.cmds
    && failed + rest.failed == whole.failed
    && rest.exits == whole.exits
    && rest.left == whole.left
  }

  lemma ContinuesTrans(whole: DeleteRun, log0: seq<Effect>, failed: seq<string>, mid: DeleteRun, log1: seq<Effect>,
                       more: seq<string>, rest: DeleteRun, log2: seq<Effect>)
    requires Continues(whole, log0, failed, mid, log1) && Continues(mid, log1, more, rest, log2)
    ensures Continues(whole, log0, failed + more, rest, log2)
  {
    assert (failed + more) + rest.failed == failed + (more + rest.failed);
  }

  /** One turn of the deletion loop: delete `names[i]`, note a reported
      failure, and stop when the executable is missing. */
  method DeleteNext(r: Runner, parent: string, subdir: string, names: seq<string>, i: nat, failed: seq<string>)
    returns (stop: bool, failed': seq<string>)
    requires i < |names|
    modifies r
    ensures var now := Deletions(parent, subdir, names[i..], old(r.script));
            (stop <==> NextOutcome(old(r.script)) == NotFound)
            && (stop ==> now.exits && r.log == old(r.log) + now.cmds && r.script == now.left)
            && (!stop ==> failed' == failed + (if DeletionOf(NextOutcome(old(r.script))) == Reported then [names[i]] else [])
                          && Continues(now, old(r.log), failed'[|failed|..], Deletions(parent, subdir, names[i + 1..], r.script), r.log))
  {
    assert names[i..][0] == names[i] && names[i..][1..] == names[i + 1..];
    var log0 := r.log;
    var d := DeleteSnapshot(r, parent, subdir, names[i], false);
    stop := d == Exit;
    failed' := if d == Reported then failed + [names[i]] else failed;
    if !stop {
      var cmd := Command(DeleteArgv(SnapshotPath(parent, subdir, names[i])));
      var next := Deletions(parent, subdir, names[i + 1..], r.script);
      var now := Deletions(parent, subdir, names[i..], old(r.script));
      var mine := if d == Reported then [names[i]] else [];
      assert now.cmds == [cmd] + next.cmds;
      assert r.log + next.cmds == log0 + ([cmd] + next.cmds);
      assert now.failed == mine + next.failed;
      assert failed'[|failed|..] == mine;
      assert now.exits == next.exits && now.left == next.left;
    }
  }

  /** Every name in the plan gets its delete command, in order, as long as
      the `bcachefs` executable is found: a failed deletion does not stop
      the ones after it. */
  lemma {:induction false} AllDeletionsAttempted(parent: string, subdir: string, names: seq<string>, script: seq<Outcome>)
    requires NotFound !in script
    ensures var run := Deletions(parent, subdir, names, script);
            |run.cmds| == |names| && !run.exits
            && forall i | 0 <= i < |names| :: run.cmds[i] == Command(DeleteArgv(SnapshotPath(parent, subdir, names[i])))
  {
    if names != [] {
      if script != [] {
        assert script[0] in script;
      }
      AllDeletionsAttempted(parent, subdir, names[1..], RestOf(script));
      var run := Deletions(parent, subdir, names, script);
      forall i | 1 <= i < |names|
        ensures run.cmds[i] == Command(DeleteArgv(SnapshotPath(parent, subdir, names[i])))
      {
        assert names[1..][i - 1] == names[i];
      }
    }
  }

  // ---------------------------------------------------------------------
  // Effective settings (`main`)
  // ---------------------------------------------------------------------

  /** `args.parent_subvolume or config.get(...)`: the command line wins when
      it gives a non-empty path, then the configuration file; with neither
      the tool stops with status 1 (`None`). */
  function ParentSetting(cli: Option<string>, file: Option<string>): (r: Option<string>)
    ensures r.Some? ==> r.value != []
    ensures cli.Some? && cli.value != [] ==> r == cli
  {
    var p := if cli.Some? && cli.value != [] then cli.value else file.GetOr("");
    if p == [] then None else Some(p)
  }

  /** The snapshots sub-directory: a command-line value other than the
      default wins, then the configuration file, then the command-line
      value (the default when none was given). */
  function SubdirSetting(cli: string, file: Option<string>): (r: string)
    ensures cli != DefaultSubdir ==> r == cli
    ensures cli == DefaultSubdir && file.Some? ==> r == file.value
    ensures file.None? ==> r == cli
  {
    var fromFile := file.GetOr(cli);
    if cli != DefaultSubdir then cli else fromFile
  }

  /** One retention count: the command-line value if given, else the
      configuration file's value read with `int()`, else 0. A file value
      that is not an integer raises (`None`). */
  function CountSetting(cli: Option<int>, file: Option<string>): (r: Option<int>)
    ensures cli.Some? ==> r == cli
    ensures cli.None? && file.None? ==> r == Some(0)
  {
    if cli.Some? then cli
    else match file
      case None => Some(0)
      case Some(text) => ParseInt(text)
  }

  /** A count written to the configuration file as `str(n)` is read back as n. */
  lemma CountSettingFromFile(n: int)
    ensures CountSetting(None, Some(IntToString(n))) == Some(n)
  {
    ParseIntToString(n);
  }

  /** The command-line and configuration-file values of the five counts. */
  datatype CountSources = CountSources(cli: Option<int>, file: Option<string>)

  /** The effective retention policy, or `None` when a file value is not an
      integer. */
  function PolicySetting(hourly: CountSources, daily: CountSources, weekly: CountSources,
                         monthly: CountSources, yearly: CountSources): (r: Option<Policy>)
    ensures r.Some? <==> CountSetting(hourly.cli, hourly.file).Some? && CountSetting(daily.cli, daily.file).Some?
                         && CountSetting(weekly.cli, weekly.file).Some? && CountSetting(monthly.cli, monthly.file).Some?
                         && CountSetting(yearly.cli, yearly.file).Some?
    ensures r.Some? ==> r.value.hourly == CountSetting(hourly.cli, hourly.file).value
                        && r.value.daily == CountSetting(daily.cli, daily.file).value
                        && r.value.weekly == CountSetting(weekly.cli, weekly.file).value
                        && r.value.monthly == CountSetting(monthly.cli, monthly.file).value
                        && r.value.yearly == CountSetting(yearly.cli, yearly.file).value
  {
    var h :- CountSetting(hourly.cli, hourly.file);
    var d :- CountSetting(daily.cli, daily.file);
    var w :- CountSetting(weekly.cli, weekly.file);
    var m :- CountSetting(monthly.cli, monthly.file);
    var y :- CountSetting(yearly.cli, yearly.file);
    Some(Policy(h, d, w, m, y))
  }
}
