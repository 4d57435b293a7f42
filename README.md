# Homelab backup pipeline and storage tools, in Dafny

This project models the core of a homelab's storage and backup tooling and
proves properties of that model.

**The backup pipeline** is the main part:

- `bcachefs-snap` takes snapshots of a bcachefs subvolume. Each snapshot is
  named after its timestamp. The tool lists the managed snapshots newest
  first. A retention policy keeps the newest snapshot of each of the N most
  recent hours, days, ISO weeks, months and years, and deletes the rest.
- `sync-host` triggers a snapshot, mirrors every rclone remote to a local
  directory and counts the successes and failures. When nothing failed, it
  waits for the bcachefs maintenance services, schedules the next RTC wake
  and powers off.

**The smaller tools** are modelled for their parsers, serialisers and
selection logic:

- `remote-drive-info`:
  - device classification;
  - the choice of `/dev/disk/by-id` names;
  - the numbering of disko disks;
  - the JSON-to-Nix serialiser.
- `bcachefs-io-metrics`: the `io_done` parser and the per-group and overall
  aggregation.
- `bcachefs-doctor`: the parsers for `bcachefs status`, `df`, `/proc/mounts`,
  `mount -t bcachefs` and `MemTotal`.
- `health-report`:
  - mount exclusion;
  - the disk status thresholds;
  - summary assembly;
  - message truncation;
  - splitting the detailed report into sections.
- `update-sops-keys`: the merge of an age key into `.sops.yaml`, and
  re-encryption only after a change.

## How the model is built

**External programs.** Every program a script starts goes through
`Exec.Runner`, a class with two fields:

- a script of outcomes fixed in advance, handed out in order;
- a log of effects: commands with their argument vectors, sleeps and
  directory creation.

The methods that run commands state their whole effect as a function of the
old script. That function is the specification. Lemmas about it state the
properties.

**Inputs taken as values.** Each of these is a parameter rather than a call:

- the current time;
- directory listings;
- the `yes` prompt;
- the parsed configuration files;
- the parsed durations.

**Timestamps** are integer records compared field by field (module
`Calendar`). ISO 8601 week dates are computed as Python's
`date.isocalendar()` computes them: ISO 8601:2004, section 4.1.4.

**Loops** become Dafny methods with loop invariants. Each is proved equal to a
specification function. The properties are lemmas about that function.

Modules and their files:

- `wrappers.dfy` (module `Wrappers`): `Option`, `Result`
- `text.dfy` (module `Text`): Python string operations: `split`, `join`, `strip`, `split()`, `splitlines`, `lower`, `int()`, `str()`
- `seqs.dfy`, `dicts.dfy`, `sums.dfy` (modules `Seqs`, `Dicts`, `MapSums`): filtering a list, filling a dictionary by assignments, summing dictionary values
- `runner.dfy` (module `Exec`): the command runner
- `calendar.dfy` (module `Calendar`): timestamps, ordinals, the ISO calendar
- `snapnames.dfy` (module `SnapNames`): `strftime`/`strptime` for `%Y-%m-%d_%H-%M-%S`
- `retention.dfy`, `retention_props.dfy` (modules `Retention`, `RetentionProps`): retention selection and its properties
- `snapstore.dfy` (module `SnapStore`): paths, listing, create, ensure, delete, prune, settings
- `synchost.dfy` (module `SyncHost`): rclone derivations, the service drain, `set_next_wakeup`, the `main` stages
- `sops.dfy` (module `SopsKeys`): `update_sops_yaml` and the update-then-re-encrypt block
- `nix.dfy`, `byid.dfy`, `drives.dfy` (modules `Nix`, `ByIdLinks`, `DriveInfo`): the drive-info tool
- `iodone.dfy`, `iometrics.dfy` (modules `IoDone`, `IoMetrics`): `io_done` parsing and aggregation
- `doctor.dfy` (module `Doctor`): the doctor's parsers
- `health.dfy` (module `Health`): the health report

## Model

| member | source | states |
|---|---|---|
| `Exec.Runner.constructor` | packages/bcachefs-snap/bcachefs-snap.py:17-42 | A runner starts with the given outcome script and an empty log. |
| `Exec.Runner.Run` | packages/bcachefs-snap/bcachefs-snap.py:17-42 | Starting a program logs its argument vector and consumes exactly the next scripted outcome: an exit status with its output, or a missing executable. |
| `Exec.Runner.Sleep` | packages/sync-host/sync-host.py:123 | A sleep is logged with its duration and consumes no outcome. |
| `Exec.Runner.MakeDirs` | packages/sync-host/sync-host.py:40 | Creating the target directory is logged and consumes no outcome. |
| `Text.JoinSplit` | encrypted/update-sops-keys.py:41 | Splitting at a separator and joining with it gives the text back. |
| `Text.SplitJoin` | encrypted/update-sops-keys.py:41-46 | Parts without the separator, joined and split again, give the parts back. |
| `Text.SplitWsJoin` | packages/bcachefs-doctor/bcachefs-doctor.py:313 | `split()` reads back words joined by single spaces. |
| `Text.StripEnds` | encrypted/update-sops-keys.py:42 | A stripped text neither starts nor ends with white space. |
| `Text.ParseIntToString` | packages/bcachefs-snap/bcachefs-snap.py:400 | `int(str(i)) == i` for every integer. |
| `Text.ZeroPadLength` | packages/bcachefs-snap/bcachefs-snap.py:14 | Zero-padding a number below 10^width gives exactly `width` digits. |
| `Calendar.BeforeTotal` | packages/bcachefs-snap/bcachefs-snap.py:170 | Any two timestamps are ordered one way or the other. |
| `Calendar.InstantOrder` | packages/bcachefs-snap/bcachefs-snap.py:170 | For valid timestamps, comparing instants is comparing field by field, and equal instants mean equal timestamps. |
| `Calendar.IsoCalendar` | packages/bcachefs-snap/bcachefs-snap.py:258-260 | The ISO weekday of a date is 1 to 7, and its ISO year is the calendar year or an adjacent one. |
| `Calendar.YearLength` | packages/bcachefs-snap/bcachefs-snap.py:258-260 | A year has 366 days when it is a leap year and 365 otherwise. |
| `Calendar.OrdinalInYear` | packages/bcachefs-snap/bcachefs-snap.py:258-260 | The days of a valid date fall inside its year. |
| `Calendar.Week1MondayNearJan1` | packages/bcachefs-snap/bcachefs-snap.py:258-260 | ISO week 1 starts on a Monday at most three days from January 1st. |
| `Calendar.IsoYearLength` | packages/bcachefs-snap/bcachefs-snap.py:258-260 | Consecutive ISO years are 52 or 53 weeks long (364 or 371 days between their first Mondays). |
| `Calendar.IsoWeekRange` | packages/bcachefs-snap/bcachefs-snap.py:258-260 | ISO weeks are numbered 1 to 53, and the ISO weekday is the day of the week of the date. |
| `SnapNames.ParseName` | packages/bcachefs-snap/bcachefs-snap.py:48-59 | Whatever `strptime` accepts with the snapshot format is a valid timestamp: every field in range, the day within its month. |
| `SnapNames.ParseFormatName` | packages/bcachefs-snap/bcachefs-snap.py:44-59 | Formatting a timestamp as a snapshot name and parsing the name gives the timestamp back. |
| `SnapNames.ParseFields` | packages/bcachefs-snap/bcachefs-snap.py:14 | Six digit fields laid out as the format lays them out parse to those values. |
| `Retention.SortNewestFirst` | packages/bcachefs-snap/bcachefs-snap.py:170 | The sorted listing is newest first and holds the same snapshots. |
| `Retention.NewestIsNewest` | packages/bcachefs-snap/bcachefs-snap.py:245-247 | No snapshot of a group is newer than the one kept, and every snapshot before it is strictly older. |
| `Retention.SortedHeadIsNewest` | packages/bcachefs-snap/bcachefs-snap.py:245-247 | The head of the stable newest-first sort is the newest snapshot, the earliest among ties. |
| `Retention.InPeriodNonEmpty` | packages/bcachefs-snap/bcachefs-snap.py:226-229 | Every period that holds a snapshot has a non-empty group. |
| `Retention.SortPeriodsDesc` | packages/bcachefs-snap/bcachefs-snap.py:234 | The period keys, latest first, with nothing added or lost. |
| `Retention.RankInSorted` | packages/bcachefs-snap/bcachefs-snap.py:234 | In the latest-first list of keys, the key at index `j` has exactly `j` later keys. |
| `Retention.TopOfSorted` | packages/bcachefs-snap/bcachefs-snap.py:234-239 | The `n` most recent periods are the first `n` of the latest-first list, or all of them when there are fewer. |
| `Retention.GroupByPeriod` | packages/bcachefs-snap/bcachefs-snap.py:226-229 | The grouping loop maps each period to its snapshots in listing order, with the keys in first-seen order. |
| `Retention.GroupStep` | packages/bcachefs-snap/bcachefs-snap.py:227-229 | One turn of the grouping loop keeps the dictionary equal to the grouping of the snapshots seen so far. |
| `Retention.ApplyPeriodRetention` | packages/bcachefs-snap/bcachefs-snap.py:220-248 | One granularity adds to the keep set exactly the newest snapshot of each of the `count` latest periods. |
| `Retention.KeepLatestPeriods` | packages/bcachefs-snap/bcachefs-snap.py:236-248 | The `kept_periods` loop keeps the newest snapshot of each period, latest first, until `count` are kept. |
| `Retention.SelectedPeriod` | packages/bcachefs-snap/bcachefs-snap.py:236-248 | A selected name is that of the newest snapshot of a top period. |
| `Retention.KeepNames` | packages/bcachefs-snap/bcachefs-snap.py:250-266 | The five guarded calls give the union of the hourly, daily, weekly (ISO), monthly and yearly selections. |
| `Retention.RetainIfCounted` | packages/bcachefs-snap/bcachefs-snap.py:252-266 | A count of zero or less adds nothing. |
| `Retention.SelectedNone` | packages/bcachefs-snap/bcachefs-snap.py:221-222 | A count of zero or less selects nothing. |
| `Retention.PlanDeletions` | packages/bcachefs-snap/bcachefs-snap.py:276-279 | The delete list is the listed names not kept, in listing order. |
| `Retention.ToDeleteMembers` | packages/bcachefs-snap/bcachefs-snap.py:276-279 | A name is deleted exactly when it is listed and not kept. |
| `RetentionProps.InPeriodMembers` | packages/bcachefs-snap/bcachefs-snap.py:226-229 | A period's group holds exactly the listed snapshots of that period. |
| `RetentionProps.NewestOfPeriod` | packages/bcachefs-snap/bcachefs-snap.py:245-247 | The snapshot a period keeps is listed and of that period, and no listed snapshot of the period is newer. |
| `RetentionProps.SelectedMembers` | packages/bcachefs-snap/bcachefs-snap.py:220-248 | Every name one granularity keeps belongs to a listed snapshot that is the newest of one of the `count` most recent periods. |
| `RetentionProps.SelectedCount` | packages/bcachefs-snap/bcachefs-snap.py:220-248 | One granularity keeps at most min(count, #periods) names, none for a count below one, and exactly that many when names are unique. |
| `RetentionProps.NewestNamesDiffer` | packages/bcachefs-snap/bcachefs-snap.py:245-247 | With unique names, two different periods keep two different names. |
| `RetentionProps.KeepSetListed` | packages/bcachefs-snap/bcachefs-snap.py:250-266 | The keep set names only listed snapshots. |
| `RetentionProps.Partition` | packages/bcachefs-snap/bcachefs-snap.py:276-279 | Each listed name is kept or deleted, never both, and nothing else is deleted. |
| `RetentionProps.AllZeroDeletesAll` | packages/bcachefs-snap/bcachefs-snap.py:252-279 | With every count at zero or below, nothing is kept and the whole listing is deleted in listing order. |
| `RetentionProps.EmptyListing` | packages/bcachefs-snap/bcachefs-snap.py:211-214 | An empty listing keeps nothing and deletes nothing. |
| `RetentionProps.InPeriodKeptOnly` | packages/bcachefs-snap/bcachefs-snap.py:226-229 | Filtering by name and grouping by period commute. |
| `RetentionProps.NewestKeptOnly` | packages/bcachefs-snap/bcachefs-snap.py:245-247 | Dropping snapshots other than the newest leaves the newest in place. |
| `RetentionProps.RankSubset` | packages/bcachefs-snap/bcachefs-snap.py:234-239 | Fewer periods never raise a period's rank. |
| `RetentionProps.SelectedStable` | packages/bcachefs-snap/bcachefs-snap.py:220-248 | A granularity whose names are all kept selects them again from the kept snapshots alone. |
| `RetentionProps.StillSelected` | packages/bcachefs-snap/bcachefs-snap.py:234-248 | The newest snapshot of a kept period is still the newest of that period among the kept snapshots, and the period still ranks among the `count` most recent. |
| `RetentionProps.Idempotent` | packages/bcachefs-snap/bcachefs-snap.py:234-279 | Running the policy again on the snapshots it kept keeps every one of them and deletes nothing. |
| `SnapStore.JoinPathShape` | packages/bcachefs-snap/bcachefs-snap.py:62-68 | `os.path.join` ends with its last component: that component alone when it is absolute, otherwise a path starting with the first. |
| `SnapStore.SnapshotPathShape` | packages/bcachefs-snap/bcachefs-snap.py:62-68 | For plain components the snapshot path is parent/subdir/name, inside the snapshots directory. |
| `SnapStore.ListSnapshots` | packages/bcachefs-snap/bcachefs-snap.py:141-171 | The listing is the managed entries, sorted newest first. |
| `SnapStore.ListedMembers` | packages/bcachefs-snap/bcachefs-snap.py:151-164 | A snapshot is listed exactly when the directory exists and holds a sub-directory with that name, and the name parses to its timestamp. |
| `SnapStore.ListedUniqueNames` | packages/bcachefs-snap/bcachefs-snap.py:158-164 | A listing never holds two different snapshots with one name. |
| `SnapStore.NoDirectoryListsNothing` | packages/bcachefs-snap/bcachefs-snap.py:151-167 | A missing or unreadable snapshots directory lists nothing; it is not an error. |
| `SnapStore.SnapshotArgv` | packages/bcachefs-snap/bcachefs-snap.py:126-129 | `bcachefs subvolume snapshot`, then `-r` only for a read-only snapshot, then the parent and the destination. |
| `SnapStore.EnsureSnapshotsDir` | packages/bcachefs-snap/bcachefs-snap.py:70-100 | An existing directory or a dry run issues no command. Otherwise `bcachefs subvolume create` runs, and any failure ends the program with status 1. |
| `SnapStore.CreateSnapshot` | packages/bcachefs-snap/bcachefs-snap.py:102-139 | The snapshot is named after the clock. A dry run issues no snapshot command and returns the would-be path. A failure ends the program with status 1. Every case states the log and the outcomes left over: one per command issued. |
| `SnapStore.CreatedIsListed` | packages/bcachefs-snap/bcachefs-snap.py:118-164 | A snapshot taken at `now` appears in the next listing under its own timestamp once its directory exists. |
| `SnapStore.DeleteSnapshot` | packages/bcachefs-snap/bcachefs-snap.py:173-198 | A dry run issues no command. Otherwise exactly `bcachefs subvolume delete <path>` runs. |
| `SnapStore.PruneSnapshots` | packages/bcachefs-snap/bcachefs-snap.py:201-302 | Nothing is deleted for an empty listing, an empty plan, a dry run, or an answer other than `yes`. Otherwise the planned deletions run in order. When nothing is deleted, no command is issued and no outcome is used; otherwise exactly the outcomes of the delete commands issued are used. |
| `SnapStore.DeleteAll` | packages/bcachefs-snap/bcachefs-snap.py:296-299 | Each planned name gets one delete command, in order, until the executable is missing. The log, the failures reported, the exit and the outcomes left over are those of the specification `Deletions`. |
| `SnapStore.DeleteNext` | packages/bcachefs-snap/bcachefs-snap.py:298-299 | One turn of the deletion loop, as specified. |
| `SnapStore.AllDeletionsAttempted` | packages/bcachefs-snap/bcachefs-snap.py:298-299 | Every planned name gets its delete command, in order, while the `bcachefs` executable is found; a failed deletion does not stop the later ones. |
| `SnapStore.ParentSetting` | packages/bcachefs-snap/bcachefs-snap.py:376-389 | A non-empty command-line parent wins, then the configuration file; with neither the tool stops. |
| `SnapStore.SubdirSetting` | packages/bcachefs-snap/bcachefs-snap.py:380-382 | A non-default command-line sub-directory wins, then the configuration file, then the command-line value. |
| `SnapStore.CountSetting` | packages/bcachefs-snap/bcachefs-snap.py:394-400 | A retention count is the command-line value, else the file's integer, else 0. A non-integer in the file is an error. |
| `SnapStore.CountSettingFromFile` | packages/bcachefs-snap/bcachefs-snap.py:400 | A count written to the file as `str(n)` reads back as n. |
| `SnapStore.PolicySetting` | packages/bcachefs-snap/bcachefs-snap.py:394-400 | The policy exists exactly when all five counts do, and holds each of them. |
| `SyncHost.SourceShape` | packages/sync-host/sync-host.py:27-33 | The rclone source keeps the remote as a prefix. It always names a remote, and belongs to the same remote name. A remote with an inner ':' is unchanged. |
| `SyncHost.RemoteNameShape` | packages/sync-host/sync-host.py:36 | The remote name is the text before the first ':', or the whole remote when it has none. |
| `SyncHost.TargetDir` | packages/sync-host/sync-host.py:37 | The base path without trailing '/', then '/', then the name. |
| `SyncHost.SyncArgv` | packages/sync-host/sync-host.py:43-52 | A fixed 13-word rclone command ending in the source and the target. |
| `SyncHost.RunRcloneSync` | packages/sync-host/sync-host.py:22-69 | The target directory is created. A dry run succeeds without running rclone. Otherwise one rclone run decides the result. |
| `SyncHost.SyncStage` | packages/sync-host/sync-host.py:224-242 | Each remote's sync runs once; the `i`-th rclone run receives the `i`-th outcome. |
| `SyncHost.SyncResults` | packages/sync-host/sync-host.py:226-240 | One result per remote. |
| `SyncHost.CountResults` | packages/sync-host/sync-host.py:231-240 | The `as_completed` loop computes the tally. |
| `SyncHost.Tally` | packages/sync-host/sync-host.py:231-240 | Every result counts once, as a success or as a failure. |
| `SyncHost.TallyCounts` | packages/sync-host/sync-host.py:231-240 | The successes are the `Synced` results, and everything else (a false result or an exception) is a failure. |
| `SyncHost.TallyOrderFree` | packages/sync-host/sync-host.py:231-240 | Completion order does not change the counters. |
| `SyncHost.TallyClean` | packages/sync-host/sync-host.py:231-257 | No failure is counted exactly when every sync succeeded. |
| `SyncHost.Drain` | packages/sync-host/sync-host.py:111-123 | One service is polled, with a 30-second sleep after each running answer, until it leaves the running states or a query raises. |
| `SyncHost.BusyRunEnds` | packages/sync-host/sync-host.py:111-123 | The answer after the busy run is not a running state. |
| `SyncHost.BusyPrefix` | packages/sync-host/sync-host.py:111-123 | Every answer before the first non-running one is a running state. |
| `SyncHost.DrainOneStops` | packages/sync-host/sync-host.py:111-123 | A drain that does not crash ends on an answer outside the running states, after answers that were all inside them. |
| `SyncHost.SurveyServices` | packages/sync-host/sync-host.py:98-108 | The first loop asks each service once and collects the running ones. |
| `SyncHost.SurveyAsksAll` | packages/sync-host/sync-host.py:98-108 | Unless a query raised, the first pass asks about every service exactly once, in order. |
| `SyncHost.SurveyRunning` | packages/sync-host/sync-host.py:98-108 | The services found running are among those asked. |
| `SyncHost.DrainServices` | packages/sync-host/sync-host.py:111-123 | The second loop drains each running service in turn. |
| `SyncHost.WaitForServices` | packages/sync-host/sync-host.py:87-125 | Every service is asked once, then each running one is polled until it stops. The result says whether an exception escaped. |
| `SyncHost.WaitOnlyQueries` | packages/sync-host/sync-host.py:87-125 | Waiting only asks `systemctl is-active` about one of the services, or sleeps 30 seconds. |
| `SyncHost.RtcwakeArgv` | packages/sync-host/sync-host.py:165-170 | `rtcwake -m off -t <timestamp>`. |
| `SyncHost.RtcwakeTime` | packages/sync-host/sync-host.py:165-170 | The alarm time on the command line reads back as itself. |
| `SyncHost.CoolOff` | packages/sync-host/sync-host.py:152-157 | The cool-off sleep happens unless the pause is `0s`. |
| `SyncHost.SetNextWakeup` | packages/sync-host/sync-host.py:145-183 | Disabled RTC wake returns before the cool-off, the drain and `rtcwake`. Otherwise: the pause, the drain, then `rtcwake`. Its failure exits with status 1. |
| `SyncHost.WakeLast` | packages/sync-host/sync-host.py:145-183 | Power-off happens at most once and last of all. It means the last effect is `rtcwake` with now plus the wake delay. |
| `SyncHost.RunPipeline` | packages/sync-host/sync-host.py:186-261 | A failed snapshot ends the run before any sync. Otherwise the successes are the synced remotes plus one for the service check, and the failures are the others. `set_next_wakeup` runs exactly when nothing failed. Every case states the log and the outcomes left over. |
| `SopsKeys.Rules` | encrypted/update-sops-keys.py:37-39 | A missing or empty `creation_rules` list reads as `[{}]`. |
| `SopsKeys.Cleaned` | encrypted/update-sops-keys.py:41-42 | The stripped, non-empty pieces, in order. |
| `SopsKeys.CleanedAreKeys` | encrypted/update-sops-keys.py:41-42 | Every extracted key is non-empty, stripped and comma-free. |
| `SopsKeys.KeysOfJoin` | encrypted/update-sops-keys.py:41-46 | A key list written with `", ".join` reads back as the same list. |
| `SopsKeys.UpdatedChanges` | encrypted/update-sops-keys.py:44-52 | The configuration changes exactly when the key was missing. |
| `SopsKeys.UpdatedAppends` | encrypted/update-sops-keys.py:44-46 | A missing key is appended at the end, and the list otherwise reads back unchanged. |
| `SopsKeys.UpdatedListsKey` | encrypted/update-sops-keys.py:44-46 | After the update the key is listed. |
| `SopsKeys.UpdatedKeepsRest` | encrypted/update-sops-keys.py:37-47 | Only the first rule's `age` field changes; every other field and rule is kept. |
| `SopsKeys.UpdateIdempotent` | encrypted/update-sops-keys.py:44-52 | Registering the same key a second time changes nothing. |
| `SopsKeys.SopsFile.constructor` | encrypted/update-sops-keys.py:29-35 | A configuration file, present or not, with no writes yet. |
| `SopsKeys.UpdateSopsYaml` | encrypted/update-sops-keys.py:29-52 | A missing file fails with nothing written. Otherwise a new key is appended, the file is written once and the result is true; a known key writes nothing and gives false. |
| `SopsKeys.RegisterHost` | encrypted/update-sops-keys.py:60-81 | Re-encryption runs only when the update changed the file. A failed key fetch or a missing file exits with status 1 and leaves the file untouched. A changed file is written exactly once, an unchanged one not at all, and each command uses exactly one outcome. |
| `Nix.ToNix` | packages/remote-drive-info/remote-drive-info.py:14-62 | Objects render between braces, lists between brackets, strings between quotes. Scalars render on one line. |
| `Nix.ObjectLines` | packages/remote-drive-info/remote-drive-info.py:18-31 | A non-empty object renders as the brace line, one `key = value;` line per entry in insertion order, then the closing brace. |
| `Nix.ListLines` | packages/remote-drive-info/remote-drive-info.py:33-45 | A non-empty list renders as the bracket line, one line per element in order, then the closing bracket. |
| `Nix.NixReadsEscapeNix` | packages/remote-drive-info/remote-drive-info.py:47-50 | The corrected escaping reads back in Nix as the original text. |
| `Nix.NixReadsEscape` | packages/remote-drive-info/remote-drive-info.py:47-50 | Text without backslashes or `${` reads back as itself under the escaping as written. |
| `Nix.EscapeLosesBackslash` | packages/remote-drive-info/remote-drive-info.py:49 | Under the escaping as written, backslash followed by `n` comes back from Nix as a newline. |
| `Nix.StringReadsBack` | packages/remote-drive-info/remote-drive-info.py:47-50 | A rendered string reads back as itself: always with the corrected escaping, and with the escaping as written when the text holds no backslash or `${`. |
| `DriveInfo.ClassOf` | packages/remote-drive-info/remote-drive-info.py:112-125 | Solid state on NVMe is nvme (hot), other solid state is ssd (warm), rotational is hdd (cold). |
| `DriveInfo.GetBlockDevices` | packages/remote-drive-info/remote-drive-info.py:92-109 | The loop returns the filtered, classified devices. |
| `DriveInfo.DisksMember` | packages/remote-drive-info/remote-drive-info.py:97-109 | A device is returned exactly when it is a disk with a serial number, under its own class. |
| `DriveInfo.DisksAppend` | packages/remote-drive-info/remote-drive-info.py:97-109 | Filtering keeps the input order. |
| `DriveInfo.DiskEntries` | packages/remote-drive-info/remote-drive-info.py:214-233 | One entry per disk, in input order. |
| `DriveInfo.CountLater` | packages/remote-drive-info/remote-drive-info.py:220-223 | A later disk of the same class gets a larger number. |
| `DriveInfo.DiskIdsDistinct` | packages/remote-drive-info/remote-drive-info.py:220-225 | No two disks get the same key, so the `disk` attribute set keeps every device. |
| `DriveInfo.GenerateDiskoConfig` | packages/remote-drive-info/remote-drive-info.py:208-248 | The per-class numbering loop gives the entries in input order, plus the fixed bcachefs pool. |
| `DriveInfo.NumberDisks` | packages/remote-drive-info/remote-drive-info.py:212-233 | The counters loop computes the entries it numbers. |
| `DriveInfo.NumberDisk` | packages/remote-drive-info/remote-drive-info.py:215-233 | One pass counts the disk in its class and numbers it with the new count. |
| `DriveInfo.CollectAndGenerate` | packages/remote-drive-info/remote-drive-info.py:251-273 | The disko configuration of the `lsblk` devices and the by-id map, rendered as Nix; an error exactly when the by-id parser fails. |
| `ByIdLinks.Links` | packages/remote-drive-info/remote-drive-info.py:142-146 | Only lines with at least 11 fields and `->` give a link, in listing order. |
| `ByIdLinks.EntriesAre` | packages/remote-drive-info/remote-drive-info.py:142-153 | The first pass records exactly the non-partition targets, each with all its link names in listing order. |
| `ByIdLinks.PreferIsBest` | packages/remote-drive-info/remote-drive-info.py:156-176 | The choice is the first name of the best class present: `ata-`, then NVMe model names, then any `nvme-`, then the first name. |
| `ByIdLinks.WholeDiskChoice` | packages/remote-drive-info/remote-drive-info.py:156-186 | Every whole-disk target gets the name of the best priority class, whatever the partitions do. |
| `ByIdLinks.PartitionPassKeeps` | packages/remote-drive-info/remote-drive-info.py:179-203 | The third pass never replaces an entry, and adds one for every partition target it meets and for nothing else. |
| `ByIdLinks.PartitionPassFails` | packages/remote-drive-info/remote-drive-info.py:194-198 | Once the third pass fails it stays failed. |
| `ByIdLinks.ByIdMapDomain` | packages/remote-drive-info/remote-drive-info.py:138-205 | The map names exactly the targets of the listing's links. |
| `ByIdLinks.PreferModel` | packages/remote-drive-info/remote-drive-info.py:163-166 | Of an EUI name and a model-and-serial name, the latter is chosen. |
| `ByIdLinks.NamespaceAsWritten` | packages/remote-drive-info/remote-drive-info.py:149-186 | As written, `nvme0n1` is handled as a partition and takes the first name listed for it. |
| `ByIdLinks.NamespaceCorrected` | packages/remote-drive-info/remote-drive-info.py:149-186 | Under the corrected test, `nvme0n1` is a whole disk and gets its model-and-serial name. |
| `ByIdLinks.ParseByIdLinks` | packages/remote-drive-info/remote-drive-info.py:138-205 | The three passes compute the by-id map. An `IndexError` in the third pass is an error. |
| `ByIdLinks.CollectEntries` | packages/remote-drive-info/remote-drive-info.py:141-153 | The first pass computes `all_entries`. |
| `ByIdLinks.ChooseWholeDisks` | packages/remote-drive-info/remote-drive-info.py:156-176 | The second pass picks one name per whole disk. |
| `ByIdLinks.NamePartitions` | packages/remote-drive-info/remote-drive-info.py:179-203 | The third pass names the partitions. |
| `IoDone.ParseIoDone` | packages/bcachefs-io-metrics/bcachefs-io-metrics.py:27-62 | The line loop computes the parse. |
| `IoDone.ReadLine` | packages/bcachefs-io-metrics/bcachefs-io-metrics.py:40-59 | One line moves the reader one step. |
| `IoDone.PreambleIgnored` | packages/bcachefs-io-metrics/bcachefs-io-metrics.py:48-49 | Everything before the first header is ignored. |
| `IoDone.BlankIgnored` | packages/bcachefs-io-metrics/bcachefs-io-metrics.py:40-42 | A blank line changes nothing. |
| `IoDone.HeaderSwitches` | packages/bcachefs-io-metrics/bcachefs-io-metrics.py:44-46 | A `read:` or `write:` header, in any letter case, switches the section and adds nothing. |
| `IoDone.LastEntryWins` | packages/bcachefs-io-metrics/bcachefs-io-metrics.py:52-59 | A counter line sets its key in the current section, and the value survives unless a later line names the same key. |
| `IoDone.KeysNamed` | packages/bcachefs-io-metrics/bcachefs-io-metrics.py:52-59 | Every counter in the result was named by some counter line. |
| `IoMetrics.InstancesAreDirectories` | packages/bcachefs-io-metrics/bcachefs-io-metrics.py:64-71 | An instance is exactly a listed directory other than `by-uuid`. |
| `IoMetrics.LabelWithoutDot` | packages/bcachefs-io-metrics/bcachefs-io-metrics.py:107-115 | A label without '.' names both the group and the device. |
| `IoMetrics.LabelReadsBack` | packages/bcachefs-io-metrics/bcachefs-io-metrics.py:107-112 | A label `group.device[.more]` reads back as that group and device. |
| `IoMetrics.Analyze` | packages/bcachefs-io-metrics/bcachefs-io-metrics.py:95-160 | The result is `None` exactly when there is no `dev-*` directory. |
| `IoMetrics.AnalyzeInstance` | packages/bcachefs-io-metrics/bcachefs-io-metrics.py:73-160 | The loops compute the analysis. |
| `IoMetrics.AddDevDir` | packages/bcachefs-io-metrics/bcachefs-io-metrics.py:100-148 | A device without a readable label or without an `io_done` file is skipped; otherwise its counters, possibly none, are added to its group and it is registered in both sections. |
| `IoMetrics.AccumulateSection` | packages/bcachefs-io-metrics/bcachefs-io-metrics.py:135-148 | The device is registered in the section, and its counters are added to the group totals and to the device's own counters. |
| `IoMetrics.OverallTotal` | packages/bcachefs-io-metrics/bcachefs-io-metrics.py:151-154 | Overall is the sum, over the groups, of each group's section total. |
| `IoMetrics.ConsistentAdd` | packages/bcachefs-io-metrics/bcachefs-io-metrics.py:140-148 | Adding a device keeps every total equal to the sum of the device counters. |
| `IoMetrics.GroupTotalsAreDeviceSums` | packages/bcachefs-io-metrics/bcachefs-io-metrics.py:140-148 | In every group and section, a metric's total is the sum of that metric over the group's devices. |
| `IoMetrics.OverallIsAllCounters` | packages/bcachefs-io-metrics/bcachefs-io-metrics.py:140-154 | The overall total of a section is the sum of every counter of that section over all devices that count. |
| `IoMetrics.GroupsOfKeptDevices` | packages/bcachefs-io-metrics/bcachefs-io-metrics.py:129-133 | The groups are exactly the label groups of the devices that count. |
| `IoMetrics.DeviceRegistered` | packages/bcachefs-io-metrics/bcachefs-io-metrics.py:135-137 | Every device that counts is registered in both sections of its group, even when its `io_done` names no counter. |
| `MapSums.SumUpdate` | packages/bcachefs-io-metrics/bcachefs-io-metrics.py:144 | `d[k] = d.get(k, 0) + v` adds `v` to the sum. |
| `MapSums.SumPlus` | packages/bcachefs-io-metrics/bcachefs-io-metrics.py:141-144 | Adding one dictionary into another adds their sums. |
| `MapSums.SumValues` | packages/bcachefs-io-metrics/bcachefs-io-metrics.py:153 | The loop computes `sum(d.values())`. |
| `Doctor.StatusArgv` | packages/bcachefs-doctor/bcachefs-doctor.py:331-334 | `bcachefs status`, plus the mount point exactly when one is given and non-empty. |
| `Doctor.RunBcachefsStatus` | packages/bcachefs-doctor/bcachefs-doctor.py:329-349 | A failure gives the error text. Otherwise the raw output and the parsed fields. |
| `Doctor.FieldsKeys` | packages/bcachefs-doctor/bcachefs-doctor.py:344-347 | The parsed keys are exactly the stripped keys of the lines with ':'. |
| `Doctor.FieldsLastWins` | packages/bcachefs-doctor/bcachefs-doctor.py:344-347 | A key holds the value of the last line that names it. |
| `Doctor.GetFsUsage` | packages/bcachefs-doctor/bcachefs-doctor.py:351-373 | The `df` fields (only with two or more lines) and the status. |
| `Doctor.PairFields` | packages/bcachefs-doctor/bcachefs-doctor.py:365-367 | The pairing loop assigns header `i` the value `i` while there is one. |
| `Doctor.DfPairing` | packages/bcachefs-doctor/bcachefs-doctor.py:359-367 | Header `i` names value `i` unless a later header of the same name replaces it. The keys are exactly the headers that have a value. |
| `Doctor.GetMountedFilesystems` | packages/bcachefs-doctor/bcachefs-doctor.py:305-327 | The loop lists the mounts of the qualifying lines. |
| `Doctor.MountsExactly` | packages/bcachefs-doctor/bcachefs-doctor.py:312-323 | The mounts listed are exactly those of lines with six or more fields whose third field is `bcachefs`. |
| `Doctor.MountLineReadsBack` | packages/bcachefs-doctor/bcachefs-doctor.py:313-322 | A `/proc/mounts` line written from a mount's six fields reads back as that mount. |
| `Doctor.GetMountOptions` | packages/bcachefs-doctor/bcachefs-doctor.py:105-111 | The mount options: none when the command failed, otherwise the options of the last qualifying line. |
| `Doctor.LastQualifyingWins` | packages/bcachefs-doctor/bcachefs-doctor.py:108-111 | The last qualifying line decides. |
| `Doctor.OptionsReadBack` | packages/bcachefs-doctor/bcachefs-doctor.py:110-111 | An option list written between parentheses reads back as itself. |
| `Doctor.MemoryTotalOfLine` | packages/bcachefs-doctor/bcachefs-doctor.py:142-146 | The `MemTotal` line for `kb` kB gives `kb * 1024` bytes. |
| `Health.ShouldExcludeMount` | packages/health-report/health-report.py:287-299 | A mount point is excluded exactly when a configured pattern, or one of `/dev`, `/sys`, `/proc`, `/run`, `/boot/efi`, occurs in it. |
| `Health.ExcludedMonotone` | packages/health-report/health-report.py:289-293 | More patterns never bring a mount point back. |
| `Health.SystemTreesExcluded` | packages/health-report/health-report.py:296-297 | Anything below `/proc`, `/sys` or `/dev` is skipped whatever the configuration says. |
| `Health.RootKept` | packages/health-report/health-report.py:287-299 | The root filesystem is kept unless a configured pattern occurs in "/". |
| `Health.DiskStatusOf` | packages/health-report/health-report.py:301-311 | Critical from the critical threshold up, warning from the warning threshold up, healthy below both. |
| `Health.StatusMonotone` | packages/health-report/health-report.py:301-311 | A fuller disk never gets a milder status. |
| `Health.DefaultThresholds` | packages/health-report/health-report.py:819-820 | With the defaults: 90% and up is critical, 75% up to 90% is a warning, below 75% is healthy. |
| `Health.GenerateSummaryReport` | packages/health-report/health-report.py:875-888 | The loop builds the header lines, then each non-empty section followed by a blank line, all joined by newlines. |
| `Health.SummaryBodyAppend` | packages/health-report/health-report.py:882-886 | The body of two runs of sections is the body of each, in order. |
| `Health.EmptySectionSkipped` | packages/health-report/health-report.py:884 | A section with no lines leaves no trace. |
| `Health.SectionThenBlank` | packages/health-report/health-report.py:884-886 | A section with lines contributes exactly those lines and one blank line. |
| `Health.SummaryReadsBack` | packages/health-report/health-report.py:877-888 | Splitting the summary at its line breaks gives back the header and the body lines, when no input holds a line break. |
| `Health.Truncate` | packages/health-report/health-report.py:910-911 | A message over 4000 characters becomes its first 3950 characters plus the notice. Any other message is unchanged. |
| `Health.TruncateBounded` | packages/health-report/health-report.py:910-911 | Nothing sent is longer than 4000 characters, and truncating twice is truncating once. |
| `Health.SplitIntoSections` | packages/health-report/health-report.py:930-954 | The section loop yields at least one section, and joining the sections with newlines gives back the report. |
| `Health.ChunksCover` | packages/health-report/health-report.py:936-954 | The sections hold every line once, in order, and none is empty. |
| `Health.ChunksBounded` | packages/health-report/health-report.py:934-950 | Without its last line, no section is over 3500. |
| `Health.HeaderOpensSection` | packages/health-report/health-report.py:938-941 | A main header (`*` but not `**`) always opens its section. |
| `Health.ChunksClosedForCause` | packages/health-report/health-report.py:938-950 | Every section but the last either passed the maximum size or is followed by one that starts with a main header. |
| `Health.SectionsReadBack` | packages/health-report/health-report.py:936-954 | Joining the sections with newlines gives the report back. |

## Left out

- Process execution, files and directories are outside the model. Commands
  go through `Exec.Runner`, whose outcomes are inputs. Directory listings,
  `isdir` and `isfile` answers, `/proc` files and command output are
  parameters. Configuration and YAML files arrive already parsed; an
  `age: null` in `.sops.yaml`, on which the source fails, is not modelled.
- The clock is the parameter `now`. `pytimeparse2.parse_duration` results
  arrive as `Option<int>` seconds. `os.path.abspath` is not modelled; the
  parent path is taken as given.
- The thread pool in `sync-host` is not modelled. The syncs run one after
  another, and the counters are proved independent of completion order.
- The answer to the interactive prompt is a string parameter of
  `SnapStore.PruneSnapshots`. It is compared with `yes` after `Text.Lower`,
  which folds ASCII letters only. `input()` failing with `EOFError` when
  standard input is closed is not modelled.
- An `io_done` file that exists but fails part way through reading is given
  to `IoMetrics` as the lines read before the failure, possibly none.
- Printing, logging, ANSI output and the display sorting of the pruning plan
  are not modelled. So are JSON output and `print_metrics` and `main` of the
  I/O metrics tool.
- Floating point is not modelled: `format_bytes`, percentages, and float
  `rtcwake` timestamps, which are whole seconds here.
- Telegram sending, the credentials, `generate_detailed_report`, psutil,
  SMART and the other report sections are not modelled. The sections'
  lines are inputs.
- `Exec.Runner.Run`: once the outcome script is used up, every further
  command exits with status 1. This keeps the service poll finite; the real
  poll loop has no bound.
- `SnapNames.ParseFormatName`: the round trip is proved only for years 1000
  to 9999. `strftime` pads `%Y` below 1000 differently per platform.
- `SopsKeys.UpdateIdempotent`: the key must be non-empty, stripped and
  comma-free. Any other key is split apart when read back, so the second
  update is not a no-op.
- `Nix.ObjectLines`, `Nix.ListLines`: the line layout is stated for
  entries and elements that are scalars. Nested values are covered only by
  the bracket shape in `Nix.ToNix`.
- `Nix.StringReadsBack`: for the escaping as written, the read-back is
  stated only for text without a backslash or `${`. `Nix.EscapeLosesBackslash`
  shows why.
- `Text.ParseInt`: only the ASCII digits `0` to `9` count as digits.
  Python's `int()` accepts the decimal digits of every script (Arabic-Indic,
  fullwidth and others), so such text parses in Python and is `None` here.
  The same holds wherever a number is read through it: `io_done` counter
  values, the memory total, and the configuration counts.
- `SnapNames.ParseName`: the date fields accept ASCII digits only, while
  the `\d` of `strptime`'s pattern matches any decimal digit. A directory
  named in the snapshot layout with, say, fullwidth digits is listed by
  the script, and may be pruned, but `SnapStore.ListSnapshots` does not
  list it.
- `SnapStore.CountSetting`: a retention count written in non-ASCII decimal
  digits is read by `config.getint` but is `None` here, through
  `Text.ParseInt`.
- `Text.Lower` folds ASCII letters only. Python's `lower` also folds other
  scripts; here it only compares against ASCII words.
- `Doctor.GetFsUsage` keeps the `df` fields and the status apart. In the
  source both share one dictionary, where a `df` header named
  `bcachefs_status` would be replaced.
- `DriveInfo.GenerateDiskoConfig`: the keys `nvme1`, `ssd2` and so on are
  built from a class and a number. Proving them distinct goes through
  `Text.NatToString`.
- The partition test and the string escaping each take a parameter that
  selects the code as written or the corrected version (see Findings).
  `DriveInfo.CollectAndGenerate` passes it through.
- `get_kernel_info` and `get_system_info` are modelled only for the mount
  options and the memory total. Their other fields copy command output.

## Findings

| source | as written | input that shows it | evidently intended | confidence | as-written member | corrected member |
|---|---|---|---|---|---|---|
| packages/remote-drive-info/remote-drive-info.py:149 | The partition test `endswith(('p1','p2','p3','1','2','3'))` also matches whole NVMe namespaces such as `nvme0n1`. They skip the priority choice of the second pass, and the third pass gives them the first link listed. | A `/dev/disk/by-id` listing with two links to `nvme0n1`: `nvme-eui.0025` first, `nvme-Samsung_SSD_S4EW` second. As written the map gives `nvme0n1` the EUI name. | NVMe partitions end in `p<n>`, so `nvme0n1` is a whole disk and gets its model-and-serial name. | not executed | `ByIdLinks.NamespaceAsWritten` | `ByIdLinks.NamespaceCorrected` |
| packages/remote-drive-info/remote-drive-info.py:49 | String escaping handles `"` and newlines but not backslashes. | The two-character string backslash, `n` renders as `"\n"`, which Nix reads as a newline. | Backslashes (and `$` before `{`) are escaped, so every string reads back as itself. | not executed | `Nix.EscapeLosesBackslash` | `Nix.NixReadsEscapeNix` |
