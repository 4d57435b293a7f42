/** The backup orchestrator (packages/sync-host/sync-host.py): take a
    snapshot, mirror each rclone remote into a local directory, wait for the
    bcachefs maintenance services, then schedule the next wake-up and power
    off, but only when nothing failed. External programs go through a
    `Runner`; the clock and the parsed durations are parameters. */
module SyncHost {
  import opened Wrappers
  import opened Text
  import opened Exec

  // ---------------------------------------------------------------------
  // Per-remote strings
  // ---------------------------------------------------------------------

  /** The rclone source: the remote's root when it names no path. */
  function RcloneSource(remote: string): string {
    if ':' !in remote then remote + ":/"
    else if EndsWith(remote, ":") then remote + "/"
    else remote
  }

  /** `remote.split(':')[0]`: the text before the first ':'. */
  function RemoteName(remote: string): string {
    Split(remote, ':')[0]
  }

  /** The first part of a split is the longest prefix without the separator. */
  lemma {:induction false} SplitHead(s: string, sep: char)
    ensures var head := Split(s, sep)[0];
            head <= s && sep !in head && (|head| < |s| ==> s[|head|] == sep)
  {
    if s != [] && s[0] != sep {
      SplitHead(s[1..], sep);
    }
  }

  /** The source keeps the remote as a prefix, always names a remote (it has
      a ':'), and belongs to the same remote name. */
  lemma SourceShape(remote: string)
    ensures remote <= RcloneSource(remote)
    ensures ':' in RcloneSource(remote)
    ensures RemoteName(RcloneSource(remote)) == RemoteName(remote)
    ensures ':' in remote && !EndsWith(remote, ":") ==> RcloneSource(remote) == remote
  {
    var source := RcloneSource(remote);
    SplitHead(remote, ':');
    SplitHead(source, ':');
    var a := RemoteName(remote);
    var b := RemoteName(source);
    if ':' !in remote {
      assert source[|remote|] == ':';
    }
    assert a == source[..|a|] && b == source[..|b|];
  }

  /** The remote name is the text before the first ':' (all of the remote
      when it has none). */
  lemma RemoteNameShape(remote: string)
    ensures RemoteName(remote) <= remote && ':' !in RemoteName(remote)
    ensures ':' in remote ==> remote[|RemoteName(remote)|] == ':'
    ensures ':' !in remote ==> RemoteName(remote) == remote
  {
    SplitHead(remote, ':');
  }

  /** The local mirror: the base path without trailing '/', then the name. */
  function TargetDir(base: string, name: string): (dir: string)
    ensures dir == RStripChars(base, {'/'}) + "/" + name
  {
    RStripChars(base, {'/'}) + "/" + name
  }

  function LogFile(name: string): string {
    "/var/log/sync-host-" + name + ".log"
  }

  /** `rclone sync --config C --transfers 4 --progress --log-file L
      --log-level INFO source target`. */
  function SyncArgv(config: string, logFile: string, source: string, target: string): (argv: seq<string>)
    ensures |argv| == 13 && argv[11] == source && argv[12] == target
  {
    ["rclone", "sync", "--config", config, "--transfers", "4", "--progress",
     "--log-file", logFile, "--log-level", "INFO", source, target]
  }

  // ---------------------------------------------------------------------
  // One remote
  // ---------------------------------------------------------------------

  /** How one sync ended: success, a non-zero exit (`False`), or an
      exception escaping `run_rclone_sync` (rclone not found). */
  datatype SyncResult = Synced | SyncFailed | Raised

  function SyncResultOf(o: Outcome): SyncResult {
    match o
    case NotFound => Raised
    case Exited(code, _, _) => if code == 0 then Synced else SyncFailed
  }

  /** What `run_rclone_sync` does for one remote: create the target
      directory, then (unless this is a dry run) start rclone. */
  function SyncEffects(remote: string, config: string, base: string, dryRun: bool): seq<Effect> {
    var name := RemoteName(remote);
    var target := TargetDir(base, name);
    [DirsMade(target)]
      + (if dryRun then [] else [Command(SyncArgv(config, LogFile(name), RcloneSource(remote), target))])
  }

  /** `run_rclone_sync`. */
  method RunRcloneSync(r: Runner, remote: string, config: string, base: string, dryRun: bool)
    returns (result: SyncResult)
    modifies r
    ensures r.log == old(r.log) + SyncEffects(remote, config, base, dryRun)
    ensures dryRun ==> result == Synced && r.script == old(r.script)
    ensures !dryRun ==> result == SyncResultOf(NextOutcome(old(r.script))) && r.script == RestOf(old(r.script))
  {
    var source := RcloneSource(remote);
    var name := RemoteName(remote);
    var target := TargetDir(base, name);
    r.MakeDirs(target);
    var logFile := LogFile(name);
    var argv := SyncArgv(config, logFile, source, target);
    if dryRun {
      return Synced;
    }
    var o := r.Run(argv);
    result := SyncResultOf(o);
  }

  // ---------------------------------------------------------------------
  // All remotes, and the tally
  // ---------------------------------------------------------------------

  function AllSyncEffects(remotes: seq<string>, config: string, base: string, dryRun: bool): seq<Effect> {
    if remotes == [] then []
    else SyncEffects(remotes[0], config, base, dryRun) + AllSyncEffects(remotes[1..], config, base, dryRun)
  }

  /** The outcomes that the `i`-th call receives. */
  function Drop(script: seq<Outcome>, i: nat): seq<Outcome> {
    if i <= |script| then script[i..] else []
  }

  /** The result of each remote's sync: every one succeeds in a dry run,
      otherwise the `i`-th rclone run receives the `i`-th outcome. */
  function SyncResults(remotes: seq<string>, script: seq<Outcome>, dryRun: bool): (results: seq<SyncResult>)
    ensures |results| == |remotes|
  {
    seq(|remotes|, i requires 0 <= i < |remotes| =>
      if dryRun then Synced else SyncResultOf(NextOutcome(Drop(script, i))))
  }

  /** The effects of the syncs from the `i`-th remote on: that remote's,
      then the rest. */
  lemma SyncEffectsAt(log: seq<Effect>, remotes: seq<string>, i: nat, config: string, base: string, dryRun: bool)
    requires i < |remotes|
    ensures log + SyncEffects(remotes[i], config, base, dryRun) + AllSyncEffects(remotes[i + 1..], config, base, dryRun)
         == log + AllSyncEffects(remotes[i..], config, base, dryRun)
  {
    assert remotes[i..][0] == remotes[i] && remotes[i..][1..] == remotes[i + 1..];
  }

  /** The result of the `i`-th sync extends the first `i` results. */
  lemma SyncedOneMore(remotes: seq<string>, script: seq<Outcome>, dryRun: bool, i: nat,
                      results: seq<SyncResult>, res: SyncResult)
    requires i < |remotes| && results == SyncResults(remotes, script, dryRun)[..i]
    requires dryRun ==> res == Synced
    requires !dryRun ==> res == SyncResultOf(NextOutcome(Drop(script, i)))
    ensures results + [res] == SyncResults(remotes, script, dryRun)[..i + 1]
  {
  }

  /** Runs every remote's sync, one after another (the pool runs them
      concurrently; only the results matter to the counts). */
  method SyncStage(r: Runner, remotes: seq<string>, config: string, base: string, dryRun: bool)
    returns (results: seq<SyncResult>)
    modifies r
    ensures |results| == |remotes|
    ensures r.log == old(r.log) + AllSyncEffects(remotes, config, base, dryRun)
    ensures results == SyncResults(remotes, old(r.script), dryRun)
    ensures r.script == if dryRun then old(r.script) else Drop(old(r.script), |remotes|)
  {
    results := [];
    var i := 0;
    while i < |remotes|
      invariant 0 <= i <= |remotes| && |results| == i
      invariant r.log + AllSyncEffects(remotes[i..], config, base, dryRun)
             == old(r.log) + AllSyncEffects(remotes, config, base, dryRun)
      invariant results == SyncResults(remotes, old(r.script), dryRun)[..i]
      invariant r.script == if dryRun then old(r.script) else Drop(old(r.script), i)
    {
      ghost var log := r.log;
      ghost var script := r.script;
      SyncEffectsAt(log, remotes, i, config, base, dryRun);
      var res := RunRcloneSync(r, remotes[i], config, base, dryRun);
      SyncedOneMore(remotes, old(r.script), dryRun, i, results, res);
      if !dryRun {
        DropStep(old(r.script), i);
      }
      results := results + [res];
      i := i + 1;
    }
    assert remotes[i..] == [];
  }

  /** The counters after the `as_completed` loop: one success per `Synced`,
      one failure for every other result. */
  function Tally(results: seq<SyncResult>): (counts: (nat, nat))
    ensures counts.0 + counts.1 == |results|
  {
    if results == [] then (0, 0)
    else
      var (s, f) := Tally(results[1..]);
      if results[0] == Synced then (s + 1, f) else (s, f + 1)
  }

  /** The `as_completed` loop, over the results in completion order. */
  method CountResults(results: seq<SyncResult>) returns (success: nat, failure: nat)
    ensures (success, failure) == Tally(results)
  {
    success, failure := 0, 0;
    var i := |results|;
    while i > 0
      invariant 0 <= i <= |results|
      invariant (success, failure) == Tally(results[i..])
    {
      i := i - 1;
      assert results[i..][1..] == results[i + 1..];
      if results[i] == Synced {
        success := success + 1;
      } else {
        failure := failure + 1;
      }
    }
  }

  /** The successes are the `Synced` results, whatever their order. */
  lemma {:induction false} TallyCounts(results: seq<SyncResult>)
    ensures Tally(results) == (multiset(results)[Synced], |results| - multiset(results)[Synced])
  {
    if results != [] {
      TallyCounts(results[1..]);
      assert results == [results[0]] + results[1..];
    }
  }

  /** Completion order does not change the counters. */
  lemma TallyOrderFree(a: seq<SyncResult>, b: seq<SyncResult>)
    requires multiset(a) == multiset(b)
    ensures Tally(a) == Tally(b)
  {
    TallyCounts(a);
    TallyCounts(b);
    assert |a| == |multiset(a)| == |multiset(b)| == |b|;
  }

  // ---------------------------------------------------------------------
  // Waiting for the bcachefs services
  // ---------------------------------------------------------------------

  const Services: seq<string> :=
    ["bcachefs-scrub-mnt-pool.service", "bcachefs-snap-create.service", "bcachefs-snap-prune.service"]

  const RunningStates: set<string> := {"active", "reloading", "activating", "deactivating"}

  const PollSeconds: int := 30

  function IsActiveArgv(service: string): seq<string> {
    ["systemctl", "is-active", service]
  }

  /** What one `systemctl is-active` says: still running, not running, or
      the query raised (`systemctl` not found), which ends the program. */
  datatype Probe = Busy | Idle | Crash

  function ProbeOf(o: Outcome): Probe {
    match o
    case NotFound => Crash
    case Exited(_, out, _) => if Strip(out) in RunningStates then Busy else Idle
  }

  /** The runner's answer to a query is `Busy` only while outcomes remain. */
  lemma BusyNeedsOutcome(script: seq<Outcome>)
    ensures ProbeOf(NextOutcome(script)) == Busy ==> script != []
  {
    assert Strip("") == "";
  }

  /** How many `Busy` answers come before the first other one. */
  function BusyRun(script: seq<Outcome>): (n: nat)
    ensures n <= |script|
  {
    BusyNeedsOutcome(script);
    if ProbeOf(NextOutcome(script)) == Busy then 1 + BusyRun(script[1..]) else 0
  }

  /** The answer after the busy run is not `Busy`. */
  lemma {:induction false} BusyRunEnds(script: seq<Outcome>)
    ensures ProbeOf(NextOutcome(Drop(script, BusyRun(script)))) != Busy
  {
    BusyNeedsOutcome(script);
    if ProbeOf(NextOutcome(script)) == Busy {
      BusyRunEnds(script[1..]);
      assert Drop(script, BusyRun(script)) == Drop(script[1..], BusyRun(script[1..]));
    }
  }

  /** Every answer before the first non-`Busy` one is `Busy`. */
  lemma {:induction false} BusyPrefix(script: seq<Outcome>)
    ensures forall i | 0 <= i < BusyRun(script) :: ProbeOf(script[i]) == Busy
  {
    BusyNeedsOutcome(script);
    if ProbeOf(NextOutcome(script)) == Busy {
      BusyPrefix(script[1..]);
      forall i | 1 <= i < BusyRun(script) ensures ProbeOf(script[i]) == Busy {
        assert script[i] == script[1..][i - 1];
      }
    }
  }

  /** The effects of `n` busy polls of one service: a query and a 30-second
      sleep for each. */
  function Polls(service: string, n: nat): (effects: seq<Effect>)
    ensures |effects| == 2 * n
  {
    if n == 0 then []
    else Polls(service, n - 1) + [Command(IsActiveArgv(service)), Slept(PollSeconds)]
  }

  /** The effects of draining one service that answers `Busy` `n` times:
      the busy polls, then the final query. */
  function DrainEffects(service: string, n: nat): seq<Effect> {
    Polls(service, n) + [Command(IsActiveArgv(service))]
  }

  /** Where the busy answers end, and how one more busy answer extends the
      run. */
  lemma BusyRunStep(script: seq<Outcome>)
    ensures ProbeOf(NextOutcome(script)) != Busy ==> BusyRun(script) == 0
    ensures ProbeOf(NextOutcome(script)) == Busy ==>
              script != [] && BusyRun(script) == 1 + BusyRun(script[1..])
  {
    BusyNeedsOutcome(script);
  }

  /** Dropping one more outcome is taking the rest of what is left. */
  lemma DropStep(script: seq<Outcome>, i: nat)
    ensures Drop(script, i + 1) == RestOf(Drop(script, i))
  {
  }

  /** One more busy poll appends a query and a sleep to the log. */
  lemma PollsStep(log: seq<Effect>, service: string, n: nat)
    ensures log + Polls(service, n) + [Command(IsActiveArgv(service)), Slept(PollSeconds)]
         == log + Polls(service, n + 1)
  {
  }

  /** What a stretch of the run did: its effects, the outcomes left for
      later calls, and whether it ended in an uncaught exception. */
  datatype Waited = Waited(effects: seq<Effect>, rest: seq<Outcome>, crashed: bool)

  /** Draining one service: the busy polls and the final query; the
      program crashes when that query raised. */
  function DrainOne(service: string, script: seq<Outcome>): Waited {
    var n := BusyRun(script);
    var after := Drop(script, n);
    Waited(DrainEffects(service, n), RestOf(after), ProbeOf(NextOutcome(after)) == Crash)
  }

  /** Appending to a log in two steps is appending the joined effects. */
  lemma AppendAssoc(a: seq<Effect>, b: seq<Effect>, c: seq<Effect>)
    ensures (a + b) + c == a + (b + c)
  {
  }

  /** Where the inner loop stands after `polls` busy answers: that many
      outcomes used, that many polls logged. */
  ghost predicate Polled(s0: seq<Outcome>, l0: seq<Effect>, service: string, polls: nat,
                         script: seq<Outcome>, log: seq<Effect>) {
    polls <= |s0| && script == Drop(s0, polls) && BusyRun(s0) == polls + BusyRun(script)
    && log == l0 + Polls(service, polls)
  }

  /** A busy answer: one more poll, one outcome fewer. */
  lemma PolledBusy(s0: seq<Outcome>, l0: seq<Effect>, service: string, polls: nat,
                   script: seq<Outcome>, log: seq<Effect>)
    requires Polled(s0, l0, service, polls, script, log)
    requires ProbeOf(NextOutcome(script)) == Busy
    ensures |RestOf(script)| < |script|
    ensures Polled(s0, l0, service, polls + 1, RestOf(script),
                   log + [Command(IsActiveArgv(service))] + [Slept(PollSeconds)])
  {
    BusyRunStep(script);
    DropStep(s0, polls);
    PollsStep(l0, service, polls);
  }

  /** Any other answer ends the busy run: the log and the script are those
      of draining the service. */
  lemma PolledDone(s0: seq<Outcome>, l0: seq<Effect>, service: string, polls: nat,
                   script: seq<Outcome>, log: seq<Effect>)
    requires Polled(s0, l0, service, polls, script, log)
    requires ProbeOf(NextOutcome(script)) != Busy
    ensures var d := DrainOne(service, s0);
            log + [Command(IsActiveArgv(service))] == l0 + d.effects && RestOf(script) == d.rest
            && (ProbeOf(NextOutcome(script)) == Crash) == d.crashed
  {
    BusyRunStep(script);
    assert BusyRun(s0) == polls;
    AppendAssoc(l0, Polls(service, polls), [Command(IsActiveArgv(service))]);
  }

  /** The inner `while True` loop: poll until the service leaves the
      running states. Returns whether the program crashed instead. */
  method Drain(r: Runner, service: string) returns (crashed: bool)
    modifies r
    ensures var d := DrainOne(service, old(r.script));
            r.log == old(r.log) + d.effects && r.script == d.rest && crashed == d.crashed
  {
    ghost var s0 := r.script;
    ghost var l0 := r.log;
    ghost var polls := 0;
    while true
      invariant Polled(s0, l0, service, polls, r.script, r.log)
      decreases |r.script|
    {
      ghost var script := r.script;
      ghost var log := r.log;
      var o := r.Run(IsActiveArgv(service));
      var probe := ProbeOf(o);
      if probe != Busy {
        PolledDone(s0, l0, service, polls, script, log);
        return probe == Crash;
      }
      r.Sleep(PollSeconds);
      PolledBusy(s0, l0, service, polls, script, log);
      polls := polls + 1;
    }
  }

  /** The first pass of `wait_for_bcachefs_services`: one query per service,
      in order, collecting the running ones (second component). */
  function Survey(services: seq<string>, script: seq<Outcome>): (pass: (Waited, seq<string>))
  {
    if services == [] then (Waited([], script, false), [])
    else
      var probe := ProbeOf(NextOutcome(script));
      var query := [Command(IsActiveArgv(services[0]))];
      if probe == Crash then (Waited(query, RestOf(script), true), [])
      else
        var (w, running) := Survey(services[1..], RestOf(script));
        (Waited(query + w.effects, w.rest, w.crashed),
         if probe == Busy then [services[0]] + running else running)
  }

  /** The second pass: drain each running service in turn. */
  function DrainAll(waiting: seq<string>, script: seq<Outcome>): Waited
  {
    if waiting == [] then Waited([], script, false)
    else
      var d := DrainOne(waiting[0], script);
      if d.crashed then d
      else
        var w := DrainAll(waiting[1..], d.rest);
        Waited(d.effects + w.effects, w.rest, w.crashed)
  }

  /** `wait_for_bcachefs_services` as a whole. */
  function WaitRun(services: seq<string>, script: seq<Outcome>): Waited {
    var (w, running) := Survey(services, script);
    if w.crashed then w
    else
      var d := DrainAll(running, w.rest);
      Waited(w.effects + d.effects, d.rest, d.crashed)
  }

  /** `all` is the survey so far (`done`, `running`) followed by what is
      left. */
  predicate SurveyedSoFar(all: (Waited, seq<string>), done: seq<Effect>, running: seq<string>,
                          left: (Waited, seq<string>)) {
    all == (Waited(done + left.0.effects, left.0.rest, left.0.crashed), running + left.1)
  }

  lemma SurveyedStart(all: (Waited, seq<string>))
    ensures SurveyedSoFar(all, [], [], all)
  {
    assert [] + all.0.effects == all.0.effects && [] + all.1 == all.1;
  }

  /** One more service surveyed without a crash keeps `SurveyedSoFar`. */
  lemma SurveyedMore(all: (Waited, seq<string>), done: seq<Effect>, running: seq<string>,
                     query: seq<Effect>, added: seq<string>, left: (Waited, seq<string>))
    requires SurveyedSoFar(all, done, running,
                           (Waited(query + left.0.effects, left.0.rest, left.0.crashed), added + left.1))
    ensures SurveyedSoFar(all, done + query, running + added, left)
  {
    assert done + (query + left.0.effects) == (done + query) + left.0.effects;
    assert running + (added + left.1) == (running + added) + left.1;
  }

  /** Surveying a non-empty list whose first query does not raise. */
  lemma SurveyStep(services: seq<string>, script: seq<Outcome>)
    requires services != [] && ProbeOf(NextOutcome(script)) != Crash
    ensures var left := Survey(services[1..], RestOf(script));
            var added := if ProbeOf(NextOutcome(script)) == Busy then [services[0]] else [];
            Survey(services, script)
              == (Waited([Command(IsActiveArgv(services[0]))] + left.0.effects, left.0.rest, left.0.crashed),
                  added + left.1)
  {
    var left := Survey(services[1..], RestOf(script));
    assert [] + left.1 == left.1;
  }

  /** A survey whose next query raises stops there. */
  lemma SurveyCrash(all: (Waited, seq<string>), done: seq<Effect>, running: seq<string>,
                    services: seq<string>, script: seq<Outcome>)
    requires services != [] && ProbeOf(NextOutcome(script)) == Crash
    requires SurveyedSoFar(all, done, running, Survey(services, script))
    ensures all.0 == Waited(done + [Command(IsActiveArgv(services[0]))], RestOf(script), true)
  {
  }

  /** One pass of the first loop: query the `i`-th service. */
  method SurveyNext(r: Runner, services: seq<string>, i: nat, ghost all: (Waited, seq<string>),
                    ghost l0: seq<Effect>, ghost done: seq<Effect>, running: seq<string>)
    returns (added: seq<string>, stuck: bool, ghost more: seq<Effect>)
    requires i < |services| && r.log == l0 + done
    requires SurveyedSoFar(all, done, running, Survey(services[i..], r.script))
    modifies r
    ensures stuck ==> r.log == l0 + all.0.effects && r.script == all.0.rest && all.0.crashed
    ensures !stuck ==> r.log == l0 + more
                       && SurveyedSoFar(all, more, running + added, Survey(services[i + 1..], r.script))
  {
    var service := services[i];
    assert services[i..][0] == service && services[i..][1..] == services[i + 1..];
    ghost var query := [Command(IsActiveArgv(service))];
    ghost var before := r.script;
    var o := r.Run(IsActiveArgv(service));
    var probe := ProbeOf(o);
    AppendAssoc(l0, done, query);
    more := done + query;
    if probe == Crash {
      SurveyCrash(all, done, running, services[i..], before);
      return [], true, more;
    }
    added := if probe == Busy then [service] else [];
    stuck := false;
    SurveyStep(services[i..], before);
    SurveyedMore(all, done, running, query, added, Survey(services[i + 1..], r.script));
  }

  /** The first loop of `wait_for_bcachefs_services`. */
  method SurveyServices(r: Runner, services: seq<string>) returns (running: seq<string>, crashed: bool)
    modifies r
    ensures var survey := Survey(services, old(r.script));
            r.log == old(r.log) + survey.0.effects && r.script == survey.0.rest
            && crashed == survey.0.crashed && (!crashed ==> running == survey.1)
  {
    ghost var all := Survey(services, r.script);
    ghost var l0 := r.log;
    ghost var done: seq<Effect> := [];
    running := [];
    var i := 0;
    assert services[i..] == services;
    SurveyedStart(all);
    while i < |services|
      invariant 0 <= i <= |services| && r.log == l0 + done
      invariant SurveyedSoFar(all, done, running, Survey(services[i..], r.script))
    {
      var added, stuck;
      added, stuck, done := SurveyNext(r, services, i, all, l0, done, running);
      if stuck {
        return running, true;
      }
      running := running + added;
      i := i + 1;
    }
    assert services[i..] == [];
    assert all.0.effects == done + [] && running + [] == running;
    crashed := false;
  }


  /** `all` is what has been drained so far followed by what is left. */
  predicate DrainedSoFar(all: Waited, drained: seq<Effect>, left: Waited) {
    all == Waited(drained + left.effects, left.rest, left.crashed)
  }

  /** Draining from the `j`-th service on: that service, then the ones
      after it unless it crashed. */
  lemma DrainAllAt(waiting: seq<string>, j: nat, script: seq<Outcome>)
    requires j < |waiting|
    ensures var d := DrainOne(waiting[j], script);
            DrainAll(waiting[j..], script)
              == if d.crashed then d
                 else Waited(d.effects + DrainAll(waiting[j + 1..], d.rest).effects,
                             DrainAll(waiting[j + 1..], d.rest).rest, DrainAll(waiting[j + 1..], d.rest).crashed)
  {
    assert waiting[j..][0] == waiting[j] && waiting[j..][1..] == waiting[j + 1..];
  }

  /** A crash while draining ends the second pass there. */
  lemma DrainedCrash(all: Waited, l1: seq<Effect>, drained: seq<Effect>, one: Waited)
    requires DrainedSoFar(all, drained, one)
    ensures (l1 + drained) + one.effects == l1 + all.effects && one.rest == all.rest
    ensures all.crashed == one.crashed
  {
    AppendAssoc(l1, drained, one.effects);
  }

  /** One more service drained without a crash keeps `DrainedSoFar`. */
  lemma DrainedMore(all: Waited, l1: seq<Effect>, drained: seq<Effect>, one: Waited, left: Waited)
    requires DrainedSoFar(all, drained, Waited(one.effects + left.effects, left.rest, left.crashed))
    ensures DrainedSoFar(all, drained + one.effects, left)
    ensures (l1 + drained) + one.effects == l1 + (drained + one.effects)
  {
    AppendAssoc(l1, drained, one.effects);
    assert drained + (one.effects + left.effects) == (drained + one.effects) + left.effects;
  }

  /** Draining the `j`-th service after the first `j`: on a crash the whole
      second pass ends there, otherwise `DrainedSoFar` holds one further on. */
  lemma DrainedNext(all: Waited, l1: seq<Effect>, drained: seq<Effect>, waiting: seq<string>, j: nat,
                    before: seq<Outcome>, one: Waited)
    requires j < |waiting| && one == DrainOne(waiting[j], before)
    requires DrainedSoFar(all, drained, DrainAll(waiting[j..], before))
    ensures one.crashed ==>
              (l1 + drained) + one.effects == l1 + all.effects && one.rest == all.rest && all.crashed
    ensures !one.crashed ==>
              (l1 + drained) + one.effects == l1 + (drained + one.effects)
              && DrainedSoFar(all, drained + one.effects, DrainAll(waiting[j + 1..], one.rest))
  {
    DrainAllAt(waiting, j, before);
    if one.crashed {
      DrainedCrash(all, l1, drained, one);
    } else {
      DrainedMore(all, l1, drained, one, DrainAll(waiting[j + 1..], one.rest));
    }
  }

  /** One pass of the second loop: drain the `j`-th service. */
  method DrainNext(r: Runner, waiting: seq<string>, j: nat, ghost all: Waited, ghost l1: seq<Effect>,
                   ghost drained: seq<Effect>) returns (stuck: bool, ghost more: seq<Effect>)
    requires j < |waiting| && r.log == l1 + drained
    requires DrainedSoFar(all, drained, DrainAll(waiting[j..], r.script))
    modifies r
    ensures stuck ==> r.log == l1 + all.effects && r.script == all.rest && all.crashed
    ensures !stuck ==> r.log == l1 + more && DrainedSoFar(all, more, DrainAll(waiting[j + 1..], r.script))
  {
    ghost var one := DrainOne(waiting[j], r.script);
    DrainedNext(all, l1, drained, waiting, j, r.script, one);
    stuck := Drain(r, waiting[j]);
    more := drained + one.effects;
  }

  /** The second loop of `wait_for_bcachefs_services`. */
  method DrainServices(r: Runner, waiting: seq<string>) returns (crashed: bool)
    modifies r
    ensures var d := DrainAll(waiting, old(r.script));
            r.log == old(r.log) + d.effects && r.script == d.rest && crashed == d.crashed
  {
    ghost var all := DrainAll(waiting, r.script);
    ghost var l1 := r.log;
    ghost var drained: seq<Effect> := [];
    var j := 0;
    assert waiting[j..] == waiting;
    while j < |waiting|
      invariant 0 <= j <= |waiting| && r.log == l1 + drained
      invariant DrainedSoFar(all, drained, DrainAll(waiting[j..], r.script))
    {
      var stuck;
      stuck, drained := DrainNext(r, waiting, j, all, l1, drained);
      if stuck {
        return true;
      }
      j := j + 1;
    }
    assert waiting[j..] == [];
    return false;
  }


  /** `wait_for_bcachefs_services`: query every service once, then poll
      each running one until it stops. Returns whether an exception escaped. */
  method WaitForServices(r: Runner) returns (crashed: bool)
    modifies r
    ensures var w := WaitRun(Services, old(r.script));
            r.log == old(r.log) + w.effects && r.script == w.rest && crashed == w.crashed
  {
    ghost var l0 := r.log;
    ghost var survey := Survey(Services, r.script);
    var running;
    running, crashed := SurveyServices(r, Services);
    if !crashed {
      ghost var l1 := r.log;
      ghost var d := DrainAll(running, r.script);
      crashed := DrainServices(r, running);
      AppendAssoc(l0, survey.0.effects, d.effects);
    }
  }


  /** Effects that only ask about the services or wait: the wait never
      starts or stops anything. */
  predicate OnlyQueries(services: seq<string>, effects: seq<Effect>) {
    forall e | e in effects ::
      e == Slept(PollSeconds) || exists s | s in services :: e == Command(IsActiveArgv(s))
  }

  lemma OnlyQueriesAppend(services: seq<string>, a: seq<Effect>, b: seq<Effect>)
    requires OnlyQueries(services, a) && OnlyQueries(services, b)
    ensures OnlyQueries(services, a + b)
  {
    forall e | e in a + b
      ensures e == Slept(PollSeconds) || exists s | s in services :: e == Command(IsActiveArgv(s))
    {
      if e in a { } else { assert e in b; }
    }
  }

  lemma {:induction false} PollsOnlyQueries(services: seq<string>, service: string, n: nat)
    requires service in services
    ensures OnlyQueries(services, Polls(service, n))
  {
    if n > 0 {
      PollsOnlyQueries(services, service, n - 1);
      OnlyQueriesAppend(services, Polls(service, n - 1),
                        [Command(IsActiveArgv(service)), Slept(PollSeconds)]);
    }
  }

  /** Asking about fewer services is still only asking about services. */
  lemma OnlyQueriesWider(fewer: seq<string>, services: seq<string>, effects: seq<Effect>)
    requires OnlyQueries(fewer, effects) && forall s | s in fewer :: s in services
    ensures OnlyQueries(services, effects)
  {
  }

  /** The services the first pass finds running are among those asked. */
  lemma {:induction false} SurveyRunning(services: seq<string>, script: seq<Outcome>)
    ensures forall s | s in Survey(services, script).1 :: s in services
  {
    if services != [] {
      SurveyRunning(services[1..], RestOf(script));
      if ProbeOf(NextOutcome(script)) != Crash {
        SurveyStep(services, script);
      }
    }
  }

  /** The first pass only asks about the services. */
  lemma {:induction false} SurveyOnlyQueries(services: seq<string>, script: seq<Outcome>)
    ensures OnlyQueries(services, Survey(services, script).0.effects)
  {
    if services != [] {
      var query := [Command(IsActiveArgv(services[0]))];
      assert OnlyQueries(services, query) by {
        assert services[0] in services;
      }
      if ProbeOf(NextOutcome(script)) != Crash {
        var left := Survey(services[1..], RestOf(script));
        SurveyOnlyQueries(services[1..], RestOf(script));
        OnlyQueriesWider(services[1..], services, left.0.effects);
        SurveyStep(services, script);
        OnlyQueriesAppend(services, query, left.0.effects);
      }
    }
  }

  /** Unless a query raised, the first pass asks about every service
      exactly once, in order. */
  lemma {:induction false} SurveyAsksAll(services: seq<string>, script: seq<Outcome>)
    ensures var survey := Survey(services, script);
            !survey.0.crashed ==>
              |survey.0.effects| == |services|
              && forall i | 0 <= i < |services| :: survey.0.effects[i] == Command(IsActiveArgv(services[i]))
  {
    if services != [] && ProbeOf(NextOutcome(script)) != Crash {
      SurveyAsksAll(services[1..], RestOf(script));
      SurveyStep(services, script);
      var left := Survey(services[1..], RestOf(script));
      if !left.0.crashed {
        forall i | 1 <= i < |services|
          ensures Survey(services, script).0.effects[i] == Command(IsActiveArgv(services[i]))
        {
          assert services[1..][i - 1] == services[i];
        }
      }
    }
  }

  /** Draining only asks about the waiting services and sleeps. */
  lemma {:induction false} DrainAllOnlyQueries(services: seq<string>, waiting: seq<string>, script: seq<Outcome>)
    requires forall s | s in waiting :: s in services
    ensures OnlyQueries(services, DrainAll(waiting, script).effects)
  {
    if waiting != [] {
      var d := DrainOne(waiting[0], script);
      var n := BusyRun(script);
      assert waiting[0] in waiting;
      PollsOnlyQueries(services, waiting[0], n);
      assert OnlyQueries(services, [Command(IsActiveArgv(waiting[0]))]);
      OnlyQueriesAppend(services, Polls(waiting[0], n), [Command(IsActiveArgv(waiting[0]))]);
      if !d.crashed {
        DrainAllOnlyQueries(services, waiting[1..], d.rest);
        OnlyQueriesAppend(services, d.effects, DrainAll(waiting[1..], d.rest).effects);
      }
    }
  }

  /** Waiting for the services only ever asks `systemctl is-active` about
      one of them or sleeps 30 seconds. */
  lemma WaitOnlyQueries(services: seq<string>, script: seq<Outcome>)
    ensures OnlyQueries(services, WaitRun(services, script).effects)
  {
    var survey := Survey(services, script);
    SurveyOnlyQueries(services, script);
    if !survey.0.crashed {
      SurveyRunning(services, script);
      DrainAllOnlyQueries(services, survey.1, survey.0.rest);
      OnlyQueriesAppend(services, survey.0.effects, DrainAll(survey.1, survey.0.rest).effects);
    }
  }

  /** A drain that does not crash ends on an answer outside the running
      states, after answers that were all inside them. */
  lemma DrainOneStops(service: string, script: seq<Outcome>)
    ensures var n := BusyRun(script);
            (forall i | 0 <= i < n :: ProbeOf(script[i]) == Busy)
            && (!DrainOne(service, script).crashed ==> ProbeOf(NextOutcome(Drop(script, n))) == Idle)
  {
    BusyPrefix(script);
    BusyRunEnds(script);
  }

  // ---------------------------------------------------------------------
  // Scheduling the next wake-up
  // ---------------------------------------------------------------------

  /** How `set_next_wakeup` ends: RTC wake disabled (it returns), an
      exception outside its `try` ends the program, `sys.exit(1)` after a
      failure inside it, or `rtcwake` accepted the alarm and powers off. */
  datatype WakeEnd = RtcDisabled | WakeCrashed | WakeFailed | PoweringOff

  /** `rtcwake -m off -t <timestamp>`. */
  function RtcwakeArgv(at: int): (argv: seq<string>)
    ensures |argv| == 5 && argv[0] == "rtcwake"
  {
    ["rtcwake", "-m", "off", "-t", IntToString(at)]
  }

  /** The alarm time written on the command line reads back as itself. */
  lemma RtcwakeTime(at: int)
    ensures ParseInt(RtcwakeArgv(at)[4]) == Some(at)
  {
    ParseIntToString(at);
  }

  /** What `set_next_wakeup` did, and how it ended. */
  datatype Wake = Wake(effects: seq<Effect>, rest: seq<Outcome>, end: WakeEnd)

  /** `--cool-off 0s` skips the pause before waiting. */
  predicate PauseSkipped(coolOff: string) {
    coolOff == "0s"
  }

  /** The part of `set_next_wakeup` after the cool-off pause: wait for the
      services, then ask `rtcwake` for the alarm. A `wake_delay` that does
      not parse fails inside the `try` before `rtcwake` runs. */
  function WaitAndAlarm(wakeDelay: Option<int>, now: int, script: seq<Outcome>): Wake {
    var w := WaitRun(Services, script);
    if w.crashed then Wake(w.effects, w.rest, WakeCrashed)
    else if wakeDelay.None? then Wake(w.effects, w.rest, WakeFailed)
    else
      var alarm := Command(RtcwakeArgv(now + wakeDelay.value));
      Wake(w.effects + [alarm], RestOf(w.rest),
           if NextOutcome(w.rest).Succeeded() then PoweringOff else WakeFailed)
  }

  /** The specification of `set_next_wakeup`. The two durations arrive
      already parsed (`None` when the text does not parse); `now` is the
      current time in whole seconds. */
  function WakeRun(disable: bool, coolOff: string, coolOffSeconds: Option<int>,
                   wakeDelay: Option<int>, now: int, script: seq<Outcome>): Wake
  {
    if disable then Wake([], script, RtcDisabled)
    else if !PauseSkipped(coolOff) && !(coolOffSeconds.Some? && coolOffSeconds.value >= 0) then
      // `time.sleep` rejects `None` and negative durations.
      Wake([], script, WakeCrashed)
    else
      var rest := WaitAndAlarm(wakeDelay, now, script);
      Wake(Pause(coolOff, coolOffSeconds) + rest.effects, rest.rest, rest.end)
  }

  /** The cool-off pause: none when skipped, otherwise one sleep. */
  function Pause(coolOff: string, coolOffSeconds: Option<int>): seq<Effect>
    requires !PauseSkipped(coolOff) ==> coolOffSeconds.Some?
  {
    if PauseSkipped(coolOff) then [] else [Slept(coolOffSeconds.value)]
  }

  /** `time.sleep(cool_off_seconds)` unless the pause is skipped. */
  method CoolOff(r: Runner, coolOff: string, coolOffSeconds: Option<int>)
    requires !PauseSkipped(coolOff) ==> coolOffSeconds.Some?
    modifies r
    ensures r.log == old(r.log) + Pause(coolOff, coolOffSeconds) && r.script == old(r.script)
  {
    if !PauseSkipped(coolOff) {
      r.Sleep(coolOffSeconds.value);
    } else {
      assert old(r.log) + [] == r.log;
    }
  }

  /** Waiting for the services, then `rtcwake`. */
  method WaitThenAlarm(r: Runner, wakeDelay: Option<int>, now: int) returns (end: WakeEnd)
    modifies r
    ensures var w := WaitAndAlarm(wakeDelay, now, old(r.script));
            r.log == old(r.log) + w.effects && r.script == w.rest && end == w.end
  {
    ghost var l0 := r.log;
    ghost var waited := WaitRun(Services, r.script);
    var crashed := WaitForServices(r);
    if crashed {
      return WakeCrashed;
    }
    if wakeDelay.None? {
      return WakeFailed;
    }
    var argv := RtcwakeArgv(now + wakeDelay.value);
    var o := r.Run(argv);
    AppendAssoc(l0, waited.effects, [Command(argv)]);
    end := if o.Succeeded() then PoweringOff else WakeFailed;
  }

  /** `set_next_wakeup` once RTC wake is enabled and the cool-off is a
      valid duration: the pause, then the rest. */
  method PauseThenAlarm(r: Runner, coolOff: string, coolOffSeconds: Option<int>,
                        wakeDelay: Option<int>, now: int)
    returns (end: WakeEnd)
    requires !PauseSkipped(coolOff) ==> coolOffSeconds.Some? && coolOffSeconds.value >= 0
    modifies r
    ensures var w := WakeRun(false, coolOff, coolOffSeconds, wakeDelay, now, old(r.script));
            r.log == old(r.log) + w.effects && r.script == w.rest && end == w.end
  {
    ghost var l0 := r.log;
    ghost var rest := WaitAndAlarm(wakeDelay, now, r.script);
    CoolOff(r, coolOff, coolOffSeconds);
    end := WaitThenAlarm(r, wakeDelay, now);
    AppendAssoc(l0, Pause(coolOff, coolOffSeconds), rest.effects);
  }

  /** `set_next_wakeup`. */
  method SetNextWakeup(r: Runner, disable: bool, coolOff: string, coolOffSeconds: Option<int>,
                       wakeDelay: Option<int>, now: int)
    returns (end: WakeEnd)
    modifies r
    ensures var w := WakeRun(disable, coolOff, coolOffSeconds, wakeDelay, now, old(r.script));
            r.log == old(r.log) + w.effects && r.script == w.rest && end == w.end
  {
    if disable {
      return RtcDisabled;
    }
    if !PauseSkipped(coolOff) && (coolOffSeconds.None? || coolOffSeconds.value < 0) {
      return WakeCrashed;
    }
    end := PauseThenAlarm(r, coolOff, coolOffSeconds, wakeDelay, now);
  }


  predicate IsRtcwake(e: Effect) {
    e.Command? && |e.argv| > 0 && e.argv[0] == "rtcwake"
  }

  /** After the pause, no effect before the last is `rtcwake`, and powering
      off means the last effect is `rtcwake` with the requested time. */
  lemma AlarmLast(wakeDelay: Option<int>, now: int, script: seq<Outcome>)
    ensures var w := WaitAndAlarm(wakeDelay, now, script);
            (forall i | 0 <= i < |w.effects| - 1 :: !IsRtcwake(w.effects[i]))
            && (w.end == PoweringOff ==>
                  wakeDelay.Some? && w.effects != []
                  && w.effects[|w.effects| - 1] == Command(RtcwakeArgv(now + wakeDelay.value)))
  {
    var waited := WaitRun(Services, script);
    WaitOnlyQueries(Services, script);
    forall i | 0 <= i < |waited.effects| ensures !IsRtcwake(waited.effects[i]) {
      var e := waited.effects[i];
      assert e in waited.effects;
      if e != Slept(PollSeconds) {
        var s :| s in Services && e == Command(IsActiveArgv(s));
      }
    }
  }

  /** `set_next_wakeup` powers off at most once and last of all: no effect
      before the last is `rtcwake`, and powering off means the last effect
      is `rtcwake` with the requested alarm time. */
  lemma WakeLast(disable: bool, coolOff: string, coolOffSeconds: Option<int>,
                 wakeDelay: Option<int>, now: int, script: seq<Outcome>)
    ensures var w := WakeRun(disable, coolOff, coolOffSeconds, wakeDelay, now, script);
            (forall i | 0 <= i < |w.effects| - 1 :: !IsRtcwake(w.effects[i]))
            && (w.end == PoweringOff ==>
                  wakeDelay.Some? && w.effects != []
                  && w.effects[|w.effects| - 1] == Command(RtcwakeArgv(now + wakeDelay.value)))
  {
    if !disable && !(!PauseSkipped(coolOff) && !(coolOffSeconds.Some? && coolOffSeconds.value >= 0)) {
      var pause := Pause(coolOff, coolOffSeconds);
      var rest := WaitAndAlarm(wakeDelay, now, script);
      AlarmLast(wakeDelay, now, script);
      var effects := pause + rest.effects;
      forall i | 0 <= i < |effects| - 1 ensures !IsRtcwake(effects[i]) {
        if i >= |pause| {
          assert effects[i] == rest.effects[i - |pause|];
        }
      }
    }
  }

  // ---------------------------------------------------------------------
  // The pipeline
  // ---------------------------------------------------------------------

  /** The snapshot the pipeline asks systemd to take first. */
  const SnapshotStartArgv: seq<string> := ["systemctl", "start", "bcachefs-snap-create.service"]

  /** The command-line settings `main` uses (`--max-workers` and `--debug`
      change nothing observable here). */
  datatype Options = Options(
    remotes: seq<string>,
    rcloneConfig: string,
    localTargetPath: string,
    wakeDelay: Option<int>,
    coolOff: string,
    coolOffSeconds: Option<int>,
    disableRtcWake: bool,
    dryRun: bool)

  /** How `main` ends: the snapshot could not be started (status 1), some
      step failed so the host stays on (status 1), or the counters were clean
      and `set_next_wakeup` ran. */
  datatype PipelineEnd =
    | SnapshotFailed
    | KeptOn(success: nat, failure: nat)
    | WakeScheduled(success: nat, failure: nat, wake: WakeEnd)

  /** No failure was counted exactly when every sync succeeded. */
  lemma {:induction false} TallyClean(results: seq<SyncResult>)
    ensures Tally(results).1 == 0 <==> forall i | 0 <= i < |results| :: results[i] == Synced
  {
    if results != [] {
      TallyClean(results[1..]);
      if Tally(results).1 == 0 {
        forall i | 1 <= i < |results| ensures results[i] == Synced {
          assert results[1..][i - 1] == results[i];
        }
      } else if results[0] == Synced {
        var k :| 0 <= k < |results[1..]| && results[1..][k] != Synced;
        assert results[k + 1] != Synced;
      }
    }
  }

  /** `main`, after argument parsing. */
  method RunPipeline(r: Runner, opts: Options, now: int) returns (end: PipelineEnd)
    modifies r
    ensures !NextOutcome(old(r.script)).Succeeded() ==>
              end == SnapshotFailed && r.log == old(r.log) + [Command(SnapshotStartArgv)]
              && r.script == RestOf(old(r.script))
    ensures NextOutcome(old(r.script)).Succeeded() ==>
              var results := SyncResults(opts.remotes, RestOf(old(r.script)), opts.dryRun);
              var synced := old(r.log) + [Command(SnapshotStartArgv)]
                            + AllSyncEffects(opts.remotes, opts.rcloneConfig, opts.localTargetPath, opts.dryRun);
              var after := if opts.dryRun then RestOf(old(r.script)) else Drop(RestOf(old(r.script)), |opts.remotes|);
              var wake := WakeRun(opts.disableRtcWake, opts.coolOff, opts.coolOffSeconds, opts.wakeDelay, now, after);
              !end.SnapshotFailed?
              && end.success == Tally(results).0 + 1 && end.failure == Tally(results).1
              && (end.WakeScheduled? <==> end.failure == 0)
              && (end.KeptOn? ==> r.log == synced && r.script == after)
              && (end.WakeScheduled? ==> r.log == synced + wake.effects && r.script == wake.rest && end.wake == wake.end)
  {
    var o := r.Run(SnapshotStartArgv);
    if !o.Succeeded() {
      // A non-zero status returns False; a missing systemctl raises. Both
      // end the program with status 1.
      return SnapshotFailed;
    }
    ghost var l1 := r.log;
    // The additional backup tasks always report success.
    var results := SyncStage(r, opts.remotes, opts.rcloneConfig, opts.localTargetPath, opts.dryRun);
    var success, failure := CountResults(results);
    // The service check always reports success.
    success := success + 1;
    if failure == 0 {
      ghost var l2 := r.log;
      var wake := SetNextWakeup(r, opts.disableRtcWake, opts.coolOff, opts.coolOffSeconds, opts.wakeDelay, now);
      end := WakeScheduled(success, failure, wake);
    } else {
      end := KeptOn(success, failure);
    }
  }

}
