/** bcachefs doctor (packages/bcachefs-doctor/bcachefs-doctor.py): the
    parsers that turn command output and /proc files into report fields —
    `bcachefs status`, `df`, /proc/mounts, `mount -t bcachefs` and the
    MemTotal line of /proc/meminfo. The `io_done` parser and the instance
    listing are the same code as in the I/O metrics tool (modules IoDone and
    IoMetrics). */
module Doctor {
  import opened Wrappers
  import opened Text
  import opened Dicts
  import opened Seqs

  /** What `run_command` returns: the captured output, the exit status and
      whether that status was 0. */
  datatype CommandResult = CommandResult(stdout: string, stderr: string, returncode: int, success: bool)

  // ---------------------------------------------------------------------
  // bcachefs status
  // ---------------------------------------------------------------------

  /** `bcachefs status`, with the mount point appended when one is given
      and not empty. */
  function StatusArgv(mountpoint: Option<string>): (argv: seq<string>)
    ensures |argv| >= 2 && argv[..2] == ["bcachefs", "status"]
    ensures |argv| == 3 <==> mountpoint.Some? && mountpoint.value != ""
    ensures |argv| == 3 ==> argv[2] == mountpoint.value
  {
    if mountpoint.Some? && mountpoint.value != "" then ["bcachefs", "status", mountpoint.value]
    else ["bcachefs", "status"]
  }

  datatype StatusInfo = StatusError(error: string) | Status(raw: string, parsed: map<string, string>)

  /** A line with ':' gives a field: the text before the first ':' and the
      text after it, both stripped. */
  function FieldOf(line: string): Option<(string, string)> {
    if ':' !in line then None
    else
      var (key, value) := SplitFirst(line, ':');
      Some((Strip(key), Strip(value)))
  }

  /** The fields of the lines, a later line replacing an earlier one with
      the same key. */
  function Fields(lines: seq<string>): map<string, string> {
    CollectBy(lines, FieldOf)
  }

  function StatusOf(result: CommandResult): StatusInfo {
    if !result.success then StatusError(result.stderr)
    else Status(result.stdout, Fields(SplitLines(result.stdout)))
  }

  /** `run_bcachefs_status`, given what the command returned. */
  method RunBcachefsStatus(result: CommandResult) returns (info: StatusInfo)
    ensures info == StatusOf(result)
  {
    if !result.success {
      return StatusError(result.stderr);
    }
    var parsed: map<string, string> := map[];
    var lines := SplitLines(result.stdout);
    for i := 0 to |lines|
      invariant parsed == Fields(lines[..i])
    {
      assert lines[..i + 1][..i] == lines[..i];
      var line := lines[i];
      if ':' in line {
        var (key, value) := SplitFirst(line, ':');
        parsed := parsed[Strip(key) := Strip(value)];
      }
    }
    assert lines[..|lines|] == lines;
    info := Status(result.stdout, parsed);
  }

  /** The parsed keys are exactly the keys of the lines with ':'. */
  lemma FieldsKeys(lines: seq<string>, k: string)
    ensures k in Fields(lines) <==> exists i | 0 <= i < |lines| :: FieldOf(lines[i]).Some? && FieldOf(lines[i]).value.0 == k
  {
    CollectByKeys(lines, FieldOf, k);
  }

  /** A key holds the value of the last line that names it. */
  lemma FieldsLastWins(lines: seq<string>, i: nat, k: string, v: string)
    requires i < |lines| && FieldOf(lines[i]) == Some((k, v))
    requires forall j | i < j < |lines| :: FieldOf(lines[j]).None? || FieldOf(lines[j]).value.0 != k
    ensures k in Fields(lines) && Fields(lines)[k] == v
  {
    CollectByLastWins(lines, FieldOf, i, k, v);
  }

  // ---------------------------------------------------------------------
  // df
  // ---------------------------------------------------------------------

  /** Header and value fields paired by position, up to the shorter list. */
  function Pairs(headers: seq<string>, values: seq<string>): (ps: seq<(string, string)>)
    ensures |ps| == Min(|headers|, |values|)
    ensures forall i | 0 <= i < |ps| :: ps[i] == (headers[i], values[i])
  {
    seq(Min(|headers|, |values|), i requires 0 <= i < Min(|headers|, |values|) => (headers[i], values[i]))
  }

  function Min(a: nat, b: nat): nat {
    if a < b then a else b
  }

  /** The `df -h` fields: the first line's words name the second line's
      words; nothing when the command failed or printed fewer than two
      lines. */
  function DfFields(df: CommandResult): map<string, string> {
    if !df.success then map[]
    else
      var lines := SplitLines(df.stdout);
      if |lines| < 2 then map[] else Collect(Pairs(SplitWs(lines[0]), SplitWs(lines[1])))
  }

  datatype Usage = Usage(fields: map<string, string>, bcachefsStatus: StatusInfo)

  /** `get_fs_usage`, given what `df -h` and `bcachefs status` returned. */
  method GetFsUsage(df: CommandResult, status: CommandResult) returns (usage: Usage)
    ensures usage == Usage(DfFields(df), StatusOf(status))
  {
    var fields: map<string, string> := map[];
    if df.success {
      var lines := SplitLines(df.stdout);
      if |lines| >= 2 {
        fields := PairFields(SplitWs(lines[0]), SplitWs(lines[1]));
      }
    }
    var statusInfo := RunBcachefsStatus(status);
    usage := Usage(fields, statusInfo);
  }

  /** The loop of `get_fs_usage` over the header fields of `df -h`: header
      `i` names value `i` while there is one. */
  method PairFields(headers: seq<string>, values: seq<string>) returns (fields: map<string, string>)
    ensures fields == Collect(Pairs(headers, values))
  {
    fields := map[];
    ghost var pairs := Pairs(headers, values);
    for i := 0 to |headers|
      invariant fields == Collect(pairs[..Min(i, |values|)])
    {
      if i < |values| {
        assert pairs[..i + 1][..i] == pairs[..i];
        fields := fields[headers[i] := values[i]];
      }
    }
    assert pairs[..Min(|headers|, |values|)] == pairs;
  }

  /** Header `i` names value `i` unless a later header of the same name
      takes its place; the keys are exactly the headers that have a
      value. */
  lemma DfPairing(df: CommandResult, i: nat)
    requires df.success && |SplitLines(df.stdout)| >= 2
    requires var lines := SplitLines(df.stdout);
             var headers := SplitWs(lines[0]);
             var values := SplitWs(lines[1]);
             && i < |headers| && i < |values|
             && forall j | i < j < Min(|headers|, |values|) :: headers[j] != headers[i]
    ensures var lines := SplitLines(df.stdout);
            var headers := SplitWs(lines[0]);
            var values := SplitWs(lines[1]);
            headers[i] in DfFields(df) && DfFields(df)[headers[i]] == values[i]
  {
    var lines := SplitLines(df.stdout);
    CollectLastWins(Pairs(SplitWs(lines[0]), SplitWs(lines[1])), i);
  }

  lemma DfKeys(df: CommandResult, k: string)
    requires df.success && |SplitLines(df.stdout)| >= 2
    ensures var lines := SplitLines(df.stdout);
            var headers := SplitWs(lines[0]);
            var values := SplitWs(lines[1]);
            k in DfFields(df) <==> k in headers[..Min(|headers|, |values|)]
  {
    var lines := SplitLines(df.stdout);
    var headers := SplitWs(lines[0]);
    var values := SplitWs(lines[1]);
    var ps := Pairs(headers, values);
    CollectKeys(ps, k);
    if k in headers[..Min(|headers|, |values|)] {
      var i :| 0 <= i < Min(|headers|, |values|) && headers[i] == k;
      assert ps[i].0 == k;
    }
  }

  // ---------------------------------------------------------------------
  // /proc/mounts
  // ---------------------------------------------------------------------

  datatype Mount = Mount(device: string, mountpoint: string, fsType: string, options: string, dump: string, passNo: string)

  /** A line with at least six fields whose third is "bcachefs". */
  function MountOf(line: string): Option<Mount> {
    var parts := SplitWs(line);
    if |parts| >= 6 && parts[2] == "bcachefs" then Some(Mount(parts[0], parts[1], parts[2], parts[3], parts[4], parts[5]))
    else None
  }

  function Mounts(lines: seq<string>): seq<Mount> {
    Keep(lines, MountOf)
  }

  /** `get_mounted_filesystems`: `file` holds the lines of /proc/mounts,
      `None` when it cannot be read. */
  function MountedFilesystems(file: Option<seq<string>>): seq<Mount> {
    match file
    case None => []
    case Some(lines) => Mounts(lines)
  }

  method GetMountedFilesystems(file: Option<seq<string>>) returns (filesystems: seq<Mount>)
    ensures filesystems == MountedFilesystems(file)
  {
    filesystems := [];
    if file.None? {
      return;
    }
    var lines := file.value;
    for i := 0 to |lines|
      invariant filesystems == Mounts(lines[..i])
    {
      KeepStep(lines, MountOf, i);
      var parts := SplitWs(lines[i]);
      if |parts| >= 6 && parts[2] == "bcachefs" {
        filesystems := filesystems + [Mount(parts[0], parts[1], parts[2], parts[3], parts[4], parts[5])];
      }
    }
    assert lines[..|lines|] == lines;
  }

  /** The mounts listed are exactly those of the qualifying lines. */
  lemma MountsExactly(lines: seq<string>, m: Mount)
    ensures m in Mounts(lines) <==> exists i | 0 <= i < |lines| :: MountOf(lines[i]) == Some(m)
  {
    KeepExactly(lines, MountOf, m);
  }

  predicate IsField(w: string) {
    w != [] && forall j | 0 <= j < |w| :: !IsSpace(w[j])
  }

  /** A /proc/mounts line written from a bcachefs mount's six fields reads
      back as that mount. */
  lemma MountLineReadsBack(m: Mount)
    requires m.fsType == "bcachefs"
    requires IsField(m.device) && IsField(m.mountpoint) && IsField(m.options) && IsField(m.dump) && IsField(m.passNo)
    ensures MountOf(Join([m.device, m.mountpoint, m.fsType, m.options, m.dump, m.passNo], " ")) == Some(m)
  {
    var words := [m.device, m.mountpoint, m.fsType, m.options, m.dump, m.passNo];
    assert IsField("bcachefs");
    SplitWsJoin(words);
  }

  // ---------------------------------------------------------------------
  // Mount options (`get_kernel_info`)
  // ---------------------------------------------------------------------

  predicate Qualifies(line: string) {
    Contains(line, "bcachefs") && '(' in line && ')' in line
  }

  /** `line.split("(")[1].split(")")[0].split(",")`: the text after the
      first '(' up to the next '(' or ')', split at commas. */
  function OptionsOf(line: string): seq<string>
    requires '(' in line
  {
    SplitFirstPart(line, '(');
    var inside := Split(line, '(')[1];
    Split(Split(inside, ')')[0], ',')
  }

  /** The options of the last qualifying line; none when no line
      qualifies. */
  function LastOptions(lines: seq<string>): seq<string> {
    if lines == [] then []
    else
      var last := lines[|lines| - 1];
      if Qualifies(last) then OptionsOf(last) else LastOptions(lines[..|lines| - 1])
  }

  function MountOptions(cmd: CommandResult): seq<string> {
    if cmd.success then LastOptions(SplitLines(cmd.stdout)) else []
  }

  /** The mount-option part of `get_kernel_info`, given what
      `mount -t bcachefs` returned. */
  method GetMountOptions(cmd: CommandResult) returns (options: seq<string>)
    ensures options == MountOptions(cmd)
  {
    options := [];
    if cmd.success {
      var lines := SplitLines(cmd.stdout);
      for i := 0 to |lines|
        invariant options == LastOptions(lines[..i])
      {
        assert lines[..i + 1][..i] == lines[..i];
        var line := lines[i];
        if Contains(line, "bcachefs") && '(' in line && ')' in line {
          SplitFirstPart(line, '(');
          var optionsPart := Split(Split(line, '(')[1], ')')[0];
          options := Split(optionsPart, ',');
        }
      }
      assert lines[..|lines|] == lines;
    }
  }

  /** The last qualifying line decides. */
  lemma {:induction false} LastQualifyingWins(lines: seq<string>, i: nat)
    requires i < |lines| && Qualifies(lines[i])
    requires forall j | i < j < |lines| :: !Qualifies(lines[j])
    ensures LastOptions(lines) == OptionsOf(lines[i])
  {
    var init := lines[..|lines| - 1];
    if i < |init| {
      assert init[i] == lines[i];
      LastQualifyingWins(init, i);
    }
  }

  lemma {:induction false} NoQualifyingLine(lines: seq<string>)
    requires forall j | 0 <= j < |lines| :: !Qualifies(lines[j])
    ensures LastOptions(lines) == []
  {
    if lines != [] {
      NoQualifyingLine(lines[..|lines| - 1]);
    }
  }

  /** The text before the first separator of `x + y`, when `x` has none, is
      `x` followed by the text before the first separator of `y`. */
  lemma {:induction false} SplitHead(x: string, y: string, sep: char)
    requires sep !in x
    ensures Split(x + y, sep)[0] == x + Split(y, sep)[0]
  {
    if x != [] {
      SplitHead(x[1..], y, sep);
      assert (x + y)[1..] == x[1..] + y;
      assert x == [x[0]] + x[1..];
    } else {
      assert x + y == y;
    }
  }

  lemma {:induction false} NotInJoin(parts: seq<string>, sep: string, c: char)
    requires c !in sep && forall i | 0 <= i < |parts| :: c !in parts[i]
    ensures c !in Join(parts, sep)
  {
    if |parts| > 1 {
      NotInJoin(parts[1..], sep, c);
    }
  }

  /** An option list written between parentheses reads back as itself. */
  lemma OptionsReadBack(before: string, opts: seq<string>, after: string)
    requires '(' !in before && opts != []
    requires forall i | 0 <= i < |opts| :: ',' !in opts[i] && '(' !in opts[i] && ')' !in opts[i]
    ensures OptionsOf(before + "(" + (Join(opts, ",") + ")" + after)) == opts
  {
    var body := Join(opts, ",");
    var rest := body + ")" + after;
    AfterParen(before, rest);
    NotInJoin(opts, ",", '(');
    NotInJoin(opts, ",", ')');
    SplitHead(body + ")", after, '(');
    assert Split(rest, '(')[0] == body + [')'] + Split(after, '(')[0];
    SplitAt(body, Split(after, '(')[0], ')');
    SplitJoin(opts, ',');
  }

  /** After a first '(', the options are read from the text that follows. */
  lemma AfterParen(before: string, rest: string)
    requires '(' !in before
    ensures '(' in before + "(" + rest
    ensures OptionsOf(before + "(" + rest) == Split(Split(Split(rest, '(')[0], ')')[0], ',')
  {
    var line := before + "(" + rest;
    assert line == before + ['('] + rest;
    assert line[|before|] == '(';
    SplitAt(before, rest, '(');
  }

  // ---------------------------------------------------------------------
  // Memory (`get_system_info`)
  // ---------------------------------------------------------------------

  /** The memory total in bytes from `grep MemTotal /proc/meminfo`: the
      second field, in kB, times 1024; 0 when the command failed or printed
      nothing; `None` where Python raises (no second field, or one that is
      not an integer). */
  function MemoryTotal(cmd: CommandResult): Option<int> {
    if !(cmd.success && cmd.stdout != "") then Some(0)
    else
      var words := SplitWs(cmd.stdout);
      if |words| < 2 then None
      else
        match ParseInt(words[1])
        case None => None
        case Some(kb) => Some(kb * 1024)
  }

  /** The line /proc/meminfo holds for a machine with `kb` kB of memory
      gives `kb * 1024` bytes. */
  lemma MemoryTotalOfLine(kb: nat)
    ensures MemoryTotal(CommandResult("MemTotal: " + NatToString(kb) + " kB\n", "", 0, true)) == Some(kb * 1024)
  {
    var digits := NatToString(kb);
    IntToStringNoSpace(kb);
    ParseIntToString(kb);
    assert IntToString(kb) == digits;
    var line := "MemTotal: " + digits + " kB\n";
    assert line[0] == 'M';
    MemLineWords(digits);
    assert SplitWs(line)[1] == digits;
    assert ParseInt(digits) == Some(kb);
  }

  lemma MemLineWords(digits: string)
    requires IsField(digits)
    ensures SplitWs("MemTotal: " + digits + " kB\n") == ["MemTotal:", digits, "kB"]
  {
    MemLineShape(digits);
    TitleIsField();
    SplitWsCons("MemTotal:", ' ', digits + [' '] + "kB\n");
    SplitWsCons(digits, ' ', "kB\n");
    UnitWords();
  }

  lemma MemLineShape(digits: string)
    ensures "MemTotal: " + digits + " kB\n" == "MemTotal:" + [' '] + (digits + [' '] + "kB\n")
  {
    assert "MemTotal: " == "MemTotal:" + [' '];
    assert " kB\n" == [' '] + "kB\n";
  }

  lemma TitleIsField()
    ensures IsField("MemTotal:")
  {
  }

  lemma UnitWords()
    ensures SplitWs("kB\n") == ["kB"]
  {
    assert "kB\n" == "kB" + ['\n'] + [];
    assert IsField("kB");
    SplitWsCons("kB", '\n', []);
  }
}
