/** The health report (packages/health-report/health-report.py): the
    assembly of the summary report, the splitting of the detailed report
    into Telegram-sized sections, the truncation of an over-long message,
    the mount points the disk section skips and the colour a disk's usage
    gets. The data the sections collect (psutil, smartctl, sensors) and the
    sending itself are not part of this model. */
module Health {
  import opened Text

  // ---------------------------------------------------------------------
  // Configuration
  // ---------------------------------------------------------------------

  /** The configuration keys this part of the report reads. The defaults
      are always present, so `config.get(key, default)` never falls back. */
  datatype Config = Config(excludeMountPoints: seq<string>, criticalDiskUsage: real, warningDiskUsage: real)

  const DefaultConfig := Config(
    ["/run", "/var/lib/docker", "/var/lib/containers", "k3s", "kube", "containerd", "docker", "sandbox"],
    90.0, 75.0)

  // ---------------------------------------------------------------------
  // Excluded mount points
  // ---------------------------------------------------------------------

  /** Pseudo and boot filesystems the disk section always skips. */
  const SystemMounts: seq<string> := ["/dev", "/sys", "/proc", "/run", "/boot/efi"]

  /** A mount point is skipped when a configured pattern or one of the
      system mount points occurs anywhere in it. */
  ghost predicate Excluded(patterns: seq<string>, mountPoint: string) {
    (exists i | 0 <= i < |patterns| :: Contains(mountPoint, patterns[i]))
    || (exists i | 0 <= i < |SystemMounts| :: Contains(mountPoint, SystemMounts[i]))
  }

  /** `_should_exclude_mount`. */
  method ShouldExcludeMount(config: Config, mountPoint: string) returns (excluded: bool)
    ensures excluded <==> Excluded(config.excludeMountPoints, mountPoint)
  {
    var patterns := config.excludeMountPoints;
    for i := 0 to |patterns|
      invariant forall j | 0 <= j < i :: !Contains(mountPoint, patterns[j])
    {
      if Contains(mountPoint, patterns[i]) {
        return true;
      }
    }
    excluded := exists i | 0 <= i < |SystemMounts| :: Contains(mountPoint, SystemMounts[i]);
  }

  /** More patterns never bring a mount point back. */
  lemma ExcludedMonotone(patterns: seq<string>, more: seq<string>, mountPoint: string)
    requires forall i | 0 <= i < |patterns| :: patterns[i] in more
    requires Excluded(patterns, mountPoint)
    ensures Excluded(more, mountPoint)
  {
    if i :| 0 <= i < |patterns| && Contains(mountPoint, patterns[i]) {
      var j :| 0 <= j < |more| && more[j] == patterns[i];
      assert Contains(mountPoint, more[j]);
    }
  }

  /** Anything below /proc, /sys or /dev is skipped whatever the
      configuration says. */
  lemma SystemTreesExcluded(patterns: seq<string>, top: string, rest: string)
    requires top in ["/dev", "/sys", "/proc"]
    ensures Excluded(patterns, top + rest)
  {
    var k := if top == "/dev" then 0 else if top == "/sys" then 1 else 2;
    assert SystemMounts[k] == top;
    assert top <= (top + rest)[0..];
  }

  /** The root filesystem is kept unless a configured pattern occurs in
      "/": every system mount point is longer than "/". */
  lemma RootKept(patterns: seq<string>)
    requires forall i | 0 <= i < |patterns| :: !Contains("/", patterns[i])
    ensures !Excluded(patterns, "/")
  {
    forall i | 0 <= i < |SystemMounts|
      ensures !Contains("/", SystemMounts[i])
    {
      assert |SystemMounts[i]| > 1;
    }
  }

  // ---------------------------------------------------------------------
  // Disk status
  // ---------------------------------------------------------------------

  datatype DiskStatus = Critical | Warning | Healthy {
    /** The marker the disk line starts with. */
    function Emoji(): string {
      match this
      case Critical => "\U{1F534}"
      case Warning => "\U{1F7E1}"
      case Healthy => "\U{1F7E2}"
    }

    function Severity(): nat {
      match this
      case Critical => 2
      case Warning => 1
      case Healthy => 0
    }
  }

  /** `_get_disk_status_emoji`: critical from the critical threshold up,
      warning from the warning threshold up, healthy below both. */
  function DiskStatusOf(config: Config, usagePercent: real): (s: DiskStatus)
    ensures s == Critical <==> usagePercent >= config.criticalDiskUsage
    ensures s == Warning <==> config.criticalDiskUsage > usagePercent >= config.warningDiskUsage
    ensures s == Healthy <==> usagePercent < config.criticalDiskUsage && usagePercent < config.warningDiskUsage
  {
    if usagePercent >= config.criticalDiskUsage then Critical
    else if usagePercent >= config.warningDiskUsage then Warning
    else Healthy
  }

  /** A fuller disk never gets a milder status. */
  lemma StatusMonotone(config: Config, u: real, v: real)
    requires u <= v
    ensures DiskStatusOf(config, u).Severity() <= DiskStatusOf(config, v).Severity()
  {
    if DiskStatusOf(config, u) == Warning {
      assert v >= config.warningDiskUsage;
    }
  }

  /** With the default thresholds: 90% and more is critical, 75% up to 90%
      is a warning, below 75% is healthy. */
  lemma DefaultThresholds(usagePercent: real)
    ensures DiskStatusOf(DefaultConfig, usagePercent) == Critical <==> usagePercent >= 90.0
    ensures DiskStatusOf(DefaultConfig, usagePercent) == Warning <==> 75.0 <= usagePercent < 90.0
    ensures DiskStatusOf(DefaultConfig, usagePercent) == Healthy <==> usagePercent < 75.0
  {
  }

  // ---------------------------------------------------------------------
  // Summary report
  // ---------------------------------------------------------------------

  /** The three lines every summary starts with. */
  function SummaryHeader(hostname: string, date: string): seq<string> {
    ["*SERVER HEALTH SUMMARY*", "\U{1F4CA} *" + hostname + "* - " + date, ""]
  }

  /** Each section's lines followed by a blank line; a section with no
      lines adds nothing. */
  function SummaryBody(sections: seq<seq<string>>): seq<string> {
    if sections == [] then []
    else
      var last := sections[|sections| - 1];
      var body := SummaryBody(sections[..|sections| - 1]);
      if last == [] then body else body + last + [""]
  }

  /** `generate_summary_report`, given the host name, the date and what each
      section's `collect_summary` returned. */
  method GenerateSummaryReport(hostname: string, date: string, sections: seq<seq<string>>) returns (report: string)
    ensures report == Join(SummaryHeader(hostname, date) + SummaryBody(sections), "\n")
  {
    var lines := ["*SERVER HEALTH SUMMARY*"];
    lines := lines + ["\U{1F4CA} *" + hostname + "* - " + date];
    lines := lines + [""];
    for i := 0 to |sections|
      invariant lines == SummaryHeader(hostname, date) + SummaryBody(sections[..i])
    {
      assert sections[..i + 1][..i] == sections[..i];
      var sectionLines := sections[i];
      if sectionLines != [] {
        lines := lines + sectionLines;
        lines := lines + [""];
      }
    }
    assert sections[..|sections|] == sections;
    report := Join(lines, "\n");
  }

  /** The body of two runs of sections is the body of each, in order. */
  lemma {:induction false} SummaryBodyAppend(a: seq<seq<string>>, b: seq<seq<string>>)
    ensures SummaryBody(a + b) == SummaryBody(a) + SummaryBody(b)
  {
    if b == [] {
      assert a + b == a;
    } else {
      var init := b[..|b| - 1];
      SummaryBodyAppend(a, init);
      assert (a + b)[..|a + b| - 1] == a + init;
      assert (a + b)[|a + b| - 1] == b[|b| - 1];
    }
  }

  /** A section with no lines leaves no trace, not even a blank line. */
  lemma EmptySectionSkipped(a: seq<seq<string>>, b: seq<seq<string>>)
    ensures SummaryBody(a + [[]] + b) == SummaryBody(a + b)
  {
    SummaryBodyAppend(a + [[]], b);
    SummaryBodyAppend(a, b);
    assert (a + [[]])[..|a|] == a;
  }

  /** A section with lines contributes exactly those lines and one blank
      line after them. */
  lemma SectionThenBlank(a: seq<seq<string>>, s: seq<string>, b: seq<seq<string>>)
    requires s != []
    ensures SummaryBody(a + [s] + b) == SummaryBody(a) + s + [""] + SummaryBody(b)
  {
    SummaryBodyAppend(a + [s], b);
    assert (a + [s])[..|a|] == a;
  }

  /** No line of the body holds a line break when no section line does. */
  lemma {:induction false} SummaryBodyLines(sections: seq<seq<string>>)
    requires forall i, j | 0 <= i < |sections| && 0 <= j < |sections[i]| :: '\n' !in sections[i][j]
    ensures forall k | 0 <= k < |SummaryBody(sections)| :: '\n' !in SummaryBody(sections)[k]
  {
    if sections != [] {
      var init := sections[..|sections| - 1];
      SummaryBodyLines(init);
    }
  }

  /** Splitting the summary at its line breaks gives back the header and
      the body lines, when the host name, the date and the section lines
      hold no line break. */
  lemma SummaryReadsBack(hostname: string, date: string, sections: seq<seq<string>>)
    requires '\n' !in hostname && '\n' !in date
    requires forall i, j | 0 <= i < |sections| && 0 <= j < |sections[i]| :: '\n' !in sections[i][j]
    ensures var lines := SummaryHeader(hostname, date) + SummaryBody(sections);
            Split(Join(lines, "\n"), '\n') == lines
  {
    var header := SummaryHeader(hostname, date);
    var lines := header + SummaryBody(sections);
    SummaryBodyLines(sections);
    HeaderLines(hostname, date);
    forall k | 0 <= k < |lines|
      ensures '\n' !in lines[k]
    {
      if k >= |header| {
        assert lines[k] == SummaryBody(sections)[k - |header|];
      }
    }
    SplitJoin(lines, '\n');
  }

  lemma HeaderLines(hostname: string, date: string)
    requires '\n' !in hostname && '\n' !in date
    ensures forall k | 0 <= k < 3 :: '\n' !in SummaryHeader(hostname, date)[k]
  {
    var second := "\U{1F4CA} *" + hostname + "* - " + date;
    assert forall c | c in "\U{1F4CA} *" :: c != '\n';
    assert forall c | c in "* - " :: c != '\n';
    assert forall c | c in second :: c in "\U{1F4CA} *" || c in hostname || c in "* - " || c in date;
  }

  // ---------------------------------------------------------------------
  // Truncation (`send_telegram_message`)
  // ---------------------------------------------------------------------

  const MessageLimit := 4000
  const KeptLength := 3950
  const TruncationNotice := "...\n(Message truncated due to length limits)"

  /** The text actually sent: a message over 4000 characters keeps its
      first 3950 characters and gets the truncation notice; any other
      message goes out unchanged. */
  function Truncate(message: string): (sent: string)
    ensures |message| <= MessageLimit ==> sent == message
    ensures |message| > MessageLimit ==> |sent| == KeptLength + |TruncationNotice|
    ensures |message| > MessageLimit ==> sent[..KeptLength] == message[..KeptLength] && sent[KeptLength..] == TruncationNotice
  {
    if |message| > MessageLimit then message[..KeptLength] + TruncationNotice else message
  }

  /** Nothing sent is longer than the limit, and truncating twice is
      truncating once. */
  lemma TruncateBounded(message: string)
    ensures |Truncate(message)| <= MessageLimit
    ensures Truncate(Truncate(message)) == Truncate(message)
  {
    assert |TruncationNotice| == 44;
  }

  // ---------------------------------------------------------------------
  // Sections of the detailed report (`send_detailed_report_in_sections`)
  // ---------------------------------------------------------------------

  const MaxSectionSize := 3500

  /** A main header: a line starting with '*' but not with "**". */
  predicate OpensSection(line: string) {
    StartsWith(line, "*") && !StartsWith(line, "**")
  }

  /** The size a section counts for its lines: each line and its newline. */
  function Size(lines: seq<string>): nat {
    if lines == [] then 0 else Size(lines[..|lines| - 1]) + |lines[|lines| - 1]| + 1
  }

  /** The splitter's state: the finished sections, the lines of the
      current one and the size counted for them. */
  datatype Splitter = Splitter(closed: seq<seq<string>>, current: seq<string>, size: int)

  const Fresh := Splitter([], [], 0)

  /** One line: a main header first closes a non-empty current section;
      the line is then added, and a section whose size passes the maximum
      is closed at once. */
  function Feed(st: Splitter, line: string): Splitter {
    var st1 := if OpensSection(line) && st.size > 0 then Splitter(st.closed + [st.current], [], 0) else st;
    var st2 := Splitter(st1.closed, st1.current + [line], st1.size + |line| + 1);
    if st2.size > MaxSectionSize then Splitter(st2.closed + [st2.current], [], 0) else st2
  }

  function FeedAll(lines: seq<string>): Splitter {
    if lines == [] then Fresh else Feed(FeedAll(lines[..|lines| - 1]), lines[|lines| - 1])
  }

  /** The sections of some lines, as lists of lines: the closed ones and
      the last one if it is not empty. */
  function Chunks(lines: seq<string>): seq<seq<string>> {
    var st := FeedAll(lines);
    st.closed + (if st.current != [] then [st.current] else [])
  }

  /** The sections of a report, as the texts sent. */
  function Sections(report: string): seq<string> {
    JoinEach(Chunks(Split(report, '\n')), "\n")
  }

  /** The part of `send_detailed_report_in_sections` that builds the
      sections; sending them is not modelled. */
  method SplitIntoSections(report: string) returns (sections: seq<string>)
    ensures sections == Sections(report)
    ensures |sections| >= 1 && Join(sections, "\n") == report
  {
    sections := [];
    var currentSection: seq<string> := [];
    var currentSectionSize := 0;
    ghost var closed: seq<seq<string>> := [];
    var lines := Split(report, '\n');
    for i := 0 to |lines|
      invariant Splitter(closed, currentSection, currentSectionSize) == FeedAll(lines[..i])
      invariant sections == JoinEach(closed, "\n")
    {
      assert lines[..i + 1][..i] == lines[..i];
      var line := lines[i];
      if StartsWith(line, "*") && !StartsWith(line, "**") && currentSectionSize > 0 {
        JoinEachAppend(closed, currentSection, "\n");
        sections := sections + [Join(currentSection, "\n")];
        closed := closed + [currentSection];
        currentSection := [];
        currentSectionSize := 0;
      }
      currentSection := currentSection + [line];
      currentSectionSize := currentSectionSize + |line| + 1;
      if currentSectionSize > MaxSectionSize {
        JoinEachAppend(closed, currentSection, "\n");
        sections := sections + [Join(currentSection, "\n")];
        closed := closed + [currentSection];
        currentSection := [];
        currentSectionSize := 0;
      }
    }
    assert lines[..|lines|] == lines;
    if currentSection != [] {
      JoinEachAppend(closed, currentSection, "\n");
      sections := sections + [Join(currentSection, "\n")];
    }
    SectionsReadBack(report);
  }

  // Invariants of the splitter, one per property.

  /** The lines fed so far are the closed sections and the current one, in
      order. */
  lemma {:induction false} FeedAllCovers(lines: seq<string>)
    ensures Flatten(FeedAll(lines).closed) + FeedAll(lines).current == lines
  {
    if lines != [] {
      var init := lines[..|lines| - 1];
      FeedAllCovers(init);
      FeedCovers(FeedAll(init), lines[|lines| - 1]);
      assert init + [lines[|lines| - 1]] == lines;
    }
  }

  lemma FeedCovers(st: Splitter, line: string)
    ensures Flatten(Feed(st, line).closed) + Feed(st, line).current == Flatten(st.closed) + st.current + [line]
  {
    if OpensSection(line) && st.size > 0 {
      FlattenAppend(st.closed, st.current);
      assert [] + [line] == [line];
      if |line| + 1 > MaxSectionSize {
        FlattenAppend(st.closed + [st.current], [line]);
        assert Feed(st, line) == Splitter(st.closed + [st.current] + [[line]], [], 0);
      } else {
        assert Feed(st, line) == Splitter(st.closed + [st.current], [line], |line| + 1);
      }
    } else if st.size + |line| + 1 > MaxSectionSize {
      FlattenAppend(st.closed, st.current + [line]);
    }
  }

  /** The counted size is the size of the current lines, never above the
      maximum between lines. */
  ghost predicate Counted(st: Splitter) {
    st.size == Size(st.current) && st.size <= MaxSectionSize
  }

  lemma SizeAppend(lines: seq<string>, line: string)
    ensures Size(lines + [line]) == Size(lines) + |line| + 1
  {
    assert (lines + [line])[..|lines|] == lines;
  }

  lemma SizeZero(lines: seq<string>)
    ensures Size(lines) == 0 <==> lines == []
  {
  }

  /** Every closed section has lines, and without its last line it stays
      within the maximum. */
  ghost predicate ClosedBounded(closed: seq<seq<string>>) {
    forall i | 0 <= i < |closed| :: closed[i] != [] && Size(closed[i][..|closed[i]| - 1]) <= MaxSectionSize
  }

  lemma FeedBounded(st: Splitter, line: string)
    requires Counted(st) && ClosedBounded(st.closed)
    ensures Counted(Feed(st, line)) && ClosedBounded(Feed(st, line).closed)
  {
    SizeZero(st.current);
    if OpensSection(line) && st.size > 0 {
      var c := st.current;
      assert c[..|c| - 1] + [c[|c| - 1]] == c;
      SizeAppend(c[..|c| - 1], c[|c| - 1]);
      SizeAppend([], line);
      assert [line][..0] == [];
    } else {
      SizeAppend(st.current, line);
      assert (st.current + [line])[..|st.current|] == st.current;
    }
  }

  lemma {:induction false} FeedAllBounded(lines: seq<string>)
    ensures Counted(FeedAll(lines)) && ClosedBounded(FeedAll(lines).closed)
  {
    if lines != [] {
      FeedAllBounded(lines[..|lines| - 1]);
      FeedBounded(FeedAll(lines[..|lines| - 1]), lines[|lines| - 1]);
    }
  }

  /** A main header is only ever the first line of a section. */
  ghost predicate HeadersFirst(st: Splitter) {
    && (forall i, j | 0 <= i < |st.closed| && 0 < j < |st.closed[i]| :: !OpensSection(st.closed[i][j]))
    && (forall j | 0 < j < |st.current| :: !OpensSection(st.current[j]))
  }

  lemma FeedHeadersFirst(st: Splitter, line: string)
    requires Counted(st) && HeadersFirst(st)
    ensures HeadersFirst(Feed(st, line))
  {
    SizeZero(st.current);
  }

  lemma {:induction false} FeedAllHeadersFirst(lines: seq<string>)
    ensures HeadersFirst(FeedAll(lines))
  {
    if lines != [] {
      var init := lines[..|lines| - 1];
      FeedAllHeadersFirst(init);
      FeedAllBounded(init);
      FeedHeadersFirst(FeedAll(init), lines[|lines| - 1]);
    }
  }

  predicate StartsSection(lines: seq<string>) {
    lines != [] && OpensSection(lines[0])
  }

  /** A section ends early only at a main header: every closed section
      either passed the maximum or is followed by a section that starts
      with a main header. */
  ghost predicate ClosedForCause(closed: seq<seq<string>>, current: seq<string>) {
    && (forall i | 0 <= i < |closed| - 1 :: Size(closed[i]) > MaxSectionSize || StartsSection(closed[i + 1]))
    && (closed != [] ==> Size(closed[|closed| - 1]) > MaxSectionSize || StartsSection(current))
  }

  lemma CloseForCause(closed: seq<seq<string>>, current: seq<string>, next: seq<string>)
    requires ClosedForCause(closed, current)
    requires Size(current) > MaxSectionSize || StartsSection(next)
    ensures ClosedForCause(closed + [current], next)
  {
  }

  lemma GrowForCause(closed: seq<seq<string>>, current: seq<string>, line: string)
    requires ClosedForCause(closed, current)
    ensures ClosedForCause(closed, current + [line])
  {
    assert StartsSection(current) ==> StartsSection(current + [line]);
  }

  lemma FeedForCause(st: Splitter, line: string)
    requires Counted(st) && ClosedForCause(st.closed, st.current)
    ensures ClosedForCause(Feed(st, line).closed, Feed(st, line).current)
  {
    SizeZero(st.current);
    if OpensSection(line) && st.size > 0 {
      assert StartsSection([line]);
      CloseForCause(st.closed, st.current, [line]);
      if |line| + 1 > MaxSectionSize {
        SizeAppend([], line);
        assert [] + [line] == [line];
        CloseForCause(st.closed + [st.current], [line], []);
      }
    } else {
      GrowForCause(st.closed, st.current, line);
      if st.size + |line| + 1 > MaxSectionSize {
        SizeAppend(st.current, line);
        CloseForCause(st.closed, st.current + [line], []);
      }
    }
  }

  lemma {:induction false} FeedAllForCause(lines: seq<string>)
    ensures ClosedForCause(FeedAll(lines).closed, FeedAll(lines).current)
  {
    if lines != [] {
      var init := lines[..|lines| - 1];
      FeedAllForCause(init);
      FeedAllBounded(init);
      FeedForCause(FeedAll(init), lines[|lines| - 1]);
    }
  }

  // Properties of the sections.

  /** The sections hold every line once, in order, and none is empty. */
  lemma ChunksCover(lines: seq<string>)
    ensures Flatten(Chunks(lines)) == lines
    ensures forall i | 0 <= i < |Chunks(lines)| :: Chunks(lines)[i] != []
  {
    var st := FeedAll(lines);
    FeedAllCovers(lines);
    FeedAllBounded(lines);
    if st.current != [] {
      FlattenAppend(st.closed, st.current);
    } else {
      assert st.closed + [] == st.closed;
    }
  }

  /** A report always gives at least one section. */
  lemma ChunksExist(lines: seq<string>)
    requires lines != []
    ensures Chunks(lines) != []
  {
    ChunksCover(lines);
  }

  /** Without its last line, no section is over the maximum size. */
  lemma ChunksBounded(lines: seq<string>)
    ensures forall i | 0 <= i < |Chunks(lines)| :: Chunks(lines)[i] != [] && Size(Chunks(lines)[i][..|Chunks(lines)[i]| - 1]) <= MaxSectionSize
  {
    var st := FeedAll(lines);
    var chunks := Chunks(lines);
    FeedAllBounded(lines);
    forall i | 0 <= i < |chunks|
      ensures chunks[i] != [] && Size(chunks[i][..|chunks[i]| - 1]) <= MaxSectionSize
    {
      if i < |st.closed| {
        assert chunks[i] == st.closed[i];
      } else {
        assert chunks[i] == st.current;
      }
    }
  }

  /** A main header always opens its section: it is never a later line of
      one. */
  lemma HeaderOpensSection(lines: seq<string>, i: nat, j: nat)
    requires i < |Chunks(lines)| && 0 < j < |Chunks(lines)[i]|
    ensures !OpensSection(Chunks(lines)[i][j])
  {
    FeedAllHeadersFirst(lines);
  }

  /** Every section but the last either passed the maximum size or is
      followed by one that starts with a main header. */
  lemma ChunksClosedForCause(lines: seq<string>, i: nat)
    requires i + 1 < |Chunks(lines)|
    ensures Size(Chunks(lines)[i]) > MaxSectionSize || StartsSection(Chunks(lines)[i + 1])
  {
    var st := FeedAll(lines);
    FeedAllForCause(lines);
    if i + 1 < |st.closed| {
      assert Chunks(lines)[i + 1] == st.closed[i + 1];
    } else {
      assert Chunks(lines)[i + 1] == st.current;
    }
  }

  /** Joining the sections with newlines gives the report back. */
  lemma SectionsReadBack(report: string)
    ensures |Sections(report)| >= 1
    ensures Join(Sections(report), "\n") == report
  {
    var lines := Split(report, '\n');
    ChunksCover(lines);
    ChunksExist(lines);
    JoinFlatten(Chunks(lines), "\n");
    JoinSplit(report, '\n');
  }
}
