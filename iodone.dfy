/** The `io_done` counter file of a bcachefs member device, as both
    packages/bcachefs-io-metrics and packages/bcachefs-doctor read it: a
    "read:" and a "write:" section, each followed by "counter : value" lines. */
module IoDone {
  import opened Wrappers
  import opened Text

  datatype Section = Read | Write

  /** The parsed file: one dictionary of counters per section. Both are
      always present, empty when the file names no counter for them. */
  datatype Counters = Counters(read: map<string, int>, write: map<string, int>) {
    function Of(s: Section): map<string, int> {
      if s == Read then read else write
    }

    function With(s: Section, m: map<string, int>): (c: Counters)
      ensures c.Of(s) == m
      ensures forall t: Section | t != s :: c.Of(t) == Of(t)
    {
      if s == Read then Counters(m, write) else Counters(read, m)
    }
  }

  const NoCounters := Counters(map[], map[])

  /** A stripped line opens a section when it reads "read:" or "write:" in
      any letter case. */
  function HeaderOf(line: string): Option<Section> {
    var l := Lower(line);
    if l == "read:" then Some(Read) else if l == "write:" then Some(Write) else None
  }

  /** `int(text)`, with 0 where Python raises `ValueError`. */
  function ValueOf(text: string): int {
    match ParseInt(text)
    case Some(v) => v
    case None => 0
  }

  /** The counter a raw line sets when it is neither blank nor a header and
      holds ':': the text before the first ':' and the value after it, both
      stripped. */
  function EntryOf(raw: string): Option<(string, int)> {
    var line := Strip(raw);
    if line == [] || HeaderOf(line).Some? || ':' !in line then None
    else
      var (key, value) := SplitFirst(line, ':');
      Some((Strip(key), ValueOf(Strip(value))))
  }

  /** What the reader knows after some lines: the section it is in (none
      before the first header) and the counters so far. */
  datatype Scan = Scan(section: Option<Section>, results: Counters)

  const Start := Scan(None, NoCounters)

  /** One line: blank lines are skipped, a header switches the section, a
      line before any header is skipped, and a counter line sets its key in
      the current section, replacing an earlier value. */
  function Step(st: Scan, raw: string): Scan {
    var line := Strip(raw);
    if line == [] then st
    else
      match HeaderOf(line)
      case Some(s) => Scan(Some(s), st.results)
      case None =>
        match st.section
        case None => st
        case Some(s) =>
          match EntryOf(raw)
          case None => st
          case Some(e) => Scan(st.section, st.results.With(s, st.results.Of(s)[e.0 := e.1]))
  }

  /** The lines read in order, starting from `st`. */
  function Run(st: Scan, lines: seq<string>): Scan {
    if lines == [] then st else Step(Run(st, lines[..|lines| - 1]), lines[|lines| - 1])
  }

  function Parse(lines: seq<string>): Counters {
    Run(Start, lines).results
  }

  /** `parse_io_done`, over the lines of the file. */
  method ParseIoDone(lines: seq<string>) returns (results: Counters)
    ensures results == Parse(lines)
  {
    results := NoCounters;
    var currentSection: Option<Section> := None;
    for i := 0 to |lines|
      invariant Scan(currentSection, results) == Run(Start, lines[..i])
    {
      RunStep(lines, i);
      currentSection, results := ReadLine(currentSection, results, lines[i]);
    }
    assert lines[..|lines|] == lines;
  }

  /** The body of the loop of `parse_io_done`, for one line. */
  method ReadLine(currentSection: Option<Section>, results: Counters, raw: string)
    returns (section: Option<Section>, updated: Counters)
    ensures Scan(section, updated) == Step(Scan(currentSection, results), raw)
  {
    section, updated := currentSection, results;
    var line := Strip(raw);
    if line == [] {
      return;
    }
    var header := HeaderOf(line);
    if header.Some? {
      section := header;
      return;
    }
    if currentSection.None? {
      return;
    }
    if ':' in line {
      var (keyPart, valuePart) := SplitFirst(line, ':');
      var key := Strip(keyPart);
      var value := ValueOf(Strip(valuePart));
      var s := currentSection.value;
      updated := results.With(s, results.Of(s)[key := value]);
    }
  }

  /** One more line read. */
  lemma RunStep(lines: seq<string>, i: nat)
    requires i < |lines|
    ensures Run(Start, lines[..i + 1]) == Step(Run(Start, lines[..i]), lines[i])
  {
    assert lines[..i + 1][..i] == lines[..i];
  }

  // ---------------------------------------------------------------------
  // Properties
  // ---------------------------------------------------------------------

  /** Reading two blocks of lines is reading the first, then the second
      from where the first left off. */
  lemma {:induction false} RunAppend(st: Scan, a: seq<string>, b: seq<string>)
    ensures Run(st, a + b) == Run(Run(st, a), b)
  {
    if b == [] {
      assert a + b == a;
    } else {
      var ab := a + b;
      var init := b[..|b| - 1];
      RunAppend(st, a, init);
      assert ab[..|ab| - 1] == a + init && ab[|ab| - 1] == b[|b| - 1];
      assert Run(st, ab) == Step(Run(st, a + init), b[|b| - 1]);
    }
  }

  /** Lines with no section header leave the reader where it started. */
  lemma {:induction false} PreambleStays(a: seq<string>)
    requires forall i | 0 <= i < |a| :: HeaderOf(Strip(a[i])).None?
    ensures Run(Start, a) == Start
  {
    if a != [] {
      PreambleStays(a[..|a| - 1]);
    }
  }

  /** Everything before the first header is ignored. */
  lemma PreambleIgnored(a: seq<string>, b: seq<string>)
    requires forall i | 0 <= i < |a| :: HeaderOf(Strip(a[i])).None?
    ensures Parse(a + b) == Parse(b)
  {
    RunAppend(Start, a, b);
    PreambleStays(a);
  }

  /** A blank line changes nothing. */
  lemma BlankIgnored(a: seq<string>, blank: string, b: seq<string>)
    requires Strip(blank) == []
    ensures Parse(a + [blank] + b) == Parse(a + b)
  {
    RunAppend(Start, a + [blank], b);
    RunAppend(Start, a, [blank]);
    RunAppend(Start, a, b);
    assert Run(Run(Start, a), [blank]) == Step(Run(Run(Start, a), []), blank);
  }

  /** A header switches the section, whatever its letter case. */
  lemma HeaderSwitches(a: seq<string>, header: string, s: Section)
    requires Lower(Strip(header)) == (if s == Read then "read:" else "write:")
    ensures Run(Start, a + [header]).section == Some(s)
    ensures Run(Start, a + [header]).results == Run(Start, a).results
  {
    assert (a + [header])[..|a|] == a;
    assert "read:" != "write:";
  }

  /** A line that does not name counter `k` keeps what each section holds
      for it. */
  lemma StepKeeps(st: Scan, raw: string, k: string, t: Section)
    requires EntryOf(raw).None? || EntryOf(raw).value.0 != k
    ensures k in Step(st, raw).results.Of(t) <==> k in st.results.Of(t)
    ensures k in st.results.Of(t) ==> Step(st, raw).results.Of(t)[k] == st.results.Of(t)[k]
  {
  }

  /** Lines that never name counter `k` keep whatever each section holds
      for it. */
  lemma {:induction false} OtherLinesKeep(st: Scan, b: seq<string>, k: string, t: Section)
    requires forall j | 0 <= j < |b| :: EntryOf(b[j]).None? || EntryOf(b[j]).value.0 != k
    ensures k in Run(st, b).results.Of(t) <==> k in st.results.Of(t)
    ensures k in st.results.Of(t) ==> Run(st, b).results.Of(t)[k] == st.results.Of(t)[k]
  {
    if b != [] {
      var init := b[..|b| - 1];
      OtherLinesKeep(st, init, k, t);
      StepKeeps(Run(st, init), b[|b| - 1], k, t);
    }
  }

  /** A counter line read inside section `s` sets its counter, and the value
      survives to the end unless a later line names the same counter: the
      last line for a key wins. */
  lemma LastEntryWins(a: seq<string>, line: string, b: seq<string>, s: Section, k: string, v: int)
    requires Run(Start, a).section == Some(s)
    requires EntryOf(line) == Some((k, v))
    requires forall j | 0 <= j < |b| :: EntryOf(b[j]).None? || EntryOf(b[j]).value.0 != k
    ensures k in Parse(a + [line] + b).Of(s)
    ensures Parse(a + [line] + b).Of(s)[k] == v
  {
    RunAppend(Start, a + [line], b);
    assert (a + [line])[..|a|] == a;
    OtherLinesKeep(Run(Start, a + [line]), b, k, s);
  }

  /** A counter that a line adds was named by that line. */
  lemma StepNames(st: Scan, raw: string, s: Section, k: string)
    requires k in Step(st, raw).results.Of(s) && k !in st.results.Of(s)
    ensures EntryOf(raw) != None && EntryOf(raw).value.0 == k
  {
    var line := Strip(raw);
    if line != [] && HeaderOf(line).None? && st.section.Some? {
      var e := EntryOf(raw);
      if e.Some? && st.section.value != s {
        assert false;
      }
    }
  }

  /** Every counter in the result was named by some counter line. */
  lemma {:induction false} KeysNamed(st: Scan, lines: seq<string>, s: Section, k: string)
    requires k in Run(st, lines).results.Of(s)
    ensures k in st.results.Of(s) || exists j | 0 <= j < |lines| :: EntryOf(lines[j]) != None && EntryOf(lines[j]).value.0 == k
  {
    if lines != [] {
      var init := lines[..|lines| - 1];
      var last := lines[|lines| - 1];
      if k in Run(st, init).results.Of(s) {
        KeysNamed(st, init, s, k);
        if k !in st.results.Of(s) {
          var j :| 0 <= j < |init| && EntryOf(init[j]) != None && EntryOf(init[j]).value.0 == k;
          assert lines[j] == init[j];
        }
      } else {
        StepNames(Run(st, init), last, s, k);
      }
    }
  }
}
