/** Python string operations the scripts rely on, over `seq<char>`
    (Dafny's `char` is a Unicode scalar value, as a Python code point is). */
module Text {
  import opened Wrappers

  // ---------------------------------------------------------------------
  // Character classes
  // ---------------------------------------------------------------------

  /** The characters for which Python's `str.isspace()` holds. */
  predicate IsSpace(c: char) {
    || c == ' ' || c == '\t' || c == '\n' || c == '\r'
    || c == '\U{0B}' || c == '\U{0C}'
    || ('\U{1C}' <= c <= '\U{1F}')
    || c == '\U{85}' || c == '\U{A0}' || c == '\U{1680}'
    || ('\U{2000}' <= c <= '\U{200A}')
    || c == '\U{2028}' || c == '\U{2029}' || c == '\U{202F}' || c == '\U{205F}' || c == '\U{3000}'
  }

  /** The line boundaries of Python's `str.splitlines()`. */
  predicate IsLineBreak(c: char) {
    || c == '\n' || c == '\r' || c == '\U{0B}' || c == '\U{0C}'
    || c == '\U{1C}' || c == '\U{1D}' || c == '\U{1E}'
    || c == '\U{85}' || c == '\U{2028}' || c == '\U{2029}'
  }

  /** The ASCII decimal digits. Python's `int()` and the `\d` of `re` on a
      `str` also accept the decimal digits of other scripts; this model
      does not. */
  predicate IsDigit(c: char) {
    '0' <= c <= '9'
  }

  predicate AllDigits(s: string) {
    forall i | 0 <= i < |s| :: IsDigit(s[i])
  }

  // ---------------------------------------------------------------------
  // Prefixes, suffixes, substrings
  // ---------------------------------------------------------------------

  predicate StartsWith(s: string, prefix: string) {
    prefix <= s
  }

  predicate EndsWith(s: string, suffix: string) {
    |suffix| <= |s| && s[|s| - |suffix|..] == suffix
  }

  /** Python's `sub in s` for strings. */
  predicate Contains(s: string, sub: string) {
    exists i | 0 <= i <= |s| - |sub| :: sub <= s[i..]
  }

  // ---------------------------------------------------------------------
  // Stripping
  // ---------------------------------------------------------------------

  /** Python's `s.lstrip()`. */
  function LStrip(s: string): (r: string)
    ensures |r| <= |s|
    ensures r == [] || !IsSpace(r[0])
  {
    if s != [] && IsSpace(s[0]) then LStrip(s[1..]) else s
  }

  /** Python's `s.rstrip()`. */
  function RStrip(s: string): (r: string)
    ensures |r| <= |s|
    ensures r == [] || !IsSpace(r[|r| - 1])
  {
    if s != [] && IsSpace(s[|s| - 1]) then RStrip(s[..|s| - 1]) else s
  }

  /** `lstrip` only removes a prefix. */
  lemma {:induction false} LStripSuffix(s: string)
    ensures LStrip(s) == s[|s| - |LStrip(s)|..]
  {
    if s != [] && IsSpace(s[0]) {
      LStripSuffix(s[1..]);
    }
  }

  /** `rstrip` only removes a suffix. */
  lemma {:induction false} RStripPrefix(s: string)
    ensures RStrip(s) == s[..|RStrip(s)|]
  {
    if s != [] && IsSpace(s[|s| - 1]) {
      RStripPrefix(s[..|s| - 1]);
    }
  }

  /** Python's `s.strip()`. */
  function Strip(s: string): (r: string)
    ensures |r| <= |s|
  {
    RStrip(LStrip(s))
  }

  /** A stripped text neither starts nor ends with white space. */
  lemma StripEnds(s: string)
    ensures var r := Strip(s);
            r == [] || (!IsSpace(r[0]) && !IsSpace(r[|r| - 1]))
  {
    RStripPrefix(LStrip(s));
  }

  /** Python's `s.rstrip(chars)`. */
  function RStripChars(s: string, chars: set<char>): (r: string)
    ensures |r| <= |s| && r == s[..|r|]
    ensures r == [] || r[|r| - 1] !in chars
    ensures forall i | |r| <= i < |s| :: s[i] in chars
  {
    if s != [] && s[|s| - 1] in chars then RStripChars(s[..|s| - 1], chars) else s
  }

  // ---------------------------------------------------------------------
  // Splitting and joining
  // ---------------------------------------------------------------------

  /** Python's `s.split(sep)` for a one-character separator. */
  function Split(s: string, sep: char): (parts: seq<string>)
    ensures |parts| >= 1
    ensures forall p | p in parts :: sep !in p
    ensures sep !in s ==> parts == [s]
  {
    if s == [] then [[]]
    else
      var rest := Split(s[1..], sep);
      if s[0] == sep then [[]] + rest
      else
        assert s == [s[0]] + s[1..];
        [[s[0]] + rest[0]] + rest[1..]
  }

  /** When the separator occurs, `s.split(sep)` has at least two parts: the
      text before its first occurrence, then the parts of the rest. */
  lemma SplitFirstPart(s: string, sep: char)
    requires sep in s
    ensures |Split(s, sep)| >= 2
    ensures Split(s, sep) == [SplitFirst(s, sep).0] + Split(SplitFirst(s, sep).1, sep)
  {
    var (a, b) := SplitFirst(s, sep);
    SplitAt(a, b, sep);
  }

  /** `s.split(sep)[-1]`; with '/' it is `os.path.basename(s)`. */
  function LastPart(s: string, sep: char): (r: string)
    ensures sep !in r
  {
    var parts := Split(s, sep);
    parts[|parts| - 1]
  }

  /** Python's `sep.join(parts)`. */
  function Join(parts: seq<string>, sep: string): string {
    if parts == [] then []
    else if |parts| == 1 then parts[0]
    else parts[0] + sep + Join(parts[1..], sep)
  }

  /** Splitting at a separator and joining with it gives the text back. */
  lemma {:induction false} JoinSplit(s: string, sep: char)
    ensures Join(Split(s, sep), [sep]) == s
  {
    if s != [] {
      JoinSplit(s[1..], sep);
      JoinSplitStep(s, sep, Split(s[1..], sep));
    }
  }

  lemma JoinSplitStep(s: string, sep: char, rest: seq<string>)
    requires s != [] && rest == Split(s[1..], sep)
    requires Join(rest, [sep]) == s[1..]
    ensures Join(Split(s, sep), [sep]) == s
  {
    assert s == [s[0]] + s[1..];
    if s[0] == sep {
      assert Split(s, sep) == [[]] + rest;
      JoinCons([], rest, [sep]);
    } else {
      assert Split(s, sep) == [[s[0]] + rest[0]] + rest[1..];
      JoinExtendHead(s[0], rest, [sep]);
    }
  }

  lemma JoinCons(head: string, rest: seq<string>, sep: string)
    requires rest != []
    ensures Join([head] + rest, sep) == head + sep + Join(rest, sep)
  {
    assert ([head] + rest)[1..] == rest;
  }

  /** Putting a character in front of the first part puts it in front of
      the joined text. */
  lemma JoinExtendHead(c: char, parts: seq<string>, sep: string)
    requires parts != []
    ensures Join([[c] + parts[0]] + parts[1..], sep) == [c] + Join(parts, sep)
  {
    if |parts| > 1 {
      JoinCons([c] + parts[0], parts[1..], sep);
      JoinCons(parts[0], parts[1..], sep);
      assert parts == [parts[0]] + parts[1..];
    } else {
      assert [[c] + parts[0]] + parts[1..] == [[c] + parts[0]];
    }
  }

  /** Joining parts that hold no separator and splitting again gives the parts back. */
  lemma {:induction false} SplitJoin(parts: seq<string>, sep: char)
    requires parts != []
    requires forall i | 0 <= i < |parts| :: sep !in parts[i]
    ensures Split(Join(parts, [sep]), sep) == parts
  {
    if |parts| > 1 {
      SplitJoin(parts[1..], sep);
      SplitAt(parts[0], Join(parts[1..], [sep]), sep);
      assert parts == [parts[0]] + parts[1..];
    }
  }

  /** Splitting at the first separator. */
  lemma {:induction false} SplitAt(a: string, b: string, sep: char)
    requires sep !in a
    ensures Split(a + [sep] + b, sep) == [a] + Split(b, sep)
  {
    if a == [] {
      assert ([sep] + b)[1..] == b;
    } else {
      SplitAt(a[1..], b, sep);
      assert (a + [sep] + b)[1..] == a[1..] + [sep] + b;
      assert [a[0]] + a[1..] == a;
    }
  }

  /** Joining groups of lines and then joining the groups with the same
      separator is joining all lines at once. */
  lemma {:induction false} JoinFlatten(groups: seq<seq<string>>, sep: string)
    requires forall i | 0 <= i < |groups| :: groups[i] != []
    ensures Join(JoinEach(groups, sep), sep) == Join(Flatten(groups), sep)
  {
    if |groups| == 1 {
      assert Flatten(groups) == groups[0] + Flatten(groups[1..]);
      assert Flatten(groups[1..]) == [];
      assert Flatten(groups) == groups[0];
    } else if |groups| > 1 {
      JoinFlatten(groups[1..], sep);
      FlattenNonEmpty(groups[1..]);
      JoinAppend(groups[0], Flatten(groups[1..]), sep);
      assert JoinEach(groups, sep)[1..] == JoinEach(groups[1..], sep);
    }
  }

  function JoinEach(groups: seq<seq<string>>, sep: string): (r: seq<string>)
    ensures |r| == |groups|
    ensures forall i | 0 <= i < |groups| :: r[i] == Join(groups[i], sep)
  {
    if groups == [] then [] else [Join(groups[0], sep)] + JoinEach(groups[1..], sep)
  }

  function Flatten<T>(groups: seq<seq<T>>): seq<T> {
    if groups == [] then [] else groups[0] + Flatten(groups[1..])
  }

  /** Adding one more group at the end. */
  lemma {:induction false} FlattenAppend<T>(groups: seq<seq<T>>, g: seq<T>)
    ensures Flatten(groups + [g]) == Flatten(groups) + g
  {
    if groups == [] {
      assert [g][1..] == [];
    } else {
      assert (groups + [g])[1..] == groups[1..] + [g];
      FlattenAppend(groups[1..], g);
    }
  }

  lemma JoinEachAppend(groups: seq<seq<string>>, g: seq<string>, sep: string)
    ensures JoinEach(groups + [g], sep) == JoinEach(groups, sep) + [Join(g, sep)]
  {
  }

  lemma {:induction false} FlattenNonEmpty<T>(groups: seq<seq<T>>)
    requires groups != [] && forall i | 0 <= i < |groups| :: groups[i] != []
    ensures Flatten(groups) != []
  {
  }

  lemma {:induction false} JoinAppend(a: seq<string>, b: seq<string>, sep: string)
    requires a != [] && b != []
    ensures Join(a + b, sep) == Join(a, sep) + sep + Join(b, sep)
  {
    if |a| > 1 {
      assert (a + b)[1..] == a[1..] + b;
      JoinAppend(a[1..], b, sep);
    }
  }

  /** Python's `s.split(sep, 1)` when `sep in s`: the text before the first
      separator and the text after it. */
  function SplitFirst(s: string, sep: char): (r: (string, string))
    requires sep in s
    ensures s == r.0 + [sep] + r.1
    ensures sep !in r.0
  {
    if s[0] == sep then ([], s[1..])
    else
      var (a, b) := SplitFirst(s[1..], sep);
      ([s[0]] + a, b)
  }

  /** The number of leading characters of `s` that are not white space. */
  function WordLen(s: string): (n: nat)
    ensures n <= |s|
    ensures forall i | 0 <= i < n :: !IsSpace(s[i])
    ensures n == |s| || IsSpace(s[n])
  {
    if s == [] || IsSpace(s[0]) then 0 else 1 + WordLen(s[1..])
  }

  /** Python's `s.split()` (no argument): the maximal runs of non-space
      characters, in order. */
  function SplitWs(s: string): (words: seq<string>)
    ensures forall w | w in words :: w != [] && forall c | c in w :: !IsSpace(c)
    ensures (forall i | 0 <= i < |s| :: IsSpace(s[i])) ==> words == []
    decreases |s|
  {
    var t := LStrip(s);
    LStripSuffix(s);
    if t == [] then []
    else
      var n := WordLen(t);
      [t[..n]] + SplitWs(t[n..])
  }

  /** A word followed by white space is the first field of `split()`. */
  lemma SplitWsCons(w: string, c: char, rest: string)
    requires w != [] && (forall i | 0 <= i < |w| :: !IsSpace(w[i])) && IsSpace(c)
    ensures SplitWs(w + [c] + rest) == [w] + SplitWs(rest)
  {
    var s := w + [c] + rest;
    assert LStrip(s) == s;
    WordLenOf(w, [c] + rest);
    assert s == w + ([c] + rest);
    assert s[|w|..] == [c] + rest;
    assert s[..|w|] == w;
    assert LStrip([c] + rest) == LStrip(rest) by {
      assert ([c] + rest)[1..] == rest;
    }
  }

  lemma {:induction false} WordLenOf(w: string, rest: string)
    requires forall i | 0 <= i < |w| :: !IsSpace(w[i])
    requires rest != [] && IsSpace(rest[0])
    ensures WordLen(w + rest) == |w|
  {
    if w == [] {
      assert w + rest == rest;
    } else {
      assert (w + rest)[1..] == w[1..] + rest;
      WordLenOf(w[1..], rest);
    }
  }

  /** `split()` reads back words joined by single spaces. */
  lemma {:induction false} SplitWsJoin(words: seq<string>)
    requires forall i | 0 <= i < |words| :: words[i] != [] && forall j | 0 <= j < |words[i]| :: !IsSpace(words[i][j])
    ensures SplitWs(Join(words, " ")) == words
  {
    if |words| == 1 {
      var w := words[0];
      assert LStrip(w) == w;
      assert WordLen(w) == |w| by {
        WordLenAll(w);
      }
      assert w[|w|..] == [] && w[..|w|] == w;
      assert SplitWs([]) == [];
      assert SplitWs(w) == [w];
      assert Join(words, " ") == w;
      assert words == [w];
    } else if |words| > 1 {
      SplitWsJoin(words[1..]);
      SplitWsCons(words[0], ' ', Join(words[1..], " "));
      assert Join(words, " ") == words[0] + [' '] + Join(words[1..], " ");
      assert words == [words[0]] + words[1..];
    }
  }

  lemma {:induction false} WordLenAll(w: string)
    requires forall i | 0 <= i < |w| :: !IsSpace(w[i])
    ensures WordLen(w) == |w|
  {
    if w != [] {
      WordLenAll(w[1..]);
    }
  }

  /** The number of leading characters of `s` before its first line break. */
  function LineLen(s: string): (n: nat)
    ensures n <= |s|
    ensures forall i | 0 <= i < n :: !IsLineBreak(s[i])
    ensures n == |s| || IsLineBreak(s[n])
  {
    if s == [] || IsLineBreak(s[0]) then 0 else 1 + LineLen(s[1..])
  }

  /** Python's `s.splitlines()`: "\r\n" is one boundary and a final line
      break does not open an empty last line. */
  function SplitLines(s: string): (lines: seq<string>)
    ensures forall l | l in lines :: forall c | c in l :: !IsLineBreak(c)
    ensures s == [] <==> lines == []
    decreases |s|
  {
    if s == [] then []
    else
      var n := LineLen(s);
      if n == |s| then [s]
      else
        var k := if s[n] == '\r' && n + 1 < |s| && s[n + 1] == '\n' then n + 2 else n + 1;
        [s[..n]] + SplitLines(s[k..])
  }

  // ---------------------------------------------------------------------
  // Case
  // ---------------------------------------------------------------------

  function LowerChar(c: char): char {
    if 'A' <= c <= 'Z' then (c as int + 32) as char else c
  }

  /** Python's `s.lower()` on ASCII letters. */
  function Lower(s: string): (r: string)
    ensures |r| == |s|
    ensures forall i | 0 <= i < |s| :: r[i] == LowerChar(s[i])
  {
    if s == [] then [] else [LowerChar(s[0])] + Lower(s[1..])
  }

  // ---------------------------------------------------------------------
  // Integers
  // ---------------------------------------------------------------------

  function DigitValue(c: char): nat
    requires IsDigit(c)
  {
    c as int - '0' as int
  }

  function DigitChar(d: nat): (c: char)
    requires d < 10
    ensures IsDigit(c) && DigitValue(c) == d
  {
    ('0' as int + d) as char
  }

  /** The value of a string of decimal digits, most significant first. */
  function DigitsValue(s: string): nat
    requires AllDigits(s)
  {
    if s == [] then 0 else DigitsValue(s[..|s| - 1]) * 10 + DigitValue(s[|s| - 1])
  }

  function Pow10(k: nat): (r: nat)
    ensures r >= 1
  {
    if k == 0 then 1 else 10 * Pow10(k - 1)
  }

  /** A string of `k` digits stands for a number below 10^k. */
  lemma {:induction false} DigitsValueBelow(s: string)
    requires AllDigits(s)
    ensures DigitsValue(s) < Pow10(|s|)
  {
    if s != [] {
      DigitsValueBelow(s[..|s| - 1]);
    }
  }

  /** Python's `str(n)` for a natural number. */
  function NatToString(n: nat): (s: string)
    ensures s != [] && AllDigits(s)
    ensures |s| > 1 ==> s[0] != '0'
    ensures n < 10 <==> |s| == 1
  {
    if n < 10 then [DigitChar(n)] else NatToString(n / 10) + [DigitChar(n % 10)]
  }

  /** Python's `str(i)` for an integer. */
  function IntToString(i: int): string {
    if i < 0 then "-" + NatToString(-i) else NatToString(i)
  }

  lemma {:induction false} NatToStringValue(n: nat)
    ensures DigitsValue(NatToString(n)) == n
  {
    if n >= 10 {
      NatToStringValue(n / 10);
      var s := NatToString(n);
      assert s[..|s| - 1] == NatToString(n / 10);
    }
  }

  /** Decimal digits with single underscores between digits, as Python's
      `int()` accepts them. */
  predicate DigitGroups(s: string) {
    && s != []
    && IsDigit(s[0]) && IsDigit(s[|s| - 1])
    && (forall i | 0 <= i < |s| :: IsDigit(s[i]) || s[i] == '_')
    && (forall i | 0 <= i < |s| - 1 :: !(s[i] == '_' && s[i + 1] == '_'))
  }

  function DropUnderscores(s: string): (r: string)
    requires forall i | 0 <= i < |s| :: IsDigit(s[i]) || s[i] == '_'
    ensures AllDigits(r)
    ensures AllDigits(s) ==> r == s
  {
    if s == [] then []
    else if s[0] == '_' then DropUnderscores(s[1..])
    else [s[0]] + DropUnderscores(s[1..])
  }

  /** Python's `int(s)` for a decimal string in ASCII digits: surrounding
      white space is ignored, one optional sign, then digits (underscores
      allowed between digits). `None` stands for the `ValueError` Python
      raises, and also for digits of other scripts, which Python accepts. */
  function ParseInt(s: string): (r: Option<int>)
    ensures Strip(s) == [] ==> r == None
  {
    ParseDecimal(Strip(s))
  }

  /** `int()` on text with no surrounding white space. */
  function ParseDecimal(t: string): (r: Option<int>)
    ensures t == [] ==> r == None
  {
    if t == [] then None
    else
      var negative := t[0] == '-';
      var body := if t[0] == '-' || t[0] == '+' then t[1..] else t;
      if !DigitGroups(body) then None
      else
        var v: int := DigitsValue(DropUnderscores(body));
        Some(if negative then -v else v)
  }

  /** `int(str(i)) == i`. */
  lemma ParseIntToString(i: int)
    ensures ParseInt(IntToString(i)) == Some(i)
  {
    var n: nat := if i < 0 then -i else i;
    NatToStringValue(n);
    IntToStringNoSpace(i);
    NoSpaceStrip(IntToString(i));
    if i < 0 {
      ParseNegative(IntToString(i), NatToString(n));
    } else {
      ParseDigits(NatToString(n));
    }
  }

  lemma ParseDigits(d: string)
    requires d != [] && AllDigits(d)
    ensures ParseDecimal(d) == Some(DigitsValue(d) as int)
  {
    DigitsAreGroups(d);
  }

  lemma ParseNegative(t: string, d: string)
    requires d != [] && AllDigits(d)
    requires t == "-" + d
    ensures ParseDecimal(t) == Some(-(DigitsValue(d) as int))
  {
    DigitsAreGroups(d);
    assert t[0] == '-' && t[1..] == d;
  }

  lemma NoSpaceStrip(t: string)
    requires forall k | 0 <= k < |t| :: !IsSpace(t[k])
    ensures Strip(t) == t
  {
    LStripSuffix(t);
    RStripPrefix(t);
  }

  lemma IntToStringNoSpace(i: int)
    ensures forall k | 0 <= k < |IntToString(i)| :: !IsSpace(IntToString(i)[k])
  {
    var s := IntToString(i);
    var d := NatToString(if i < 0 then -i else i);
    forall k | 0 <= k < |s| ensures !IsSpace(s[k]) {
      if i >= 0 {
        DigitNotSpace(d[k]);
      } else if k > 0 {
        assert s[k] == d[k - 1];
        DigitNotSpace(d[k - 1]);
      }
    }
  }

  lemma DigitNotSpace(c: char)
    requires IsDigit(c)
    ensures !IsSpace(c)
  {
  }

  lemma DigitsAreGroups(d: string)
    requires d != [] && AllDigits(d)
    ensures DigitGroups(d) && DropUnderscores(d) == d
    ensures d[0] != '-' && d[0] != '+'
  {
  }

  /** `n` written with at least `width` digits, padded with leading zeros
      (the `%02d` and `%Y` conversions of `strftime`). */
  function ZeroPad(n: nat, width: nat): (s: string)
    ensures AllDigits(s) && |s| >= width
    ensures DigitsValue(s) == n
  {
    var d := NatToString(n);
    NatToStringValue(n);
    if |d| >= width then d
    else
      var z := seq(width - |d|, _ => '0');
      LeadingZeros(z, d);
      z + d
  }

  /** A number below 10^k has at most k digits. */
  lemma {:induction false} NatToStringLength(n: nat, k: nat)
    requires 1 <= k && n < Pow10(k)
    ensures |NatToString(n)| <= k
  {
    if n >= 10 {
      NatToStringLength(n / 10, k - 1);
    }
  }

  /** Padding a number below 10^width gives exactly `width` digits. */
  lemma ZeroPadLength(n: nat, width: nat)
    requires 1 <= width && n < Pow10(width)
    ensures |ZeroPad(n, width)| == width
  {
    NatToStringLength(n, width);
  }

  lemma {:induction false} LeadingZeros(z: string, d: string)
    requires forall i | 0 <= i < |z| :: z[i] == '0'
    requires AllDigits(d)
    ensures AllDigits(z + d) && DigitsValue(z + d) == DigitsValue(d)
    decreases |d|
  {
    if d == [] {
      assert AllDigits(z);
      ZerosValue(z);
      assert z + d == z;
    } else {
      var s := z + d;
      assert s[..|s| - 1] == z + d[..|d| - 1];
      LeadingZeros(z, d[..|d| - 1]);
    }
  }

  lemma {:induction false} ZerosValue(z: string)
    requires forall i | 0 <= i < |z| :: z[i] == '0'
    ensures AllDigits(z) && DigitsValue(z) == 0
  {
    if z != [] {
      ZerosValue(z[..|z| - 1]);
    }
  }
}
