/** The JSON-to-Nix serialiser of the drive-info tool
    (packages/remote-drive-info/remote-drive-info.py, `json_to_nix`). */
module Nix {
  import opened Wrappers
  import opened Text

  /** The values the serialiser meets: objects keep their insertion order;
      numbers are integers. */
  datatype Json =
    | Null
    | Bool(b: bool)
    | Num(n: int)
    | Str(s: string)
    | List(items: seq<Json>)
    | Obj(entries: seq<(string, Json)>)

  /** A value rendered without brackets. */
  predicate IsScalar(v: Json) {
    !v.List? && !v.Obj?
  }

  function Spaces(n: nat): (s: string)
    ensures |s| == n
  {
    seq(n, _ => ' ')
  }

  // ---------------------------------------------------------------------
  // String escaping
  // ---------------------------------------------------------------------

  /** `replace('"', '\\"')` followed by `replace("\n", "\\n")`, one character
      at a time (the first replacement adds no newline, so the two passes
      act on disjoint characters). */
  function EscapeChar(c: char): string {
    if c == '"' then "\\\"" else if c == '\n' then "\\n" else [c]
  }

  /** The escaping as written: a backslash is copied unchanged. */
  function Escape(s: string): (r: string)
    ensures '\n' !in r
  {
    if s == [] then [] else EscapeChar(s[0]) + Escape(s[1..])
  }

  /** Escaping for a Nix string literal: backslash, double quote and dollar
      sign are preceded by a backslash and a newline becomes `\n`. */
  function EscapeNixChar(c: char): string {
    if c == '\\' || c == '"' || c == '$' then ['\\', c]
    else if c == '\n' then "\\n"
    else [c]
  }

  function EscapeNix(s: string): (r: string)
    ensures '\n' !in r
  {
    if s == [] then [] else EscapeNixChar(s[0]) + EscapeNix(s[1..])
  }

  /** How Nix reads the text between the quotes of a string literal: a
      backslash makes the next character literal (`\n`, `\r` and `\t`
      stand for control characters), `${` opens an interpolation and an
      unescaped `"` ends the literal; both of the latter, and a trailing
      lone backslash, are `None`. This reader is stricter than Nix in one
      place: Nix reads `$${` as the literal text `$${`, while here the `${`
      inside it is still `None`. The read-back lemmas never meet `$${`: the
      corrected escaping writes every `$` as `\$`, and the lemma about the
      escaping as written excludes text holding `${`. */
  function NixRead(s: string): Option<string> {
    if s == [] then Some([])
    else if s[0] == '\\' then
      if |s| == 1 then None
      else
        var c := s[1];
        var d := if c == 'n' then '\n' else if c == 'r' then '\r' else if c == 't' then '\t' else c;
        match NixRead(s[2..])
        case None => None
        case Some(rest) => Some([d] + rest)
    else if s[0] == '"' || (s[0] == '$' && |s| > 1 && s[1] == '{') then None
    else
      match NixRead(s[1..])
      case None => None
      case Some(rest) => Some([s[0]] + rest)
  }

  /** The corrected escaping reads back as the original text. */
  lemma {:induction false} NixReadsEscapeNix(s: string)
    ensures NixRead(EscapeNix(s)) == Some(s)
  {
    if s != [] {
      NixReadsEscapeNix(s[1..]);
      var e := EscapeNix(s);
      var c := s[0];
      assert e == EscapeNixChar(c) + EscapeNix(s[1..]);
      if c == '\\' || c == '"' || c == '$' || c == '\n' {
        assert e[2..] == EscapeNix(s[1..]);
      } else {
        assert e[1..] == EscapeNix(s[1..]);
        assert e[0] == c;
        if c == '$' && |e| > 1 {
          assert false;
        }
      }
      assert s == [c] + s[1..];
    }
  }

  /** Text without backslashes and without `${` reads back as itself under
      the escaping as written. */
  lemma {:induction false} NixReadsEscape(s: string)
    requires '\\' !in s
    requires forall i | 0 <= i < |s| - 1 :: !(s[i] == '$' && s[i + 1] == '{')
    ensures NixRead(Escape(s)) == Some(s)
  {
    if s != [] {
      forall k | 0 <= k < |s[1..]| ensures s[1..][k] != '\\' {
        assert s[1..][k] == s[k + 1];
      }
      forall i | 0 <= i < |s[1..]| - 1
        ensures !(s[1..][i] == '$' && s[1..][i + 1] == '{')
      {
        assert s[1..][i] == s[i + 1] && s[1..][i + 1] == s[i + 2];
      }
      NixReadsEscape(s[1..]);
      var e := Escape(s);
      var c := s[0];
      assert c != '\\' by {
        assert s[0] in s;
      }
      assert e == EscapeChar(c) + Escape(s[1..]);
      if c == '"' || c == '\n' {
        assert e[2..] == Escape(s[1..]);
      } else {
        assert e[1..] == Escape(s[1..]);
        if c == '$' && |s| > 1 {
          assert s[1] != '{';
          if s[1] == '"' {
            assert e[1] == '\\';
          } else if s[1] == '\n' {
            assert e[1] == '\\';
          } else {
            assert e[1] == s[1];
          }
        }
      }
      assert s == [c] + s[1..];
    }
  }

  /** The escaping as written turns the two characters backslash, `n` into
      a newline once Nix reads them back. */
  lemma EscapeLosesBackslash()
    ensures Escape("\\n") == "\\n"
    ensures NixRead(Escape("\\n")) == Some("\n")
    ensures "\\n" != "\n"
  {
    assert "n"[1..] == [];
    assert Escape("n") == "n";
    assert "\\n"[1..] == "n";
    assert Escape("\\n") == EscapeChar('\\') + Escape("n");
    var t := "\\n";
    assert t[0] == '\\' && |t| == 2 && t[1] == 'n';
    assert t[2..] == [] && NixRead(t[2..]) == Some([]);
    assert ['\n'] + [] == ['\n'];
  }

  /** Which of the two escapings the serialiser applies. */
  datatype Escaping = AsWritten | Corrected

  function EscapeWith(e: Escaping, s: string): (r: string)
    ensures '\n' !in r
  {
    if e.AsWritten? then Escape(s) else EscapeNix(s)
  }

  // ---------------------------------------------------------------------
  // The serialiser
  // ---------------------------------------------------------------------

  /** `json_to_nix(obj, 2, level)`: objects become attribute sets, one
      `key = value;` per line indented by two spaces per level, lists one
      element per line, strings quoted, `True`/`False`/`None` the Nix
      literals, numbers their decimal text. */
  function ToNix(obj: Json, level: nat, e: Escaping): (r: string)
    ensures r != []
    ensures obj.Obj? ==> r[0] == '{' && r[|r| - 1] == '}'
    ensures obj.List? ==> r[0] == '[' && r[|r| - 1] == ']'
    ensures obj.Str? ==> r[0] == '"' && r[|r| - 1] == '"'
    ensures IsScalar(obj) ==> '\n' !in r
    decreases obj
  {
    var indent := Spaces(2 * level);
    var prevIndent := Spaces(if level == 0 then 0 else 2 * (level - 1));
    match obj
    case Obj(entries) =>
      if entries == [] then "{ }"
      else "{\n" + Join(EntryLines(entries, level, e), "\n") + "\n" + prevIndent + "}"
    case List(items) =>
      if items == [] then "[ ]"
      else "[\n" + Join(ItemLines(items, level, e), "\n") + "\n" + prevIndent + "]"
    case Str(s) => "\"" + EscapeWith(e, s) + "\""
    case Bool(b) => if b then "true" else "false"
    case Null => "null"
    case Num(n) => NumText(n)
  }

  /** `str(n)` for an integer. */
  function NumText(n: int): (r: string)
    ensures r != [] && '\n' !in r
  {
    IntToStringNoSpace(n);
    IntToString(n)
  }

  /** The entry lines of a non-empty object, in insertion order. */
  function EntryLines(entries: seq<(string, Json)>, level: nat, e: Escaping): (lines: seq<string>)
    ensures |lines| == |entries|
    decreases Obj(entries), 0
  {
    seq(|entries|, i requires 0 <= i < |entries| =>
          Spaces(2 * level) + entries[i].0 + " = " + ToNix(entries[i].1, level + 1, e) + ";")
  }

  /** The element lines of a non-empty list, in order. */
  function ItemLines(items: seq<Json>, level: nat, e: Escaping): (lines: seq<string>)
    ensures |lines| == |items|
    decreases List(items), 0
  {
    seq(|items|, i requires 0 <= i < |items| => Spaces(2 * level) + ToNix(items[i], level + 1, e))
  }

  /** The document printed with `--nix`. */
  function NixDocument(config: Json, e: Escaping): string {
    "{\n  disko.devices = " + ToNix(config, 1, e) + ";\n}"
  }

  // ---------------------------------------------------------------------
  // Line structure
  // ---------------------------------------------------------------------

  /** Indentation holds no newline. */
  lemma SpacesNoNewline(n: nat)
    ensures '\n' !in Spaces(n)
  {
    forall k | 0 <= k < n ensures Spaces(n)[k] != '\n' {
    }
  }

  /** A block of lines framed by an opening and a closing line splits back
      into those lines. */
  lemma FramedLines(open: string, body: seq<string>, close: string)
    requires body != []
    requires '\n' !in open && '\n' !in close
    requires forall i | 0 <= i < |body| :: '\n' !in body[i]
    ensures Split(open + "\n" + Join(body, "\n") + "\n" + close, '\n') == [open] + body + [close]
  {
    var parts := [open] + body + [close];
    JoinFrame(open, body, close);
    forall i | 0 <= i < |parts| ensures '\n' !in parts[i] {
      if 0 < i < |parts| - 1 {
        assert parts[i] == body[i - 1];
      }
    }
    SplitJoin(parts, '\n');
  }

  /** The frame `ToNix` puts around the lines of a non-empty object or
      list: an opening bracket on its own line, the lines, and the closing
      bracket after the outer indentation. */
  lemma Framed(open: char, body: seq<string>, prev: string, close: char)
    requires body != [] && open != '\n' && close != '\n' && '\n' !in prev
    requires forall i | 0 <= i < |body| :: '\n' !in body[i]
    ensures Split([open, '\n'] + Join(body, "\n") + "\n" + prev + [close], '\n') == [[open]] + body + [prev + [close]]
  {
    var j := Join(body, "\n");
    var x := [open, '\n'] + j + "\n" + prev + [close];
    var y := [open] + "\n" + j + "\n" + (prev + [close]);
    assert |x| == |y|;
    forall k | 0 <= k < |x| ensures x[k] == y[k] {
    }
    assert x == y;
    FramedLines([open], body, prev + [close]);
  }

  lemma JoinFrame(open: string, body: seq<string>, close: string)
    requires body != []
    ensures Join([open] + body + [close], "\n") == open + "\n" + Join(body, "\n") + "\n" + close
  {
    JoinAppend([open], body + [close], "\n");
    JoinAppend(body, [close], "\n");
    assert [open] + body + [close] == [open] + (body + [close]);
  }

  /** An object whose keys hold no newline and whose values are scalars
      renders as an opening brace line, then exactly one `key = value;`
      line per entry in insertion order, then the closing brace line. */
  lemma ObjectLines(entries: seq<(string, Json)>, level: nat, e: Escaping)
    requires entries != []
    requires forall i | 0 <= i < |entries| :: '\n' !in entries[i].0 && IsScalar(entries[i].1)
    ensures Split(ToNix(Obj(entries), level, e), '\n')
            == ["{"] + EntryLines(entries, level, e) + [Spaces(if level == 0 then 0 else 2 * (level - 1)) + "}"]
  {
    var body := EntryLines(entries, level, e);
    SpacesNoNewline(if level == 0 then 0 else 2 * (level - 1));
    forall i | 0 <= i < |body| ensures '\n' !in body[i] {
      EntryNoNewline(entries, level, e, i);
    }
    Framed('{', body, Spaces(if level == 0 then 0 else 2 * (level - 1)), '}');
  }

  lemma EntryNoNewline(entries: seq<(string, Json)>, level: nat, e: Escaping, i: nat)
    requires i < |entries| && '\n' !in entries[i].0 && IsScalar(entries[i].1)
    ensures '\n' !in EntryLines(entries, level, e)[i]
  {
    SpacesNoNewline(2 * level);
    var v := ToNix(entries[i].1, level + 1, e);
    assert EntryLines(entries, level, e)[i] == Spaces(2 * level) + entries[i].0 + " = " + v + ";";
  }

  /** A list of scalars renders as an opening bracket line, one line per
      element in order, then the closing bracket line. */
  lemma ListLines(items: seq<Json>, level: nat, e: Escaping)
    requires items != []
    requires forall i | 0 <= i < |items| :: IsScalar(items[i])
    ensures Split(ToNix(List(items), level, e), '\n')
            == ["["] + ItemLines(items, level, e) + [Spaces(if level == 0 then 0 else 2 * (level - 1)) + "]"]
  {
    var body := ItemLines(items, level, e);
    SpacesNoNewline(2 * level);
    SpacesNoNewline(if level == 0 then 0 else 2 * (level - 1));
    forall i | 0 <= i < |body| ensures '\n' !in body[i] {
      var v := ToNix(items[i], level + 1, e);
      assert body[i] == Spaces(2 * level) + v;
    }
    Framed('[', body, Spaces(if level == 0 then 0 else 2 * (level - 1)), ']');
  }

  /** A string renders as a quoted literal that Nix reads back as the same
      text, with the corrected escaping for every text and with the
      escaping as written for text without backslashes or `${`. */
  lemma StringReadsBack(s: string, level: nat)
    ensures var r := ToNix(Str(s), level, Corrected);
            NixRead(r[1..|r| - 1]) == Some(s)
    ensures '\\' !in s && (forall i | 0 <= i < |s| - 1 :: !(s[i] == '$' && s[i + 1] == '{')) ==>
              var r := ToNix(Str(s), level, AsWritten);
              NixRead(r[1..|r| - 1]) == Some(s)
  {
    var r := ToNix(Str(s), level, Corrected);
    assert r[1..|r| - 1] == EscapeNix(s);
    NixReadsEscapeNix(s);
    if '\\' !in s && (forall i | 0 <= i < |s| - 1 :: !(s[i] == '$' && s[i + 1] == '{')) {
      var w := ToNix(Str(s), level, AsWritten);
      assert w[1..|w| - 1] == Escape(s);
      NixReadsEscape(s);
    }
  }
}
