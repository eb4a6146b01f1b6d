/** The text reconstruction writes into a configuration file, and how the server reads it back
    (reconstruct in services/sandbox_poc/provenance.py). */
module ConfigFile {
  import opened Wrappers
  import opened Postgres
  import opened Provenance

  const COMMENT := "# DBGuard local POC reconstruction"

  /** str.replace for one character. */
  function Replace(text: string, c: char, into: string): (r: string) {
    if text == "" then "" else (if text[0] == c then into else [text[0]]) + Replace(text[1..], c, into)
  }

  /** Backslashes are doubled first, then quotes. */
  function Escaped(value: string): (text: string) {
    Replace(Replace(value, '\\', "\\\\"), '\'', "''")
  }

  function LineText(l: Line): (text: string) {
    l.name + " = '" + Escaped(l.value) + "'"
  }

  function LinesText(lines: seq<Line>): (text: string) {
    if lines == [] then "\n" else "\n" + LineText(lines[0]) + LinesText(lines[1..])
  }

  function FileText(lines: seq<Line>): (text: string) {
    "\n" + COMMENT + LinesText(lines)
  }

  // -------------------------------------------------------------------------
  // The server's reader
  // -------------------------------------------------------------------------

  function Unescaped(c: char): (r: char) {
    if c == 'n' then '\n' else if c == 't' then '\t' else if c == 'r' then '\r' else c
  }

  /** A quoted value: a doubled quote is a quote, a backslash takes the next character, the value ends at
      a single quote and may not span lines. Octal escapes are not read. */
  function ScanValue(text: string): (r: Option<(string, string)>)
    ensures r.Some? ==> |r.value.1| < |text|
  {
    if text == "" || text[0] == '\n' then None
    else if text[0] == '\'' then
      if |text| > 1 && text[1] == '\'' then Prepended('\'', ScanValue(text[2..])) else Some(("", text[1..]))
    else if text[0] == '\\' then
      if |text| == 1 then None else Prepended(Unescaped(text[1]), ScanValue(text[2..]))
    else Prepended(text[0], ScanValue(text[1..]))
  }

  function Prepended(c: char, r: Option<(string, string)>): (s: Option<(string, string)>)
    ensures s.Some? <==> r.Some?
    ensures s.Some? ==> s.value == ([c] + r.value.0, r.value.1)
  {
    match r
    case None => None
    case Some((value, rest)) => Some(([c] + value, rest))
  }

  /** The rest of a text from its next line end on. */
  function SkipLine(text: string): (rest: string)
    ensures |rest| <= |text|
  {
    if text == "" || text[0] == '\n' then text else SkipLine(text[1..])
  }

  /** The characters of a setting name. */
  predicate NameChar(c: char) {
    'a' <= c <= 'z' || 'A' <= c <= 'Z' || '0' <= c <= '9' || c == '_' || c == '.'
  }

  function NameLength(text: string): (n: nat)
    ensures n <= |text|
  {
    if text != "" && NameChar(text[0]) then 1 + NameLength(text[1..]) else 0
  }

  /** The settings of a file: empty lines and comments are skipped, every other line is a name, an equals
      sign and a quoted value; None for anything else. */
  function ReadFile(text: string): (lines: Option<seq<Line>>)
    decreases |text|
  {
    if text == "" then Some([])
    else if text[0] == '\n' then ReadFile(text[1..])
    else if text[0] == '#' then
      assert SkipLine(text) == SkipLine(text[1..]);
      ReadFile(SkipLine(text))
    else
      var n := NameLength(text);
      if n == 0 || |text| < n + 4 || text[n..n + 4] != " = '" then None
      else
        match ScanValue(text[n + 4..])
        case None => None
        case Some((value, rest)) =>
          if rest != "" && rest[0] != '\n' then None
          else
            match ReadFile(rest)
            case None => None
            case Some(lines) => Some([Line(text[..n], value)] + lines)
  }

  // -------------------------------------------------------------------------
  // Reading back what was written
  // -------------------------------------------------------------------------

  lemma {:induction false} EscapedFirst(value: string)
    requires value != ""
    ensures Escaped(value)
         == (if value[0] == '\\' then "\\\\" else if value[0] == '\'' then "''" else [value[0]]) + Escaped(value[1..])
  {
    var inner := Replace(value[1..], '\\', "\\\\");
    if value[0] == '\\' {
      assert Replace(value, '\\', "\\\\") == "\\\\" + inner;
      assert ("\\\\" + inner)[1..] == "\\" + inner && ("\\" + inner)[1..] == inner;
      assert Replace("\\" + inner, '\'', "''") == "\\" + Replace(inner, '\'', "''");
      assert "\\" + ("\\" + Replace(inner, '\'', "''")) == "\\\\" + Replace(inner, '\'', "''");
    } else {
      assert Replace(value, '\\', "\\\\") == [value[0]] + inner;
      assert ([value[0]] + inner)[1..] == inner;
    }
  }

  lemma {:induction false} ScanFirst(c: char, tail: string)
    requires c != '\n'
    ensures var written := if c == '\\' then "\\\\" else if c == '\'' then "''" else [c];
            ScanValue(written + tail) == Prepended(c, ScanValue(tail))
  {
    var written := if c == '\\' then "\\\\" else if c == '\'' then "''" else [c];
    assert (written + tail)[|written|..] == tail;
    assert (written + tail)[0] == c;
  }

  /** The server reads an escaped value back unchanged, whatever quotes and backslashes it holds. */
  lemma {:induction false} ValueRoundTrip(value: string, rest: string)
    requires PlainValue(value) && (rest != "" ==> rest[0] != '\'')
    ensures ScanValue(Escaped(value) + "'" + rest) == Some((value, rest))
  {
    if value == "" {
      ScanEnd(rest);
      assert Escaped(value) + "'" + rest == "'" + rest;
    } else {
      var written := if value[0] == '\\' then "\\\\" else if value[0] == '\'' then "''" else [value[0]];
      EscapedFirst(value);
      assert value[0] in value;
      ValueRoundTrip(value[1..], rest);
      ScanFirst(value[0], Escaped(value[1..]) + "'" + rest);
      Regrouped(written, Escaped(value[1..]), "'" + rest);
      Regrouped(Escaped(value), "'", rest);
      Regrouped(Escaped(value[1..]), "'", rest);
      assert value == [value[0]] + value[1..];
    }
  }

  lemma {:induction false} Regrouped(a: string, b: string, c: string)
    ensures a + b + c == a + (b + c)
  {
  }

  lemma {:induction false} ScanEnd(rest: string)
    requires rest != "" ==> rest[0] != '\''
    ensures ScanValue("'" + rest) == Some(("", rest))
  {
    assert ("'" + rest)[1..] == rest;
  }

  predicate ValidName(name: string) {
    name != "" && forall c | c in name :: NameChar(c)
  }

  lemma {:induction false} NameRead(name: string, rest: string)
    requires (forall c :: c in name ==> NameChar(c)) && rest != "" && !NameChar(rest[0])
    ensures NameLength(name + rest) == |name|
  {
    if name == "" {
      assert name + rest == rest;
    } else {
      assert (name + rest)[1..] == name[1..] + rest;
      NameRead(name[1..], rest);
    }
  }

  ghost predicate WritableLine(l: Line) {
    ValidName(l.name) && PlainValue(l.value)
  }

  lemma {:induction false} LineParts(name: string, after: string)
    requires ValidName(name)
    ensures var text := name + (" = '" + after);
            && NameLength(text) == |name| && text[..|name|] == name
            && text[|name|..|name| + 4] == " = '" && text[|name| + 4..] == after
            && text[0] != '\n' && text[0] != '#'
  {
    NameRead(name, " = '" + after);
    assert name[0] in name;
  }

  lemma {:induction false} LineRead(l: Line, rest: string)
    requires WritableLine(l) && rest != "" && rest[0] == '\n'
    ensures ReadFile(LineText(l) + rest) == match ReadFile(rest) case None => None case Some(lines) => Some([l] + lines)
  {
    var after := Escaped(l.value) + "'" + rest;
    LineParts(l.name, after);
    ValueRoundTrip(l.value, rest);
    LineTextParts(l, rest);
  }

  lemma {:induction false} LineTextParts(l: Line, rest: string)
    ensures LineText(l) + rest == l.name + (" = '" + (Escaped(l.value) + "'" + rest))
  {
  }

  lemma {:induction false} ReadNewline(text: string)
    ensures ReadFile("\n" + text) == ReadFile(text)
  {
    assert ("\n" + text)[1..] == text;
  }

  lemma {:induction false} LinesRead(lines: seq<Line>)
    requires forall l :: l in lines ==> WritableLine(l)
    ensures ReadFile(LinesText(lines)) == Some(lines)
  {
    if lines == [] {
      ReadNewline("");
      assert "\n" + "" == "\n";
    } else {
      var rest := LinesText(lines[1..]);
      LinesRead(lines[1..]);
      LineRead(lines[0], rest);
      ReadNewline(LineText(lines[0]) + rest);
      assert LinesText(lines) == "\n" + (LineText(lines[0]) + rest);
      assert lines == [lines[0]] + lines[1..];
    }
  }

  lemma {:induction false} SkipToEnd(comment: string, rest: string)
    requires '\n' !in comment && rest != "" && rest[0] == '\n'
    ensures SkipLine(comment + rest) == rest
  {
    if comment == "" {
      assert comment + rest == rest;
    } else {
      assert (comment + rest)[1..] == comment[1..] + rest;
      SkipToEnd(comment[1..], rest);
    }
  }

  lemma {:induction false} CommentRead(comment: string, rest: string)
    requires comment != "" && comment[0] == '#' && '\n' !in comment && rest != "" && rest[0] == '\n'
    ensures ReadFile(comment + rest) == ReadFile(rest)
  {
    SkipToEnd(comment, rest);
  }

  /** The file reconstruction writes is read back as exactly the lines of the plan. */
  lemma {:induction false} FileRoundTrip(lines: seq<Line>)
    requires forall l :: l in lines ==> WritableLine(l)
    ensures ReadFile(FileText(lines)) == Some(lines)
  {
    var rest := LinesText(lines);
    LinesRead(lines);
    CommentRead(COMMENT, rest);
    ReadNewline(COMMENT + rest);
    Regrouped("\n", COMMENT, rest);
  }
}
