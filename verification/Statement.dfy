/** The scanner that accepts exactly one SQL statement per rendered text (_one_statement in
    services/sandbox_poc/workflow.py). */
module Statement {
  import opened Wrappers
  import opened Text

  const QUOTES := {'"', '\''}

  // -------------------------------------------------------------------------
  // Where quotes are open, read without any scanner
  // -------------------------------------------------------------------------

  /** Reading a text one character at a time: a quote opens outside quotes and closes its own kind. A
      doubled quote closes and opens again. */
  function Quoting(open: Option<char>, text: string): (after: Option<char>) {
    if text == "" then open
    else
      var before := Quoting(open, text[..|text| - 1]);
      var c := text[|text| - 1];
      if before.None? then (if c in QUOTES then Some(c) else None)
      else if before == Some(c) then None
      else before
  }

  /** The quote open before a position, if any. */
  function OpenAt(sql: string, i: nat): (open: Option<char>)
    requires i <= |sql|
  {
    Quoting(None, sql[..i])
  }

  lemma {:induction false} OpenNext(sql: string, i: nat)
    requires i < |sql|
    ensures OpenAt(sql, i + 1) == if OpenAt(sql, i).None? then (if sql[i] in QUOTES then Some(sql[i]) else None)
                                  else if OpenAt(sql, i) == Some(sql[i]) then None else OpenAt(sql, i)
  {
    assert sql[..i + 1][..i] == sql[..i];
  }

  /** A character that could end the statement, start a comment or reach psql as a command. */
  predicate Forbidden(sql: string, i: nat)
    requires i < |sql|
  {
    || sql[i] == '\\' || sql[i] == '$'
    || (i + 1 < |sql| && sql[i] == '-' && sql[i + 1] == '-')
    || (i + 1 < |sql| && sql[i] == '/' && sql[i + 1] == '*')
  }

  /** Exactly one statement: quotes are closed, nothing outside quotes is forbidden, and the one semicolon
      outside quotes is the last character before trailing white space. */
  ghost predicate OneStatement(sql: string) {
    && OpenAt(sql, |sql|).None?
    && (forall i :: 0 <= i < |sql| && OpenAt(sql, i).None? ==> !Forbidden(sql, i))
    && (forall i :: 0 <= i < |sql| && OpenAt(sql, i).None? && sql[i] == ';' ==> i == |RStrip(sql)| - 1)
    && RStrip(sql) != "" && RStrip(sql)[|RStrip(sql)| - 1] == ';' && OpenAt(sql, |RStrip(sql)| - 1).None?
  }

  // -------------------------------------------------------------------------
  // The scanner
  // -------------------------------------------------------------------------

  /** str.find for one character. */
  method Find(sql: string, c: char, start: nat) returns (at: Option<nat>)
    ensures at.Some? ==> start <= at.value < |sql| && sql[at.value] == c && c !in sql[start..at.value]
    ensures at.None? ==> start >= |sql| || c !in sql[start..]
  {
    var i := start;
    while i < |sql|
      invariant start <= i
      invariant i <= |sql| ==> c !in sql[start..i]
      invariant start > |sql| ==> i == start
      invariant start <= |sql| ==> i <= |sql|
    {
      if sql[i] == c {
        return Some(i);
      }
      assert sql[start..i + 1] == sql[start..i] + [sql[i]];
      i := i + 1;
    }
    at := None;
    if start < |sql| {
      assert sql[start..] == sql[start..i];
    }
  }

  lemma {:induction false} StaysOpen(sql: string, i: nat, j: nat, q: char)
    requires i <= j <= |sql| && OpenAt(sql, i) == Some(q) && q !in sql[i..j]
    ensures forall k :: i <= k <= j ==> OpenAt(sql, k) == Some(q)
    decreases j - i
  {
    if i < j {
      assert sql[i] in sql[i..j];
      OpenNext(sql, i);
      assert sql[i + 1..j] == sql[i..j][1..];
      StaysOpen(sql, i + 1, j, q);
    }
  }

  /** Skips the quoted text that starts at `pos` and returns the position after it; None if it never ends. */
  method SkipQuoted(sql: string, pos: nat) returns (next: Option<nat>)
    requires pos < |sql| && sql[pos] in QUOTES && OpenAt(sql, pos).None?
    ensures next.Some? ==>
              && pos < next.value <= |sql| && OpenAt(sql, next.value).None?
              && (forall k :: pos < k < next.value ==> OpenAt(sql, k).Some? || sql[k] == sql[pos])
    ensures next.None? ==> OpenAt(sql, |sql|).Some?
  {
    var q := sql[pos];
    var close := pos + 1;
    OpenNext(sql, pos);
    while true
      invariant pos < close <= |sql| && OpenAt(sql, close) == Some(q)
      invariant forall k :: pos < k < close ==> OpenAt(sql, k).Some? || sql[k] == q
      decreases |sql| - close
    {
      var at := Find(sql, q, close);
      if at.None? {
        assert sql[close..|sql|] == sql[close..];
        StaysOpen(sql, close, |sql|, q);
        return None;
      }
      StaysOpen(sql, close, at.value, q);
      OpenNext(sql, at.value);
      if at.value + 1 < |sql| && sql[at.value + 1] == q {
        OpenNext(sql, at.value + 1);
        close := at.value + 2;
      } else {
        return Some(at.value + 1);
      }
    }
  }

  /** Outside quotes up to `pos`: nothing forbidden, and the semicolons are the listed ones. */
  ghost predicate Scanned(sql: string, pos: nat, semicolons: seq<int>)
    requires pos <= |sql|
  {
    && OpenAt(sql, pos).None?
    && (forall i :: 0 <= i < pos && OpenAt(sql, i).None? ==> !Forbidden(sql, i))
    && (forall i :: 0 <= i < pos && OpenAt(sql, i).None? && sql[i] == ';' ==> i in semicolons)
    && (forall i :: i in semicolons ==> 0 <= i < pos && OpenAt(sql, i).None? && sql[i] == ';')
    && (forall a, b :: 0 <= a < b < |semicolons| ==> semicolons[a] < semicolons[b])
  }

  /** One character outside quotes. */
  lemma {:induction false} ScanPlain(sql: string, pos: nat, semicolons: seq<int>)
    requires pos < |sql| && Scanned(sql, pos, semicolons) && sql[pos] !in QUOTES && !Forbidden(sql, pos)
    ensures Scanned(sql, pos + 1, if sql[pos] == ';' then semicolons + [pos] else semicolons)
  {
    OpenNext(sql, pos);
    if sql[pos] == ';' {
      AppendLarger(semicolons, pos);
    }
  }

  /** A quoted text, whose characters are inside quotes or quotes themselves. */
  lemma {:induction false} ScanQuoted(sql: string, pos: nat, next: nat, semicolons: seq<int>)
    requires pos < next <= |sql| && Scanned(sql, pos, semicolons) && sql[pos] in QUOTES
    requires OpenAt(sql, next).None? && forall k :: pos < k < next ==> OpenAt(sql, k).Some? || sql[k] == sql[pos]
    ensures Scanned(sql, next, semicolons)
  {
  }

  lemma {:induction false} ScannedAll(sql: string, semicolons: seq<int>)
    requires Scanned(sql, |sql|, semicolons)
    ensures semicolons == [|RStrip(sql)| - 1] <==> OneStatement(sql)
  {
    var last := |RStrip(sql)| - 1;
    if semicolons == [last] {
      assert semicolons[0] in semicolons;
    } else if OneStatement(sql) {
      assert last in semicolons;
      OnlyOne(semicolons, last);
    }
  }

  /** _one_statement. */
  method IsOneStatement(sql: string) returns (ok: bool)
    ensures ok <==> OneStatement(sql)
  {
    var pos := 0;
    var semicolons: seq<int> := [];
    while pos < |sql|
      invariant pos <= |sql| && Scanned(sql, pos, semicolons)
    {
      if sql[pos] in QUOTES {
        var next := SkipQuoted(sql, pos);
        if next.None? {
          return false;
        }
        ScanQuoted(sql, pos, next.value, semicolons);
        pos := next.value;
      } else {
        if Forbidden(sql, pos) {
          return false;
        }
        ScanPlain(sql, pos, semicolons);
        if sql[pos] == ';' {
          semicolons := semicolons + [pos];
        }
        pos := pos + 1;
      }
    }
    ScannedAll(sql, semicolons);
    ok := semicolons == [|RStrip(sql)| - 1];
  }

  lemma {:induction false} AppendLarger(s: seq<int>, x: int)
    requires (forall i :: i in s ==> i < x) && forall a, b :: 0 <= a < b < |s| ==> s[a] < s[b]
    ensures forall a, b :: 0 <= a < b < |s| + 1 ==> (s + [x])[a] < (s + [x])[b]
  {
    forall a, b | 0 <= a < b < |s| + 1 ensures (s + [x])[a] < (s + [x])[b] {
      assert s[a] in s;
    }
  }

  lemma {:induction false} TwoDiffer(s: seq<int>, x: int)
    requires forall a, b :: 0 <= a < b < |s| ==> s[a] < s[b]
    ensures |s| > 1 ==> exists i :: i in s && i != x
  {
    if |s| > 1 {
      assert s[0] in s && s[1] in s && s[0] < s[1];
    }
  }

  lemma {:induction false} OnlyOne(s: seq<int>, x: int)
    requires x in s && (forall i :: i in s ==> i == x) && forall a, b :: 0 <= a < b < |s| ==> s[a] < s[b]
    ensures s == [x]
  {
    TwoDiffer(s, x);
  }

  // -------------------------------------------------------------------------
  // What it accepts
  // -------------------------------------------------------------------------

  /** A part of a rendered statement: plain text, or a delimited identifier with arbitrary content
      (section 5.2 of ISO/IEC 9075-2). */
  datatype Piece = Plain(text: string) | Delimited(content: string)

  function Rendered(p: Piece): (text: string) {
    match p
    case Plain(text) => text
    case Delimited(content) => "\"" + Doubled(content) + "\""
  }

  function RenderedAll(pieces: seq<Piece>): (text: string) {
    if pieces == [] then "" else RenderedAll(pieces[..|pieces| - 1]) + Rendered(pieces[|pieces| - 1])
  }

  /** Text without quotes, semicolons and anything forbidden. */
  ghost predicate SafeText(text: string) {
    forall i :: 0 <= i < |text| ==> text[i] !in QUOTES && text[i] != ';' && !Forbidden(text, i)
  }

  /** Safe text and identifiers; two plain pieces in a row would be one. */
  ghost predicate SafePieces(pieces: seq<Piece>) {
    && (forall i :: 0 <= i < |pieces| && pieces[i].Plain? ==> SafeText(pieces[i].text))
    && (forall i :: 0 <= i < |pieces| - 1 ==> !(pieces[i].Plain? && pieces[i + 1].Plain?))
  }

  lemma {:induction false} QuotingConcat(open: Option<char>, a: string, b: string)
    ensures Quoting(open, a + b) == Quoting(Quoting(open, a), b)
  {
    if b == "" {
      assert a + b == a;
    } else {
      assert (a + b)[..|a + b| - 1] == a + b[..|b| - 1];
      QuotingConcat(open, a, b[..|b| - 1]);
    }
  }

  lemma {:induction false} PlainKeepsClosed(text: string)
    requires forall i :: 0 <= i < |text| ==> text[i] !in QUOTES
    ensures Quoting(None, text) == None
  {
    if text != "" {
      PlainKeepsClosed(text[..|text| - 1]);
    }
  }

  /** The content of a delimited identifier never closes it, whatever it is. */
  lemma {:induction false} DoubledStaysOpen(content: string)
    ensures Quoting(Some('"'), Doubled(content)) == Some('"')
  {
    if content != "" {
      var last := content[|content| - 1];
      DoubledEnd(content);
      DoubledStaysOpen(content[..|content| - 1]);
      var rest := Doubled(content[..|content| - 1]);
      if last == '"' {
        QuotingConcat(Some('"'), rest, "\"\"");
        QuotingConcat(Some('"'), "\"", "\"");
        assert "\"" + "\"" == "\"\"";
        QuoteOnce();
      } else {
        QuotingConcat(Some('"'), rest, [last]);
        assert Quoting(Some('"'), [last]) == Some('"');
      }
    }
  }

  lemma {:induction false} QuoteOnce()
    ensures Quoting(Some('"'), "\"") == None && Quoting(None, "\"") == Some('"')
  {
    assert "\""[..0] == "";
  }

  /** Inside an identifier every position with no open quote holds a quote character. */
  lemma {:induction false} DoubledOutside(content: string, i: nat)
    requires i < |Doubled(content)| && Quoting(Some('"'), Doubled(content)[..i]).None?
    ensures Doubled(content)[i] == '"'
  {
    var rest := Doubled(content[..|content| - 1]);
    DoubledEnd(content);
    if i < |rest| {
      assert Doubled(content)[..i] == rest[..i];
      DoubledOutside(content[..|content| - 1], i);
    } else if i == |rest| {
      assert Doubled(content)[..i] == rest;
      DoubledStaysOpen(content[..|content| - 1]);
    }
  }

  /** What holds at every position outside quotes of the pieces so far. */
  ghost predicate SafeSoFar(text: string) {
    && Quoting(None, text).None?
    && forall i :: 0 <= i < |text| && OpenAt(text, i).None? ==>
         text[i] != ';' && text[i] != '\\' && text[i] != '$'
         && (i + 1 < |text| ==> !Forbidden(text, i))
  }

  lemma {:induction false} PieceOutside(p: Piece, i: nat)
    requires p.Plain? ==> SafeText(p.text)
    requires i < |Rendered(p)| && OpenAt(Rendered(p), i).None?
    ensures p.Delimited? ==> Rendered(p)[i] == '"'
  {
    if p.Delimited? && 0 < i < |Rendered(p)| - 1 {
      assert Rendered(p)[..i] == "\"" + Doubled(p.content)[..i - 1];
      QuotingConcat(None, "\"", Doubled(p.content)[..i - 1]);
      QuoteOnce();
      DoubledOutside(p.content, i - 1);
    }
  }

  lemma {:induction false} PieceCloses(p: Piece)
    requires p.Plain? ==> SafeText(p.text)
    ensures Quoting(None, Rendered(p)).None?
  {
    if p.Plain? {
      PlainKeepsClosed(p.text);
    } else {
      QuotingConcat(None, "\"" + Doubled(p.content), "\"");
      QuotingConcat(None, "\"", Doubled(p.content));
      QuoteOnce();
      DoubledStaysOpen(p.content);
    }
  }

  lemma {:induction false} OpenInFront(a: string, b: string, i: nat)
    requires i <= |a|
    ensures OpenAt(a + b, i) == OpenAt(a, i)
  {
    assert (a + b)[..i] == a[..i];
  }

  lemma {:induction false} OpenBehind(a: string, b: string, i: nat)
    requires i <= |b| && Quoting(None, a).None?
    ensures OpenAt(a + b, |a| + i) == OpenAt(b, i)
  {
    assert (a + b)[..|a| + i] == a + b[..i];
    QuotingConcat(None, a, b[..i]);
  }

  /** The last character of the text so far and the first one of the next piece form nothing forbidden. */
  ghost predicate SafeSeam(a: string, b: string) {
    a != "" && b != "" ==> a[|a| - 1] == '"' || b[0] == '"' || b[0] == ';'
  }

  lemma {:induction false} SafeTogether(a: string, b: string)
    requires SafeSoFar(a) && SafeSoFar(b) && SafeSeam(a, b)
    ensures SafeSoFar(a + b)
  {
    QuotingConcat(None, a, b);
    forall i | 0 <= i < |a + b| && OpenAt(a + b, i).None?
      ensures (a + b)[i] != ';' && (a + b)[i] != '\\' && (a + b)[i] != '$'
      ensures i + 1 < |a + b| ==> !Forbidden(a + b, i)
    {
      if i < |a| {
        OpenInFront(a, b, i);
      } else {
        OpenBehind(a, b, i - |a|);
        assert (a + b)[i] == b[i - |a|];
        assert i + 1 < |a + b| ==> (a + b)[i + 1] == b[i + 1 - |a|];
      }
    }
  }

  lemma {:induction false} PieceSafe(p: Piece)
    requires p.Plain? ==> SafeText(p.text)
    ensures SafeSoFar(Rendered(p))
  {
    PieceCloses(p);
    forall i | 0 <= i < |Rendered(p)| && OpenAt(Rendered(p), i).None? ensures p.Delimited? ==> Rendered(p)[i] == '"' {
      PieceOutside(p, i);
    }
  }

  lemma {:induction false} PiecesSafe(pieces: seq<Piece>)
    requires SafePieces(pieces)
    ensures SafeSoFar(RenderedAll(pieces))
    ensures pieces != [] && pieces[|pieces| - 1].Delimited? ==>
              RenderedAll(pieces) != "" && RenderedAll(pieces)[|RenderedAll(pieces)| - 1] == '"'
  {
    if pieces != [] {
      var n := |pieces| - 1;
      var rest := pieces[..n];
      PiecesSafe(rest);
      PieceSafe(pieces[n]);
      if n > 0 {
        assert rest[|rest| - 1] == pieces[n - 1];
      }
      SafeTogether(RenderedAll(rest), Rendered(pieces[n]));
    }
  }

  predicate Blank(text: string) {
    forall c | c in text :: IsSpace(c)
  }

  lemma {:induction false} StripBlank(text: string, blank: string)
    requires Blank(blank) && text != "" && !IsSpace(text[|text| - 1])
    ensures RStrip(text + blank) == text
  {
    if blank == "" {
      assert text + blank == text;
    } else {
      assert (text + blank)[..|text + blank| - 1] == text + blank[..|blank| - 1];
      StripBlank(text, blank[..|blank| - 1]);
    }
  }

  lemma {:induction false} BlankKeepsClosed(blank: string)
    requires Blank(blank)
    ensures Quoting(None, blank) == None
  {
    if blank != "" {
      assert blank[|blank| - 1] in blank;
      BlankKeepsClosed(blank[..|blank| - 1]);
    }
  }

  /** Every statement made of safe text and delimited identifiers of arbitrary content, with one final
      semicolon and any trailing white space, is accepted. */
  lemma {:induction false} AcceptsRendered(pieces: seq<Piece>, blank: string)
    requires SafePieces(pieces) && Blank(blank)
    ensures OneStatement(RenderedAll(pieces) + ";" + blank)
  {
    PiecesSafe(pieces);
    AcceptsSafe(RenderedAll(pieces), blank);
  }

  lemma {:induction false} AcceptsSafe(text: string, blank: string)
    requires SafeSoFar(text) && Blank(blank)
    ensures OneStatement(text + ";" + blank)
  {
    var sql := text + ";" + blank;
    ClosedAt(text, blank);
    forall i | 0 <= i < |sql| && OpenAt(sql, i).None?
      ensures !Forbidden(sql, i)
      ensures sql[i] == ';' ==> i == |text|
    {
      SafePosition(text, blank, i);
    }
    assert (text + ";")[|text|] == ';';
    StripBlank(text + ";", blank);
  }

  lemma {:induction false} ClosedAt(text: string, blank: string)
    requires Quoting(None, text).None? && Blank(blank)
    ensures OpenAt(text + ";" + blank, |text|).None? && OpenAt(text + ";" + blank, |text + ";" + blank|).None?
  {
    var tail := ";" + blank;
    assert text + ";" + blank == text + tail;
    assert OpenAt(text + tail, |text|).None? by {
      OpenBehind(text, tail, 0);
    }
    assert Quoting(None, text + tail).None? by {
      QuotingConcat(None, text, tail);
      TailClosed(blank, |tail|);
      assert tail[..|tail|] == tail;
    }
    assert (text + tail)[..|text + tail|] == text + tail;
  }

  lemma {:induction false} SafePosition(text: string, blank: string, i: nat)
    requires SafeSoFar(text) && Blank(blank) && i < |text + ";" + blank| && OpenAt(text + ";" + blank, i).None?
    ensures !Forbidden(text + ";" + blank, i)
    ensures (text + ";" + blank)[i] == ';' ==> i == |text|
  {
    var sql := text + ";" + blank;
    if i < |text| {
      assert sql == text + (";" + blank);
      OpenInFront(text, ";" + blank, i);
      assert sql[i] == text[i];
      assert i + 1 < |text| ==> sql[i + 1] == text[i + 1];
    } else if i > |text| {
      assert sql[i] == blank[i - |text| - 1] && sql[i] in blank;
    }
  }

  lemma {:induction false} TailClosed(blank: string, i: nat)
    requires Blank(blank) && i <= |blank| + 1
    ensures OpenAt(";" + blank, i).None?
  {
    if i > 0 {
      assert (";" + blank)[..i] == ";" + blank[..i - 1];
      QuotingConcat(None, ";", blank[..i - 1]);
      assert ";"[..0] == "";
      BlankKeepsClosed(blank[..i - 1]);
    }
  }
}
