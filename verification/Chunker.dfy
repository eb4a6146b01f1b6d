/** Splitting knowledge documents into chunks: sections at headers, then overlapping pieces of sections
    that are too long (services/rag/rag_service.py). */
module Chunker {
  import opened Wrappers
  import opened Text

  const CHUNK_SIZE := 500
  const CHUNK_OVERLAP := 50
  const MAX_CHUNKS := 1000

  // -------------------------------------------------------------------------
  // Overlapping pieces
  // -------------------------------------------------------------------------

  /** Pieces of at most `size` characters; each later one starts `overlap` characters before the end of
      the one before it. */
  function Pieces(text: string, size: nat, overlap: nat): (pieces: seq<string>)
    requires overlap < size
    decreases |text|
  {
    if text == "" then []
    else if |text| <= size then [text]
    else [text[..size]] + Pieces(text[size - overlap..], size, overlap)
  }

  /** _split_oversized_chunk. */
  method SplitText(text: string, size: nat, overlap: nat) returns (pieces: seq<string>)
    requires overlap < size
    ensures pieces == Pieces(text, size, overlap)
  {
    pieces := [];
    var start := 0;
    assert text[0..] == text;
    while start < |text|
      invariant start <= |text|
      invariant pieces + Pieces(text[start..], size, overlap) == Pieces(text, size, overlap)
      decreases |text| - start
    {
      var end := if start + size < |text| then start + size else |text|;
      var piece := text[start..end];
      ghost var next := if end < |text| then end - overlap else end;
      if end < |text| {
        assert text[start..][..size] == piece && text[start..][size - overlap..] == text[next..];
      } else {
        assert text[start..] == piece && text[next..] == "";
      }
      assert Pieces(text[start..], size, overlap) == [piece] + Pieces(text[next..], size, overlap);
      pieces := pieces + [piece];
      start := if end < |text| then end - overlap else end;
    }
  }

  lemma {:induction false} PieceSizes(text: string, size: nat, overlap: nat, i: nat)
    requires overlap < size && i < |Pieces(text, size, overlap)|
    ensures 0 < |Pieces(text, size, overlap)[i]| <= size
    ensures i > 0 ==> |Pieces(text, size, overlap)[i]| > overlap
    ensures i + 1 < |Pieces(text, size, overlap)| ==> |Pieces(text, size, overlap)[i]| == size
    decreases |text|
  {
    if |text| > size {
      var rest := text[size - overlap..];
      assert |rest| > overlap && Pieces(rest, size, overlap) != [];
      if i > 0 {
        PieceSizes(rest, size, overlap, i - 1);
        FirstPiece(rest, size, overlap);
      }
    }
  }

  lemma {:induction false} FirstPiece(text: string, size: nat, overlap: nat)
    requires overlap < size && text != ""
    ensures Pieces(text, size, overlap) != []
    ensures Pieces(text, size, overlap)[0] == if |text| <= size then text else text[..size]
  {
  }

  /** Later pieces without their overlap. */
  function Continuation(pieces: seq<string>, overlap: nat): (text: string) {
    if pieces == [] then ""
    else (if |pieces[0]| >= overlap then pieces[0][overlap..] else "") + Continuation(pieces[1..], overlap)
  }

  /** The first piece followed by every later piece without its first `overlap` characters. */
  function Rebuilt(pieces: seq<string>, overlap: nat): (text: string) {
    if pieces == [] then "" else pieces[0] + Continuation(pieces[1..], overlap)
  }

  lemma {:induction false} ContinuationOfAll(pieces: seq<string>, overlap: nat, text: string)
    requires pieces != [] && |pieces[0]| >= overlap && Rebuilt(pieces, overlap) == text
    ensures |text| >= overlap && Continuation(pieces, overlap) == text[overlap..]
  {
    assert (pieces[0] + Continuation(pieces[1..], overlap))[overlap..]
      == pieces[0][overlap..] + Continuation(pieces[1..], overlap);
  }

  /** No character is lost or changed: the pieces rebuild the text. */
  lemma {:induction false} PiecesRebuild(text: string, size: nat, overlap: nat)
    requires overlap < size
    ensures Rebuilt(Pieces(text, size, overlap), overlap) == text
    decreases |text|
  {
    if |text| > size {
      var rest := text[size - overlap..];
      var later := Pieces(rest, size, overlap);
      PiecesRebuild(rest, size, overlap);
      FirstPiece(rest, size, overlap);
      ContinuationOfAll(later, overlap, rest);
      RebuiltCons(text[..size], later, overlap);
      TextInTwo(text, size, overlap);
    } else if text != "" {
      RebuiltCons(text, [], overlap);
      assert [text] + [] == [text];
    }
  }

  lemma {:induction false} RebuiltCons(first: string, later: seq<string>, overlap: nat)
    ensures Rebuilt([first] + later, overlap) == first + Continuation(later, overlap)
  {
    assert ([first] + later)[1..] == later;
  }

  lemma {:induction false} TextInTwo(text: string, size: nat, overlap: nat)
    requires overlap < size < |text|
    ensures text == text[..size] + text[size - overlap..][overlap..]
  {
    assert text[size - overlap..][overlap..] == text[size..];
  }

  lemma {:induction false} TimesOneMore(n: int, step: int)
    ensures (n + 1) * step == n * step + step
  {
  }

  /** A text longer than one piece has 1 + ceil((length - size) / (size - overlap)) pieces: the number of
      later pieces is the least one whose steps cover the rest of the text. */
  lemma {:induction false} PieceCount(text: string, size: nat, overlap: nat)
    requires overlap < size && |text| > size
    ensures var later := |Pieces(text, size, overlap)| - 1;
            (later - 1) * (size - overlap) < |text| - size <= later * (size - overlap)
    decreases |text|
  {
    var rest := text[size - overlap..];
    var step := size - overlap;
    var later := |Pieces(text, size, overlap)| - 1;
    if |rest| > size {
      PieceCount(rest, size, overlap);
      assert |Pieces(rest, size, overlap)| == later;
      TimesOneMore(later - 1, step);
      TimesOneMore(later - 2, step);
    } else {
      assert Pieces(rest, size, overlap) == [rest];
      assert later == 1;
    }
  }

  // -------------------------------------------------------------------------
  // Sections
  // -------------------------------------------------------------------------

  /** Consecutive lines under one section title. */
  datatype Group = Group(section: string, lines: seq<string>)

  const INTRODUCTION := "Introduction"

  function AllLines(groups: seq<Group>): (lines: seq<string>) {
    if groups == [] then [] else AllLines(groups[..|groups| - 1]) + groups[|groups| - 1].lines
  }

  /** The group's first line is the header that names it (only the introduction may lack one), and no
      other line of it is a header. */
  ghost predicate OneSection(g: Group, header: string -> Option<string>) {
    && g.lines != []
    && (if header(g.lines[0]).Some? then g.section == header(g.lines[0]).value else g.section == INTRODUCTION)
    && forall i :: 0 < i < |g.lines| ==> header(g.lines[i]).None?
  }

  ghost predicate GroupsOk(groups: seq<Group>, header: string -> Option<string>) {
    && (forall i :: 0 <= i < |groups| ==> OneSection(groups[i], header))
    && (forall i :: 0 < i < |groups| ==> header(groups[i].lines[0]).Some?)
  }

  /** Cutting a document at its headers and nowhere else, without losing a line. */
  ghost predicate Sections(lines: seq<string>, header: string -> Option<string>, groups: seq<Group>) {
    AllLines(groups) == lines && GroupsOk(groups, header)
  }

  function Joined(lines: seq<string>): (text: string) {
    if lines == [] then ""
    else if |lines| == 1 then lines[0]
    else Joined(lines[..|lines| - 1]) + "\n" + lines[|lines| - 1]
  }

  /** A chunk; its index is rewritten at the end. */
  datatype Chunk = Chunk(section: string, content: string, index: nat)

  /** _create_chunk: surrounding white space is dropped and a blank group gives no chunk. */
  function Created(g: Group, index: nat): (c: Option<Chunk>) {
    var content := Strip(Joined(g.lines));
    if content == "" then None else Some(Chunk(g.section, content, index))
  }

  function Kept(groups: seq<Group>): (chunks: seq<Chunk>) {
    if groups == [] then []
    else
      var before := Kept(groups[..|groups| - 1]);
      match Created(groups[|groups| - 1], |before|)
      case None => before
      case Some(c) => before + [c]
  }

  function Continued(section: string): (title: string) {
    (if |section| > 246 then section[..246] else section) + " (cont.)"
  }

  function PieceChunks(c: Chunk, pieces: seq<string>): (chunks: seq<Chunk>)
    ensures |chunks| == |pieces|
  {
    if pieces == [] then []
    else
      var last := |pieces| - 1;
      PieceChunks(c, pieces[..last])
      + [Chunk(if last > 0 then Continued(c.section) else c.section, pieces[last], c.index + last)]
  }

  function Sized(chunks: seq<Chunk>): (all: seq<Chunk>) {
    if chunks == [] then []
    else
      var c := chunks[|chunks| - 1];
      Sized(chunks[..|chunks| - 1])
      + if |c.content| <= CHUNK_SIZE then [c] else PieceChunks(c, Pieces(c.content, CHUNK_SIZE, CHUNK_OVERLAP))
  }

  function Limited(chunks: seq<Chunk>): (some: seq<Chunk>) {
    if |chunks| > MAX_CHUNKS then chunks[..MAX_CHUNKS] else chunks
  }

  // -------------------------------------------------------------------------
  // The chunker
  // -------------------------------------------------------------------------

  /** The lines read so far: finished groups, then the lines of the current section. */
  ghost predicate Cut(
    lines: seq<string>, i: nat, header: string -> Option<string>, groups: seq<Group>, section: string,
    current: seq<string>)
    requires i <= |lines|
  {
    && AllLines(groups) + current == lines[..i] && GroupsOk(groups, header)
    && (if current == [] then section == INTRODUCTION && groups == [] else OneSection(Group(section, current), header))
    && (groups != [] ==> header(current[0]).Some?)
  }

  lemma {:induction false} CutAtHeader(
    lines: seq<string>, i: nat, header: string -> Option<string>, groups: seq<Group>, section: string,
    current: seq<string>)
    requires i < |lines| && Cut(lines, i, header, groups, section, current) && header(lines[i]).Some?
    ensures Cut(lines, i + 1, header, Closed(groups, section, current), header(lines[i]).value, [lines[i]])
  {
    ClosedLines(groups, section, current);
    ClosedGroups(groups, header, section, current);
    NextLine(lines, i, AllLines(Closed(groups, section, current)));
  }

  lemma {:induction false} NextLine(lines: seq<string>, i: nat, before: seq<string>)
    requires i < |lines| && before == lines[..i]
    ensures before + [lines[i]] == lines[..i + 1]
  {
  }

  lemma {:induction false} ClosedLines(groups: seq<Group>, section: string, current: seq<string>)
    ensures AllLines(Closed(groups, section, current)) == AllLines(groups) + current
  {
    if current == [] {
      assert AllLines(groups) + current == AllLines(groups);
    } else {
      AllLinesMore(groups, Group(section, current));
    }
  }

  lemma {:induction false} ClosedGroups(
    groups: seq<Group>, header: string -> Option<string>, section: string, current: seq<string>)
    requires GroupsOk(groups, header)
    requires current != [] ==> OneSection(Group(section, current), header)
    requires current != [] && groups != [] ==> header(current[0]).Some?
    ensures GroupsOk(Closed(groups, section, current), header)
  {
  }

  lemma {:induction false} CutInSection(
    lines: seq<string>, i: nat, header: string -> Option<string>, groups: seq<Group>, section: string,
    current: seq<string>)
    requires i < |lines| && Cut(lines, i, header, groups, section, current) && header(lines[i]).None?
    ensures Cut(lines, i + 1, header, groups, section, current + [lines[i]])
  {
    NextLine(lines, i, AllLines(groups) + current);
    assert AllLines(groups) + (current + [lines[i]]) == (AllLines(groups) + current) + [lines[i]];
  }

  lemma {:induction false} AllLinesMore(groups: seq<Group>, g: Group)
    ensures AllLines(groups + [g]) == AllLines(groups) + g.lines
  {
    assert (groups + [g])[..|groups|] == groups;
  }

  lemma {:induction false} CutDone(
    lines: seq<string>, header: string -> Option<string>, groups: seq<Group>, section: string, current: seq<string>)
    requires Cut(lines, |lines|, header, groups, section, current)
    ensures Sections(lines, header, Closed(groups, section, current))
  {
    assert lines[..|lines|] == lines;
    ClosedLines(groups, section, current);
    ClosedGroups(groups, header, section, current);
  }

  ghost function Closed(groups: seq<Group>, section: string, current: seq<string>): (all: seq<Group>) {
    if current == [] then groups else groups + [Group(section, current)]
  }

  lemma {:induction false} KeptMore(groups: seq<Group>, g: Group)
    ensures Kept(groups + [g])
         == match Created(g, |Kept(groups)|) case None => Kept(groups) case Some(c) => Kept(groups) + [c]
  {
    assert (groups + [g])[..|groups|] == groups;
  }

  /** Finalises the current section, if it has any line. */
  method CloseSection(chunks: seq<Chunk>, ghost groups: seq<Group>, section: string, current: seq<string>)
    returns (more: seq<Chunk>)
    requires chunks == Kept(groups)
    ensures more == Kept(Closed(groups, section, current))
  {
    more := chunks;
    if current != [] {
      KeptMore(groups, Group(section, current));
      var created := Created(Group(section, current), |chunks|);
      if created.Some? {
        more := chunks + [created.value];
      }
    }
  }

  /** The grouping loop: one chunk per section that is not blank. */
  method CutSections(
    lines: seq<string>, header: string -> Option<string>) returns (chunks: seq<Chunk>, ghost groups: seq<Group>)
    ensures Sections(lines, header, groups) && chunks == Kept(groups)
  {
    chunks, groups := [], [];
    var section := INTRODUCTION;
    var current: seq<string> := [];
    for i := 0 to |lines|
      invariant Cut(lines, i, header, groups, section, current) && chunks == Kept(groups)
    {
      var found := header(lines[i]);
      if found.Some? {
        CutAtHeader(lines, i, header, groups, section, current);
        chunks := CloseSection(chunks, groups, section, current);
        groups := Closed(groups, section, current);
        section, current := found.value, [lines[i]];
      } else {
        CutInSection(lines, i, header, groups, section, current);
        current := current + [lines[i]];
      }
    }
    CutDone(lines, header, groups, section, current);
    chunks := CloseSection(chunks, groups, section, current);
    groups := Closed(groups, section, current);
  }

  /** Replaces each chunk that is too long by its pieces. */
  method SplitLong(chunks: seq<Chunk>) returns (result: seq<Chunk>)
    ensures result == Sized(chunks)
  {
    result := [];
    for i := 0 to |chunks|
      invariant result == Sized(chunks[..i])
    {
      var c := chunks[i];
      assert chunks[..i + 1][..i] == chunks[..i];
      if |c.content| <= CHUNK_SIZE {
        result := result + [c];
      } else {
        var more := SplitChunk(c);
        result := result + more;
      }
    }
    assert chunks[..|chunks|] == chunks;
  }

  method SplitChunk(c: Chunk) returns (chunks: seq<Chunk>)
    ensures chunks == PieceChunks(c, Pieces(c.content, CHUNK_SIZE, CHUNK_OVERLAP))
  {
    var pieces := SplitText(c.content, CHUNK_SIZE, CHUNK_OVERLAP);
    chunks := [];
    for i := 0 to |pieces|
      invariant chunks == PieceChunks(c, pieces[..i])
    {
      assert pieces[..i + 1][..i] == pieces[..i];
      chunks := chunks + [Chunk(if i > 0 then Continued(c.section) else c.section, pieces[i], c.index + i)];
    }
    assert pieces[..|pieces|] == pieces;
  }

  /** The same chunks apart from their numbers. */
  ghost predicate SameContent(a: seq<Chunk>, b: seq<Chunk>) {
    |a| == |b| && forall i :: 0 <= i < |a| ==> a[i].section == b[i].section && a[i].content == b[i].content
  }

  /** Renumbers the final chunks in place. */
  method Renumber(chunks: seq<Chunk>) returns (result: seq<Chunk>)
    ensures SameContent(result, chunks)
    ensures forall i :: 0 <= i < |result| ==> result[i].index == i
  {
    result := chunks;
    for i := 0 to |result|
      invariant SameContent(result, chunks)
      invariant forall k :: 0 <= k < i ==> result[k].index == k
    {
      result := result[i := result[i].(index := i)];
    }
  }

  /** _chunk_document: no line is lost when grouping, long sections become their pieces, at most
      MAX_CHUNKS chunks remain, and they are numbered 0, 1, 2 and so on. */
  method ChunkDocument(lines: seq<string>, header: string -> Option<string>)
    returns (result: seq<Chunk>, ghost groups: seq<Group>)
    ensures Sections(lines, header, groups)
    ensures SameContent(result, Limited(Sized(Kept(groups))))
    ensures |result| <= MAX_CHUNKS
    ensures forall i :: 0 <= i < |result| ==> result[i].index == i
  {
    var chunks;
    chunks, groups := CutSections(lines, header);
    var sized := SplitLong(chunks);
    result := Renumber(Limited(sized));
  }

  // -------------------------------------------------------------------------
  // What the chunks hold
  // -------------------------------------------------------------------------

  lemma {:induction false} PieceChunkAt(c: Chunk, pieces: seq<string>, i: nat)
    requires i < |pieces|
    ensures PieceChunks(c, pieces)[i]
         == Chunk(if i > 0 then Continued(c.section) else c.section, pieces[i], c.index + i)
  {
    if i < |pieces| - 1 {
      PieceChunkAt(c, pieces[..|pieces| - 1], i);
    }
  }

  /** Every chunk fits the chunk size and is not empty. */
  lemma {:induction false} SizedFit(chunks: seq<Chunk>, i: nat)
    requires forall c :: c in chunks ==> c.content != ""
    requires i < |Sized(chunks)|
    ensures 0 < |Sized(chunks)[i].content| <= CHUNK_SIZE
  {
    var c := chunks[|chunks| - 1];
    var before := chunks[..|chunks| - 1];
    assert c in chunks && forall d :: d in before ==> d in chunks;
    if i < |Sized(before)| {
      SizedFit(before, i);
    } else if |c.content| > CHUNK_SIZE {
      var k := i - |Sized(before)|;
      PieceChunkAt(c, Pieces(c.content, CHUNK_SIZE, CHUNK_OVERLAP), k);
      PieceSizes(c.content, CHUNK_SIZE, CHUNK_OVERLAP, k);
    }
  }

  lemma {:induction false} KeptNotEmpty(groups: seq<Group>)
    ensures forall c :: c in Kept(groups) ==> c.content != ""
  {
    if groups != [] {
      KeptNotEmpty(groups[..|groups| - 1]);
    }
  }

  /** The cut of a document into sections is unique. */
  lemma {:induction false} SectionsUnique(
    lines: seq<string>, header: string -> Option<string>, a: seq<Group>, b: seq<Group>)
    requires Sections(lines, header, a) && Sections(lines, header, b)
    ensures a == b
    decreases |a|
  {
    if a == [] {
      SomeLine(header, b);
    } else {
      SameLast(lines, header, a, b);
      var g := a[|a| - 1];
      SectionsInit(lines, header, a);
      SectionsInit(lines, header, b);
      SectionsUnique(lines[..|lines| - |g.lines|], header, a[..|a| - 1], b[..|b| - 1]);
      assert a == a[..|a| - 1] + [g] && b == b[..|b| - 1] + [g];
    }
  }

  /** Two cuts of the same lines have the same last section. */
  lemma {:induction false} SameLast(
    lines: seq<string>, header: string -> Option<string>, a: seq<Group>, b: seq<Group>)
    requires Sections(lines, header, a) && Sections(lines, header, b) && a != []
    ensures b != [] && a[|a| - 1] == b[|b| - 1]
  {
    SomeLine(header, a);
    var g, h := a[|a| - 1], b[|b| - 1];
    LastGroup(lines, header, a, b);
    LastGroup(lines, header, b, a);
    SectionsInit(lines, header, a);
    SectionsInit(lines, header, b);
    assert OneSection(g, header) && OneSection(h, header);
  }

  /** Without its last section, a cut is one of the lines before that section. */
  lemma {:induction false} SectionsInit(lines: seq<string>, header: string -> Option<string>, a: seq<Group>)
    requires Sections(lines, header, a) && a != []
    ensures var g := a[|a| - 1];
            && |g.lines| <= |lines| && g.lines == lines[|lines| - |g.lines|..]
            && Sections(lines[..|lines| - |g.lines|], header, a[..|a| - 1])
  {
    var g := a[|a| - 1];
    assert AllLines(a[..|a| - 1]) == lines[..|lines| - |g.lines|];
  }

  lemma {:induction false} SomeLine(header: string -> Option<string>, groups: seq<Group>)
    requires forall i :: 0 <= i < |groups| ==> OneSection(groups[i], header)
    ensures groups != [] ==> AllLines(groups) != []
  {
    if groups != [] {
      assert OneSection(groups[|groups| - 1], header);
    }
  }

  /** The last section of one cut is not longer than that of another. */
  lemma {:induction false} LastGroup(lines: seq<string>, header: string -> Option<string>, a: seq<Group>, b: seq<Group>)
    requires Sections(lines, header, a) && Sections(lines, header, b) && a != [] && b != []
    ensures |a[|a| - 1].lines| <= |b[|b| - 1].lines|
  {
    InnerLine(lines, header, AllLines(a[..|a| - 1]), a[|a| - 1], AllLines(b[..|b| - 1]), b[|b| - 1].lines);
  }

  lemma {:induction false} InnerLine(
    lines: seq<string>, header: string -> Option<string>, x: seq<string>, g: Group, y: seq<string>, h: seq<string>)
    requires lines == x + g.lines && lines == y + h && h != [] && OneSection(g, header)
    ensures |h| < |g.lines| ==> header(h[0]).None?
  {
    if |h| < |g.lines| {
      assert lines[|y|] == h[0];
      assert lines[|y|] == g.lines[|y| - |x|];
    }
  }
}
