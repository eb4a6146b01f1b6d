/** Quoted name lists: the search_path scanner and the two printers it undoes
    (services/sandbox_poc/catalog_skeleton.py and catalog_fixes.py). */
module NameLists {
  import opened Wrappers
  import opened Text

  // -------------------------------------------------------------------------
  // The grammar the scanner accepts
  // -------------------------------------------------------------------------

  /** One name read off the front of a text, and the text after it. */
  datatype Read = Unreadable | Read(name: string, rest: string)

  function SkipSpaces(t: string): (rest: string)
    ensures |rest| <= |t|
  {
    if t != "" && t[0] == ' ' then SkipSpaces(t[1..]) else t
  }

  function AfterQuote(out: string, r: Read): (p: Read)
    ensures r.Read? ==> p.Read? && p.rest == r.rest
  {
    match r
    case Unreadable => Unreadable
    case Read(name, rest) => Read(out + name, rest)
  }

  /** The text of a quoted name whose opening quote was read, and what follows its closing quote. */
  function Quoted(t: string): (r: Read)
    ensures r.Read? ==> |r.rest| < |t|
  {
    if t == "" then Unreadable
    else if t[0] != '"' then AfterQuote([t[0]], Quoted(t[1..]))
    else if |t| > 1 && t[1] == '"' then AfterQuote("\"", Quoted(t[2..]))
    else Read("", t[1..])
  }

  function UpToComma(t: string): (raw: string)
    ensures raw <= t && ',' !in raw
    ensures |raw| < |t| ==> t[|raw|] == ','
  {
    if t == "" || t[0] == ',' then "" else [t[0]] + UpToComma(t[1..])
  }

  /** One list element and the text after it. */
  function Item(t: string): (r: Read)
    ensures r.Read? ==> |r.rest| <= |t|
  {
    if t != "" && t[0] == '"' then Quoted(t[1..]) else Unquoted(t)
  }

  /** The text up to the next comma, without surrounding white space. */
  function Unquoted(t: string): (r: Read)
    ensures r.Read? ==> |r.rest| <= |t|
  {
    var raw := UpToComma(t);
    var item := Strip(raw);
    if item == "" || '"' in item then Unreadable else Read(item, t[|raw|..])
  }

  function Items(t: string): (r: Option<seq<string>>)
    decreases |t|, 1
  {
    var first := Item(SkipSpaces(t));
    if first.Unreadable? then None else AfterItem(first.name, SkipSpaces(first.rest))
  }

  function AfterItem(item: string, rest: string): (r: Option<seq<string>>)
    decreases |rest|, 0
  {
    if rest == "" then Some([item])
    else if rest[0] != ',' then None
    else Prefixed([item], Items(rest[1..]))
  }

  function Prefixed(items: seq<string>, r: Option<seq<string>>): (p: Option<seq<string>>) {
    match r
    case None => None
    case Some(more) => Some(items + more)
  }

  // -------------------------------------------------------------------------
  // The scanner
  // -------------------------------------------------------------------------

  method SkipFrom(value: string, start: nat) returns (pos: nat)
    requires start <= |value|
    ensures start <= pos <= |value| && value[pos..] == SkipSpaces(value[start..])
  {
    pos := start;
    while pos < |value| && value[pos] == ' '
      invariant start <= pos <= |value|
      invariant SkipSpaces(value[pos..]) == SkipSpaces(value[start..])
    {
      assert value[pos..][1..] == value[pos + 1..];
      pos := pos + 1;
    }
  }

  lemma {:induction false} NoQuoteYet(r: Read)
    ensures AfterQuote("", r) == r
  {
    if r.Read? {
      assert "" + r.name == r.name;
    }
  }

  lemma {:induction false} QuoteStep(out: string, c: char, r: Read)
    ensures AfterQuote(out + [c], r) == AfterQuote(out, AfterQuote([c], r))
  {
    if r.Read? {
      assert (out + [c]) + r.name == out + ([c] + r.name);
    }
  }

  method ScanQuoted(value: string, start: nat) returns (name: Option<string>, pos: nat)
    requires start <= |value|
    ensures start <= pos <= |value|
    ensures name.None? <==> Quoted(value[start..]).Unreadable?
    ensures name.Some? ==> Quoted(value[start..]) == Read(name.value, value[pos..])
  {
    var out := "";
    pos := start;
    NoQuoteYet(Quoted(value[start..]));
    while true
      invariant start <= pos <= |value|
      invariant AfterQuote(out, Quoted(value[pos..])) == Quoted(value[start..])
      decreases |value| - pos
    {
      if pos >= |value| {
        return None, pos;
      }
      ghost var t := value[pos..];
      assert t[1..] == value[pos + 1..];
      QuoteStep(out, value[pos], Quoted(t[1..]));
      if value[pos] == '"' {
        if pos + 1 < |value| && value[pos + 1] == '"' {
          assert t[2..] == value[pos + 2..];
          QuoteStep(out, '"', Quoted(t[2..]));
          out := out + ['"'];
          pos := pos + 2;
          continue;
        }
        pos := pos + 1;
        assert out + "" == out;
        return Some(out), pos;
      }
      out := out + [value[pos]];
      pos := pos + 1;
    }
  }

  lemma {:induction false} FirstComma(t: string, k: nat)
    requires k <= |t| && ',' !in t[..k] && (k < |t| ==> t[k] == ',')
    ensures UpToComma(t) == t[..k]
  {
    if k > 0 {
      assert t[0] == t[..k][0];
      assert t[1..][..k - 1] == t[..k][1..];
      FirstComma(t[1..], k - 1);
    }
  }

  method FindComma(value: string, start: nat) returns (end: nat)
    requires start <= |value|
    ensures start <= end <= |value| && value[start..end] == UpToComma(value[start..])
  {
    end := start;
    while end < |value| && value[end] != ','
      invariant start <= end <= |value|
      invariant ',' !in value[start..end]
    {
      end := end + 1;
    }
    FirstComma(value[start..], end - start);
    assert value[start..][..end - start] == value[start..end];
  }

  method ScanItem(value: string, start: nat) returns (item: Option<string>, pos: nat)
    requires start <= |value|
    ensures start <= pos <= |value|
    ensures item.None? <==> Item(value[start..]).Unreadable?
    ensures item.Some? ==> Item(value[start..]) == Read(item.value, value[pos..])
  {
    if start < |value| && value[start] == '"' {
      assert value[start..][1..] == value[start + 1..];
      item, pos := ScanQuoted(value, start + 1);
    } else {
      item, pos := ScanUnquoted(value, start);
    }
  }

  lemma {:induction false} SliceAt(value: string, start: nat, pos: nat)
    requires start <= pos <= |value|
    ensures value[start..][..pos - start] == value[start..pos] && value[start..][pos - start..] == value[pos..]
  {
  }

  lemma {:induction false} UnquotedAt(t: string, end: nat, text: string)
    requires end <= |t| && t[..end] == UpToComma(t) && text == Strip(t[..end])
    ensures Unquoted(t) == if text == "" || '"' in text then Unreadable else Read(text, t[end..])
  {
  }

  method ScanUnquoted(value: string, start: nat) returns (item: Option<string>, pos: nat)
    requires start <= |value|
    ensures start <= pos <= |value|
    ensures item.None? <==> Unquoted(value[start..]).Unreadable?
    ensures item.Some? ==> Unquoted(value[start..]) == Read(item.value, value[pos..])
  {
    pos := FindComma(value, start);
    var text := Strip(value[start..pos]);
    SliceAt(value, start, pos);
    UnquotedAt(value[start..], pos - start, text);
    item := if text == "" || '"' in text then None else Some(text);
  }

  lemma {:induction false} NoItemYet(r: Option<seq<string>>)
    ensures Prefixed([], r) == r
  {
    if r.Some? {
      assert [] + r.value == r.value;
    }
  }

  lemma {:induction false} ItemsStep(items: seq<string>, item: string, t: string, rest: string)
    requires Item(SkipSpaces(t)).Read? && Item(SkipSpaces(t)).name == item
    requires rest == SkipSpaces(Item(SkipSpaces(t)).rest)
    ensures rest == "" ==> Prefixed(items, Items(t)) == Some(items + [item])
    ensures rest != "" && rest[0] != ',' ==> Prefixed(items, Items(t)) == None
    ensures rest != "" && rest[0] == ',' ==> Prefixed(items, Items(t)) == Prefixed(items + [item], Items(rest[1..]))
  {
    if rest != "" && rest[0] == ',' && Items(rest[1..]).Some? {
      assert items + ([item] + Items(rest[1..]).value) == (items + [item]) + Items(rest[1..]).value;
    }
  }

  /** Spaces, one element, spaces. */
  method NextItem(value: string, start: nat) returns (item: Option<string>, pos: nat)
    requires start <= |value|
    ensures start <= pos <= |value|
    ensures item.None? <==> Item(SkipSpaces(value[start..])).Unreadable?
    ensures item.Some? ==>
              && Item(SkipSpaces(value[start..])).Read? && Item(SkipSpaces(value[start..])).name == item.value
              && value[pos..] == SkipSpaces(Item(SkipSpaces(value[start..])).rest)
  {
    pos := SkipFrom(value, start);
    item, pos := ScanItem(value, pos);
    if item.Some? {
      pos := SkipFrom(value, pos);
    }
  }

  /** parse_search_path: None is the refusal of an unreadable value. */
  method ParseSearchPath(value: string) returns (r: Option<seq<string>>)
    ensures r == Items(value)
  {
    var items: seq<string> := [];
    var pos := 0;
    assert value[0..] == value;
    NoItemYet(Items(value));
    while true
      invariant 0 <= pos <= |value|
      invariant Prefixed(items, Items(value[pos..])) == Items(value)
      decreases |value| - pos
    {
      ghost var start := pos;
      var item;
      item, pos := NextItem(value, pos);
      if item.None? {
        return None;
      }
      StepAt(value, items, item.value, start, pos);
      items := items + [item.value];
      if pos >= |value| {
        return Some(items);
      }
      if value[pos] != ',' {
        return None;
      }
      pos := pos + 1;
    }
  }

  /** What one element decides about the whole text. */
  lemma {:induction false} StepAt(value: string, items: seq<string>, item: string, start: nat, pos: nat)
    requires start <= pos <= |value| && Prefixed(items, Items(value[start..])) == Items(value)
    requires Item(SkipSpaces(value[start..])).Read? && Item(SkipSpaces(value[start..])).name == item
    requires value[pos..] == SkipSpaces(Item(SkipSpaces(value[start..])).rest)
    ensures pos == |value| ==> Items(value) == Some(items + [item])
    ensures pos < |value| && value[pos] != ',' ==> Items(value) == None
    ensures pos < |value| && value[pos] == ',' ==> Prefixed(items + [item], Items(value[pos + 1..])) == Items(value)
  {
    ItemsStep(items, item, value[start..], value[pos..]);
    if pos < |value| {
      assert value[pos..][1..] == value[pos + 1..];
    }
  }

  // -------------------------------------------------------------------------
  // The printers and their round trips
  // -------------------------------------------------------------------------

  function QuotedName(name: string): (text: string) {
    "\"" + Doubled(name) + "\""
  }

  predicate PlainStart(c: char) {
    'a' <= c <= 'z' || c == '_'
  }

  predicate Plain(name: string) {
    && name != "" && PlainStart(name[0])
    && forall c | c in name :: PlainStart(c) || '0' <= c <= '9'
  }

  /** _list_text quotes a name unless it is plain; plan's SET search_path always quotes. */
  function Printed(name: string, always: bool): (text: string) {
    if !always && Plain(name) then name else QuotedName(name)
  }

  function Joined(names: seq<string>, always: bool): (text: string)
    decreases |names|, 0
  {
    if names == [] then "" else Printed(names[0], always) + Tail(names[1..], always)
  }

  function Tail(names: seq<string>, always: bool): (text: string)
    decreases |names|, 1
  {
    if names == [] then "" else ", " + Joined(names, always)
  }

  function ListText(names: seq<string>): (text: string) {
    Joined(names, false)
  }

  lemma {:induction false} QuotedReads(name: string, rest: string)
    requires rest == "" || rest[0] != '"'
    ensures Quoted(Doubled(name) + "\"" + rest) == Read(name, rest)
  {
    var t := Doubled(name) + "\"" + rest;
    if name == "" {
      assert t == "\"" + rest;
      assert t[1..] == rest;
    } else {
      var inner := Doubled(name[1..]) + "\"" + rest;
      QuotedReads(name[1..], rest);
      assert t == (if name[0] == '"' then "\"\"" else [name[0]]) + inner;
      ReadsOne(name[0], inner, t);
      assert [name[0]] + name[1..] == name;
    }
  }

  /** One more written character, doubled when it is a quote, is one more character read. */
  lemma {:induction false} ReadsOne(c: char, inner: string, t: string)
    requires t == (if c == '"' then "\"\"" else [c]) + inner
    ensures Quoted(t) == AfterQuote([c], Quoted(inner))
  {
    if c == '"' {
      assert t[0] == '"' && t[1] == '"' && t[2..] == inner;
    } else {
      assert t[0] == c && t[1..] == inner;
    }
  }

  lemma {:induction false} PlainReads(name: string, rest: string)
    requires ',' !in name && (rest == "" || rest[0] == ',')
    ensures UpToComma(name + rest) == name
  {
    if name != "" {
      PlainReads(name[1..], rest);
      assert (name + rest)[1..] == name[1..] + rest;
    }
  }

  lemma {:induction false} PrintedReads(name: string, always: bool, rest: string)
    requires rest == "" || rest[0] == ','
    ensures Item(SkipSpaces(Printed(name, always) + rest)) == Read(name, rest)
  {
    if !always && Plain(name) {
      PlainItem(name, rest);
    } else {
      QuotedItem(name, rest);
    }
  }

  lemma {:induction false} PlainItem(name: string, rest: string)
    requires Plain(name) && (rest == "" || rest[0] == ',')
    ensures Item(SkipSpaces(name + rest)) == Read(name, rest)
  {
    var t := name + rest;
    assert forall c | c in name :: !IsSpace(c) && c != ',' && c != '"';
    assert name[0] in name && name[|name| - 1] in name;
    PlainReads(name, rest);
    StripKeeps(name);
    assert t[0] == name[0] && t[|name|..] == rest;
  }

  lemma {:induction false} QuotedItem(name: string, rest: string)
    requires rest == "" || rest[0] == ','
    ensures Item(SkipSpaces(QuotedName(name) + rest)) == Read(name, rest)
  {
    var t := QuotedName(name) + rest;
    var tail := Doubled(name) + "\"" + rest;
    assert t == "\"" + tail && t[1..] == tail;
    QuotedReads(name, rest);
  }

  /** Reading undoes both printers, for every non-empty list of arbitrary names. */
  lemma {:induction false} RoundTrip(names: seq<string>, always: bool)
    requires names != []
    ensures Items(Joined(names, always)) == Some(names)
  {
    if names[1..] != [] {
      RoundTrip(names[1..], always);
    }
    RoundTripStep(names[0], names[1..], always);
    assert names == [names[0]] + names[1..];
  }

  lemma {:induction false} RoundTripStep(name: string, more: seq<string>, always: bool)
    requires more != [] ==> Items(Joined(more, always)) == Some(more)
    ensures Items(Printed(name, always) + Tail(more, always)) == Some([name] + more)
  {
    var rest := Tail(more, always);
    ItemsOf(name, always, rest);
    if more != [] {
      TailReads(more, always);
      assert Items(rest[1..]) == Some(more);
    } else {
      assert [name] + more == [name];
    }
  }

  lemma {:induction false} TailReads(more: seq<string>, always: bool)
    requires more != []
    ensures Tail(more, always) != "" && Tail(more, always)[0] == ','
    ensures Items(Tail(more, always)[1..]) == Items(Joined(more, always))
  {
    var t := Joined(more, always);
    assert (", " + t)[1..] == " " + t;
    LeadingSpace(t);
  }

  lemma {:induction false} ItemsOf(name: string, always: bool, rest: string)
    requires rest == "" || rest[0] == ','
    ensures Items(Printed(name, always) + rest)
         == if rest == "" then Some([name]) else Prefixed([name], Items(rest[1..]))
  {
    PrintedReads(name, always, rest);
    assert SkipSpaces(rest) == rest;
  }

  lemma {:induction false} LeadingSpace(t: string)
    ensures Items(" " + t) == Items(t)
  {
    assert (" " + t)[1..] == t;
    assert SkipSpaces(" " + t) == SkipSpaces(t);
  }

  /** Printing is therefore injective: two lists with the same text are the same list. */
  lemma {:induction false} TextDeterminesList(a: seq<string>, b: seq<string>, always: bool)
    requires a != [] && b != [] && Joined(a, always) == Joined(b, always)
    ensures a == b
  {
    RoundTrip(a, always);
    RoundTrip(b, always);
  }
}
