/** The configuration of the disposable PostgreSQL server: its two configuration files, the
    running value of every setting, and the transitions the sandbox drives
    (services/sandbox_poc/runtime.py). Waiting and polling are not part of this model. */
module Postgres {
  import opened Wrappers
  import opened Evidence

  const PRELOAD := "shared_preload_libraries"

  const RESTART_SETTINGS := {"logging_collector", "listen_addresses", PRELOAD}

  /** What the server build fixes: the settings in pg_settings order, the library that defines a setting
      that is not built in, which libraries a preload list loads, the contexts and built-in values, how a
      written text is normalised and how SHOW prints a value. */
  datatype Catalogue = Catalogue(
    names: seq<string>,
    library: string -> Option<string>,
    loads: (string, string) -> bool,
    context: string -> Context,
    boot: string -> string,
    canon: (string, string) -> string,
    shown: (string, string) -> string)
  {
    /** A setting that only a server start can change. */
    predicate AtStart(name: string) {
      context(name) != Reloadable
    }

    /** The settings that pg_settings shows on a server started with this preload list. */
    function Known(list: string): (names: set<string>) {
      set n | n in this.names && (library(n).None? || loads(list, library(n).value))
    }
  }

  ghost predicate ValidCatalogue(cat: Catalogue) {
    && (forall n, v :: cat.canon(n, cat.canon(n, v)) == cat.canon(n, v))
    && (forall n :: n in RESTART_SETTINGS ==> n in cat.names && cat.library(n).None? && cat.context(n) == Postmaster)
  }

  datatype Line = Line(name: string, value: string)

  /** The running value and the file it came from; no file is source 'default'. */
  datatype Running = Running(setting: string, file: Option<File>)

  datatype Server = Server(
    conf: seq<Line>, auto: seq<Line>, running: map<string, Running>, pending: set<string>)

  // -------------------------------------------------------------------------
  // Lines
  // -------------------------------------------------------------------------

  function Last(lines: seq<Line>, name: string): (v: Option<string>)
    ensures v.Some? <==> exists l :: l in lines && l.name == name
    ensures v.Some? ==> Line(name, v.value) in lines
  {
    if lines == [] then None
    else
      assert lines == lines[..|lines| - 1] + [lines[|lines| - 1]];
      if lines[|lines| - 1].name == name then Some(lines[|lines| - 1].value)
      else Last(lines[..|lines| - 1], name)
  }

  function Without(lines: seq<Line>, name: string): (rest: seq<Line>)
    ensures forall l :: l in rest <==> l in lines && l.name != name
  {
    if lines == [] then []
    else if lines[0].name == name then Without(lines[1..], name)
    else [lines[0]] + Without(lines[1..], name)
  }

  ghost predicate UniqueNames(lines: seq<Line>) {
    forall i, j :: 0 <= i < j < |lines| ==> lines[i].name != lines[j].name
  }

  lemma {:induction false} WithoutUnique(lines: seq<Line>, name: string)
    requires UniqueNames(lines)
    ensures UniqueNames(Without(lines, name))
  {
    if lines != [] {
      WithoutUnique(lines[1..], name);
      var rest := Without(lines[1..], name);
      forall k | 0 <= k < |rest| ensures rest[k].name != lines[0].name {
        assert rest[k] in lines[1..];
      }
    }
  }

  lemma {:induction false} LastAppend(lines: seq<Line>, l: Line, name: string)
    ensures Last(lines + [l], name) == if l.name == name then Some(l.value) else Last(lines, name)
  {
    assert (lines + [l])[..|lines|] == lines;
  }

  lemma {:induction false} LastConcat(a: seq<Line>, b: seq<Line>, name: string)
    ensures Last(a + b, name) == if Last(b, name).Some? then Last(b, name) else Last(a, name)
  {
    if b == [] {
      assert a + b == a;
    } else {
      assert (a + b)[..|a + b| - 1] == a + b[..|b| - 1];
      LastConcat(a, b[..|b| - 1], name);
    }
  }

  lemma {:induction false} LastUnique(lines: seq<Line>, l: Line)
    requires UniqueNames(lines) && l in lines
    ensures Last(lines, l.name) == Some(l.value)
  {
    var end := lines[|lines| - 1];
    assert lines == lines[..|lines| - 1] + [end];
    if l != end {
      assert l in lines[..|lines| - 1];
      LastUnique(lines[..|lines| - 1], l);
    }
  }

  lemma {:induction false} LastSet(lines: seq<Line>, name: string, value: string, other: string)
    requires UniqueNames(lines)
    ensures UniqueNames(Without(lines, name) + [Line(name, value)])
    ensures Last(Without(lines, name) + [Line(name, value)], other)
         == if other == name then Some(value) else Last(lines, other)
  {
    WithoutUnique(lines, name);
    LastAppend(Without(lines, name), Line(name, value), other);
    LastReset(lines, name, other);
  }

  lemma {:induction false} LastReset(lines: seq<Line>, name: string, other: string)
    requires UniqueNames(lines)
    ensures UniqueNames(Without(lines, name))
    ensures Last(Without(lines, name), other) == if other == name then None else Last(lines, other)
  {
    WithoutUnique(lines, name);
    var rest := Without(lines, name);
    if other != name && Last(lines, other).Some? {
      LastUnique(rest, Line(other, Last(lines, other).value));
    }
  }

  // -------------------------------------------------------------------------
  // Resolution and transitions
  // -------------------------------------------------------------------------

  /** Last line wins within a file, and postgresql.auto.conf beats postgresql.conf. */
  function Resolve(cat: Catalogue, s: Server, name: string): (r: Running) {
    match Last(s.auto, name)
    case Some(v) => Running(cat.canon(name, v), Some(Auto))
    case None =>
      match Last(s.conf, name)
      case Some(v) => Running(cat.canon(name, v), Some(Conf))
      case None => Running(cat.boot(name), None)
  }

  /** A built-in value has no file and a value from a file is in normal form; the rows are the settings
      that the loaded libraries define. */
  predicate ValidRow(cat: Catalogue, name: string, r: Running) {
    if r.file.None? then r.setting == cat.boot(name) else cat.canon(name, r.setting) == r.setting
  }

  ghost predicate ValidServer(cat: Catalogue, s: Server) {
    && UniqueNames(s.auto)
    && PRELOAD in s.running && s.running.Keys == cat.Known(s.running[PRELOAD].setting)
    && (forall n :: n in s.running ==> ValidRow(cat, n, s.running[n]))
  }

  /** The setting runs with what its files say. */
  predicate Settled(cat: Catalogue, s: Server, name: string)
    requires name in s.running
  {
    s.running[name] == Resolve(cat, s, name)
  }

  /** A row fixed at server start waits for a restart: its value would change, or its line was removed and
      no file holds another one. */
  predicate Waits(resolved: Running, row: Running) {
    resolved.setting != row.setting || (resolved.file.None? && row.file.Some?)
  }

  /** No setting waits for a restart, though one may still carry the row of an older file. */
  ghost predicate NoneWaiting(cat: Catalogue, s: Server) {
    && ValidServer(cat, s) && s.pending == {}
    && (forall n :: n in s.running && cat.AtStart(n) ==> !Waits(Resolve(cat, s, n), s.running[n]))
  }

  /** Nothing waits, and every setting that a reload can change runs what its files say. */
  ghost predicate ReloadSettled(cat: Catalogue, s: Server) {
    && NoneWaiting(cat, s)
    && (forall n :: n in s.running && !cat.AtStart(n) ==> Settled(cat, s, n))
  }

  ghost predicate AllSettled(cat: Catalogue, s: Server) {
    && ValidServer(cat, s)
    && s.pending == {}
    && (forall n :: n in s.running ==> Settled(cat, s, n))
  }

  function AlterSet(s: Server, name: string, value: string): (t: Server) {
    s.(auto := Without(s.auto, name) + [Line(name, value)])
  }

  function AlterReset(s: Server, name: string): (t: Server) {
    s.(auto := Without(s.auto, name))
  }

  /** pg_reload_conf(): settings changeable by reload are re-sourced; the others keep their
      running row and may wait for a restart. */
  function Reload(cat: Catalogue, s: Server): (t: Server) {
    s.(running := map n | n in s.running :: if cat.AtStart(n) then s.running[n] else Resolve(cat, s, n),
       pending := set n | n in s.running && cat.AtStart(n) && Waits(Resolve(cat, s, n), s.running[n]))
  }

  /** A server start: the libraries of the resolved list are loaded and every row is read again. */
  function Restart(cat: Catalogue, s: Server): (t: Server) {
    s.(running := map n | n in cat.Known(Resolve(cat, s, PRELOAD).setting) :: Resolve(cat, s, n), pending := {})
  }

  /** The state DisposablePostgres.activate leaves: it restarts only when something is pending and
      every pending setting is in the reviewed allowlist. */
  function Activated(cat: Catalogue, s: Server): (t: Server) {
    var r := Reload(cat, s);
    if r.pending != {} && r.pending <= RESTART_SETTINGS then Restart(cat, r) else r
  }

  predicate Refuses(cat: Catalogue, s: Server) {
    !(Reload(cat, s).pending <= RESTART_SETTINGS)
  }

  /** _effective: the expected text equals the value in pg_settings.setting or in SHOW form. */
  predicate Effective(cat: Catalogue, s: Server, expected: map<string, string>) {
    forall n | n in expected ::
      && n in s.running
      && (expected[n] == s.running[n].setting || expected[n] == cat.shown(n, s.running[n].setting))
  }

  /** The server the image starts: everything already runs with what the image's file says. */
  function Fresh(cat: Catalogue, image: seq<Line>): (s: Server) {
    Restart(cat, Server(image, [], map[], {}))
  }

  lemma {:induction false} SameResolution(cat: Catalogue, s: Server, t: Server, n: string)
    requires Last(s.conf, n) == Last(t.conf, n) && Last(s.auto, n) == Last(t.auto, n)
    ensures Resolve(cat, s, n) == Resolve(cat, t, n)
  {
  }

  lemma {:induction false} RestartValid(cat: Catalogue, s: Server)
    requires ValidCatalogue(cat) && UniqueNames(s.auto)
    ensures AllSettled(cat, Restart(cat, s))
    ensures Restart(cat, s).running.Keys == cat.Known(Resolve(cat, s, PRELOAD).setting)
    ensures forall n :: n in Restart(cat, s).running ==> Restart(cat, s).running[n] == Resolve(cat, s, n)
  {
    var t := Restart(cat, s);
    forall n | n in t.running ensures Settled(cat, t, n) && ValidRow(cat, n, t.running[n]) {
      SameResolution(cat, t, s, n);
    }
    assert PRELOAD in RESTART_SETTINGS;
  }

  lemma {:induction false} ReloadValid(cat: Catalogue, s: Server)
    requires ValidCatalogue(cat) && ValidServer(cat, s)
    ensures ValidServer(cat, Reload(cat, s))
  {
    assert PRELOAD in RESTART_SETTINGS;
  }

  /** Activation that is not refused: nothing waits any more, the libraries of the resolved list are
      loaded, and each row is read from the files, except that one fixed at server start is kept when
      nothing waited. */
  lemma {:induction false} ActivatedServer(cat: Catalogue, s: Server)
    requires ValidCatalogue(cat) && ValidServer(cat, s) && !Refuses(cat, s)
    ensures var t := Activated(cat, s);
            && ReloadSettled(cat, t) && t.conf == s.conf && t.auto == s.auto
            && t.running.Keys == cat.Known(Resolve(cat, s, PRELOAD).setting)
            && (Reload(cat, s).pending == {} ==> t.running.Keys == s.running.Keys)
            && (forall n :: n in t.running ==> Resolve(cat, t, n) == Resolve(cat, s, n))
            && (forall n :: n in t.running ==>
                  t.running[n] ==
                    if n in s.running && cat.AtStart(n) && Reload(cat, s).pending == {} then s.running[n]
                    else Resolve(cat, s, n))
  {
    var r, t := Reload(cat, s), Activated(cat, s);
    forall n ensures Resolve(cat, r, n) == Resolve(cat, s, n) && Resolve(cat, t, n) == Resolve(cat, s, n) {
      SameResolution(cat, r, s, n);
      SameResolution(cat, t, s, n);
    }
    if r.pending == {} {
      assert PRELOAD in RESTART_SETTINGS && PRELOAD !in r.pending;
      forall n | n in s.running && cat.AtStart(n) ensures !Waits(Resolve(cat, s, n), s.running[n]) {
        assert n !in r.pending;
      }
      ReloadValid(cat, s);
    } else {
      RestartValid(cat, r);
    }
  }

  // -------------------------------------------------------------------------
  // Collected evidence
  // -------------------------------------------------------------------------

  function CollectedFields(cat: Catalogue, s: Server, name: string): (f: Fields)
    requires name in s.running
  {
    var r := s.running[name];
    Fields(r.setting, if r.file.None? then BuiltIn else ConfigFile, r.file, cat.context(name), name in s.pending)
  }

  predicate LaterLine(lines: seq<Line>, i: nat)
    requires i < |lines|
  {
    exists j :: i < j < |lines| && lines[j].name == lines[i].name
  }

  /** pg_file_settings: only the winning line of a name is applied, unless it waits for a restart,
      which PostgreSQL reports as an error of that line. */
  function FileRowAt(cat: Catalogue, s: Server, l: Line, file: File, number: nat, wins: bool): (r: FileRow) {
    var waits := l.name in s.running && cat.AtStart(l.name)
                 && cat.canon(l.name, l.value) != s.running[l.name].setting;
    FileRow(l.name, l.value, file, Some(number), wins && !waits, wins && waits)
  }

  function ConfRow(cat: Catalogue, s: Server, i: nat): (r: FileRow)
    requires i < |s.conf|
  {
    FileRowAt(cat, s, s.conf[i], Conf, i, !LaterLine(s.conf, i) && Last(s.auto, s.conf[i].name).None?)
  }

  function AutoRow(cat: Catalogue, s: Server, i: nat): (r: FileRow)
    requires i < |s.auto|
  {
    FileRowAt(cat, s, s.auto[i], Auto, i, !LaterLine(s.auto, i))
  }

  function FileRows(cat: Catalogue, s: Server): (rows: seq<FileRow>)
    ensures |rows| == |s.conf| + |s.auto|
    ensures forall i :: 0 <= i < |s.conf| ==> rows[i] == ConfRow(cat, s, i)
    ensures forall i :: 0 <= i < |s.auto| ==> rows[|s.conf| + i] == AutoRow(cat, s, i)
  {
    seq(|s.conf|, i requires 0 <= i < |s.conf| => ConfRow(cat, s, i))
    + seq(|s.auto|, i requires 0 <= i < |s.auto| => AutoRow(cat, s, i))
  }

  /** pg_settings: a row for each setting the server knows. */
  function SettingRows(cat: Catalogue, s: Server, names: seq<string>): (rows: seq<SettingRow>) {
    if names == [] then []
    else
      var last := names[|names| - 1];
      SettingRows(cat, s, names[..|names| - 1])
      + if last in s.running then [SettingRow(last, CollectedFields(cat, s, last), false)] else []
  }

  function Collect(cat: Catalogue, s: Server): (snap: Snapshot) {
    Snapshot(SettingRows(cat, s, cat.names), Some(FileRows(cat, s)), [])
  }

  /** catalog_signature read off the server. */
  function Sig(cat: Catalogue, s: Server, names: seq<string>): (sig: Signature) {
    Signature(map n | n in names && n in s.running :: CollectedFields(cat, s, n),
              FileSignature(FileRows(cat, s), names))
  }

  lemma {:induction false} RowsAppend(settings: seq<SettingRow>, row: SettingRow, n: string)
    ensures n in Rows(settings + [row]) <==> n == row.name || n in Rows(settings)
    ensures n in Rows(settings + [row]) ==>
              Rows(settings + [row])[n] == if n == row.name then row else Rows(settings)[n]
  {
    assert (settings + [row])[..|settings|] == settings;
  }

  ghost predicate RowShown(cat: Catalogue, s: Server, n: string, shown: bool, rows: map<string, SettingRow>) {
    && (n in rows <==> shown && n in s.running)
    && (n in rows ==> rows[n] == SettingRow(n, CollectedFields(cat, s, n), false))
  }

  lemma {:induction false} CollectedRows(cat: Catalogue, s: Server, names: seq<string>, n: string)
    ensures RowShown(cat, s, n, n in names, Rows(SettingRows(cat, s, names)))
  {
    if names != [] {
      var rest, last := names[..|names| - 1], names[|names| - 1];
      assert names == rest + [last];
      CollectedRows(cat, s, rest, n);
      if last in s.running {
        RowsAppend(SettingRows(cat, s, rest), SettingRow(last, CollectedFields(cat, s, last), false), n);
      } else {
        assert SettingRows(cat, s, names) == SettingRows(cat, s, rest);
      }
    }
  }

  lemma {:induction false} CollectedRow(cat: Catalogue, s: Server, n: string)
    requires ValidServer(cat, s)
    ensures n in Rows(Collect(cat, s).settings) <==> n in s.running
    ensures n in s.running ==> Rows(Collect(cat, s).settings)[n] == SettingRow(n, CollectedFields(cat, s, n), false)
  {
    CollectedRows(cat, s, cat.names, n);
    assert n in s.running ==> n in cat.Known(s.running[PRELOAD].setting);
  }

  /** The signature computed from collected evidence is the one read off the server; a compared setting
      that the server does not know raises. */
  lemma {:induction false} SignatureOfCollected(cat: Catalogue, s: Server, names: seq<string>)
    requires ValidServer(cat, s)
    ensures CatalogSignature(Collect(cat, s), names) == Some(Sig(cat, s, names))
    ensures SignatureOf(Collect(cat, s), names)
         == if forall n :: n in names ==> n in s.running then Some(Sig(cat, s, names)) else None
  {
    forall n
      ensures n in Rows(Collect(cat, s).settings) <==> n in s.running
      ensures n in s.running ==> Rows(Collect(cat, s).settings)[n].fields == CollectedFields(cat, s, n)
    {
      CollectedRow(cat, s, n);
    }
    SignatureFrom(Collect(cat, s), names, Sig(cat, s, names));
  }

  lemma {:induction false} SignatureFrom(snap: Snapshot, names: seq<string>, sig: Signature)
    requires snap.files.Some? && sig.files == FileSignature(snap.files.value, names)
    requires forall n :: n in sig.settings <==> n in names && n in Rows(snap.settings)
    requires forall n :: n in sig.settings ==> Rows(snap.settings)[n].fields == sig.settings[n]
    ensures CatalogSignature(snap, names) == Some(sig)
  {
    var rows := Rows(snap.settings);
    assert (map n | n in names && n in rows :: rows[n].fields) == sig.settings;
  }

  // -------------------------------------------------------------------------
  // Which file rows a server's signature holds
  // -------------------------------------------------------------------------

  lemma {:induction false} CollectedLastLineWins(cat: Catalogue, s: Server)
    requires UniqueNames(s.auto)
    ensures LastLineWins(FileRows(cat, s))
    ensures forall names :: DistinctKept(FileRows(cat, s), names)
  {
    var rows := FileRows(cat, s);
    forall i, j | 0 <= i < j < |rows| && rows[i].name == rows[j].name
      ensures !((rows[i].applied || rows[i].error) && (rows[j].applied || rows[j].error))
    {
      OneRowWins(cat, s, i, j);
    }
    forall names { LastLineWinsIsDistinct(rows, names); }
  }

  lemma {:induction false} OneRowWins(cat: Catalogue, s: Server, i: nat, j: nat)
    requires UniqueNames(s.auto) && i < j < |FileRows(cat, s)| && FileRows(cat, s)[i].name == FileRows(cat, s)[j].name
    ensures var a, b := FileRows(cat, s)[i], FileRows(cat, s)[j];
            !((a.applied || a.error) && (b.applied || b.error))
  {
    if j < |s.conf| {
      assert LaterLine(s.conf, i);
    } else if i < |s.conf| {
      assert s.auto[j - |s.conf|] in s.auto;
    }
  }

  lemma {:induction false} RowAt(cat: Catalogue, s: Server, k: nat)
    requires k < |s.conf| + |s.auto|
    ensures var r := FileRows(cat, s)[k];
            && r.line == Some(if k < |s.conf| then k else k - |s.conf|)
            && (r.file == Conf <==> k < |s.conf|) && (r.file == Auto <==> k >= |s.conf|)
            && r.name == (if k < |s.conf| then s.conf[k] else s.auto[k - |s.conf|]).name
    ensures FileRows(cat, s)[k].applied ==>
              !LaterLine(if k < |s.conf| then s.conf else s.auto, if k < |s.conf| then k else k - |s.conf|)
  {
  }

  /** In a server's own evidence the applied line of a name is the last one of its file. */
  lemma {:induction false} CollectedAppliedIsLast(cat: Catalogue, s: Server)
    ensures AppliedIsLast(FileRows(cat, s))
  {
    var rows := FileRows(cat, s);
    forall r | r in rows && r.applied ensures IsLastLine(rows, r, r.name, r.file) {
      var i :| 0 <= i < |rows| && rows[i] == r;
      RowAt(cat, s, i);
      forall o | o in rows && o.name == r.name && o.file == r.file ensures o.line.value <= r.line.value {
        var j :| 0 <= j < |rows| && rows[j] == o;
        RowAt(cat, s, j);
      }
    }
  }

  /** No line of a compared name waits for a restart. */
  ghost predicate NoWaiting(cat: Catalogue, s: Server, names: seq<string>) {
    forall n :: n in names && n in s.running && cat.AtStart(n) ==> Resolve(cat, s, n).setting == s.running[n].setting
  }

  /** What a signature's file part says of one line, read directly from the two files. */
  ghost predicate Describes(s: Server, names: seq<string>, x: FileSig) {
    && x.name in names && !x.error
    && match x.file
       case Conf =>
         && Line(x.name, x.setting) in s.conf
         && (x.applied <==> Last(s.conf, x.name) == Some(x.setting) && Last(s.auto, x.name).None?)
       case Auto => Line(x.name, x.setting) in s.auto && x.applied
       case OtherFile(_) => false
  }

  lemma {:induction false} LastLineIndex(lines: seq<Line>, name: string) returns (i: nat)
    requires Last(lines, name).Some?
    ensures i < |lines| && lines[i] == Line(name, Last(lines, name).value) && !LaterLine(lines, i)
  {
    var end := |lines| - 1;
    if lines[end].name == name {
      i := end;
    } else {
      i := LastLineIndex(lines[..end], name);
      assert lines[..end][i] == lines[i];
    }
  }

  lemma {:induction false} NoLaterIsLast(lines: seq<Line>, i: nat)
    requires i < |lines| && !LaterLine(lines, i)
    ensures Last(lines, lines[i].name) == Some(lines[i].value)
  {
    assert lines[i] in lines;
    var k := LastLineIndex(lines, lines[i].name);
    LaterOrSame(lines, i, k);
  }

  lemma {:induction false} LaterOrSame(lines: seq<Line>, i: nat, k: nat)
    requires i < |lines| && k < |lines| && lines[i].name == lines[k].name
    requires !LaterLine(lines, i) && !LaterLine(lines, k)
    ensures i == k
  {
  }

  lemma {:induction false} ConfRowFlags(cat: Catalogue, s: Server, names: seq<string>, i: nat)
    requires NoWaiting(cat, s, names) && i < |s.conf| && s.conf[i].name in names
    ensures !ConfRow(cat, s, i).error
    ensures ConfRow(cat, s, i).applied ==> Last(s.conf, s.conf[i].name) == Some(s.conf[i].value)
    ensures ConfRow(cat, s, i).applied <==> !LaterLine(s.conf, i) && Last(s.auto, s.conf[i].name).None?
  {
    if !LaterLine(s.conf, i) {
      NoLaterIsLast(s.conf, i);
    }
  }

  lemma {:induction false} AutoRowFlags(cat: Catalogue, s: Server, names: seq<string>, i: nat)
    requires UniqueNames(s.auto) && NoWaiting(cat, s, names) && i < |s.auto| && s.auto[i].name in names
    ensures !AutoRow(cat, s, i).error && AutoRow(cat, s, i).applied
  {
    NoLaterIsLast(s.auto, i);
  }

  lemma {:induction false} KeptIsDescribed(cat: Catalogue, s: Server, names: seq<string>, i: nat, x: FileSig)
    requires UniqueNames(s.auto) && NoWaiting(cat, s, names)
    requires KeptAt(FileRows(cat, s), names, i, x)
    ensures Describes(s, names, x)
  {
    var rows := FileRows(cat, s);
    if i < |s.conf| {
      ConfRowFlags(cat, s, names, i);
      if Last(s.conf, x.name) == Some(x.setting) && Last(s.auto, x.name).None? {
        var k := LastLineIndex(s.conf, x.name);
        ConfRowFlags(cat, s, names, k);
        ShadowedBy(rows, i, k);
      }
    } else {
      AutoRowFlags(cat, s, names, i - |s.conf|);
    }
  }

  lemma {:induction false} DescribedIsKept(cat: Catalogue, s: Server, names: seq<string>, x: FileSig)
    requires UniqueNames(s.auto) && NoWaiting(cat, s, names)
    requires Describes(s, names, x)
    ensures Kept(FileRows(cat, s), names, x)
  {
    var rows := FileRows(cat, s);
    CollectedLastLineWins(cat, s);
    var i: nat;
    if x.file == Conf {
      i :| 0 <= i < |s.conf| && s.conf[i] == Line(x.name, x.setting);
      ConfRowFlags(cat, s, names, i);
    } else {
      var j :| 0 <= j < |s.auto| && s.auto[j] == Line(x.name, x.setting);
      AutoRowFlags(cat, s, names, j);
      i := |s.conf| + j;
    }
    var k := KeptRepresentative(rows, i);
    var y := Projection(rows[k]);
    assert KeptAt(rows, names, k, y);
    KeptIsDescribed(cat, s, names, k, y);
    assert y == x;
  }

  /** Read from a server's filtered evidence, a name resolves to the line that decides it, and without the
      other file's line to the last one of each file. */
  lemma {:induction false} FilteredEvidence(cat: Catalogue, s: Server, names: seq<string>, n: string, v: string)
    requires UniqueNames(s.auto) && NoWaiting(cat, s, names) && n in names
    ensures var kept := Filtered(FileRows(cat, s));
            && (ResolvesTo(kept, n, v) <==>
                  (if Last(s.auto, n).Some? then Last(s.auto, n) else Last(s.conf, n)) == Some(v))
            && (FallsBackTo(kept, n, Conf, v) <==> Last(s.conf, n) == Some(v))
            && (FallsBackTo(kept, n, Auto, v) <==> Last(s.auto, n) == Some(v))
  {
    CollectedLastLineWins(cat, s);
    CollectedAppliedIsLast(cat, s);
    FilterPreservesResolution(FileRows(cat, s), n, Conf, v);
    FilterPreservesResolution(FileRows(cat, s), n, Auto, v);
    ResolvedLine(cat, s, names, n, v);
    LastOfConf(cat, s, names, n, v);
    LastOfAuto(cat, s, names, n, v);
  }

  lemma {:induction false} ResolvedLine(cat: Catalogue, s: Server, names: seq<string>, n: string, v: string)
    requires UniqueNames(s.auto) && NoWaiting(cat, s, names) && n in names
    ensures ResolvesTo(FileRows(cat, s), n, v) <==>
              (if Last(s.auto, n).Some? then Last(s.auto, n) else Last(s.conf, n)) == Some(v)
  {
    var rows := FileRows(cat, s);
    if ResolvesTo(rows, n, v) {
      var r :| r in rows && r.name == n && r.applied && r.setting == v;
      var k :| 0 <= k < |rows| && rows[k] == r;
      AppliedDecides(cat, s, names, k);
    }
    if Last(s.auto, n) == Some(v) {
      AutoDecides(cat, s, names, n, v);
    } else if Last(s.auto, n).None? && Last(s.conf, n) == Some(v) {
      ConfDecides(cat, s, names, n, v);
    }
  }

  lemma {:induction false} AppliedDecides(cat: Catalogue, s: Server, names: seq<string>, k: nat)
    requires UniqueNames(s.auto) && NoWaiting(cat, s, names) && k < |s.conf| + |s.auto|
    requires FileRows(cat, s)[k].applied && FileRows(cat, s)[k].name in names
    ensures var r := FileRows(cat, s)[k];
            (if Last(s.auto, r.name).Some? then Last(s.auto, r.name) else Last(s.conf, r.name)) == Some(r.setting)
  {
    if k < |s.conf| {
      ConfRowFlags(cat, s, names, k);
    } else {
      LastUnique(s.auto, s.auto[k - |s.conf|]);
    }
  }

  lemma {:induction false} AutoDecides(cat: Catalogue, s: Server, names: seq<string>, n: string, v: string)
    requires UniqueNames(s.auto) && NoWaiting(cat, s, names) && n in names && Last(s.auto, n) == Some(v)
    ensures ResolvesTo(FileRows(cat, s), n, v)
  {
    var i := LastLineIndex(s.auto, n);
    AutoRowFlags(cat, s, names, i);
    assert FileRows(cat, s)[|s.conf| + i] in FileRows(cat, s);
  }

  lemma {:induction false} ConfDecides(cat: Catalogue, s: Server, names: seq<string>, n: string, v: string)
    requires NoWaiting(cat, s, names) && n in names && Last(s.auto, n).None? && Last(s.conf, n) == Some(v)
    ensures ResolvesTo(FileRows(cat, s), n, v)
  {
    var i := LastLineIndex(s.conf, n);
    ConfRowFlags(cat, s, names, i);
    assert FileRows(cat, s)[i] in FileRows(cat, s);
  }

  lemma {:induction false} LastOfConf(cat: Catalogue, s: Server, names: seq<string>, n: string, v: string)
    requires NoWaiting(cat, s, names) && n in names
    ensures FallsBackTo(FileRows(cat, s), n, Conf, v) <==> Last(s.conf, n) == Some(v)
  {
    var rows := FileRows(cat, s);
    if FallsBackTo(rows, n, Conf, v) || Last(s.conf, n) == Some(v) {
      if FallsBackTo(rows, n, Conf, v) {
        var r :| r in rows && IsLastLine(rows, r, n, Conf) && r.setting == v;
        var k :| 0 <= k < |rows| && rows[k] == r;
        RowAt(cat, s, k);
        assert s.conf[k] in s.conf;
      }
      var i := LastLineIndex(s.conf, n);
      ConfLineIsLast(cat, s, names, i);
      OneLastLine(cat, s, n, Conf, rows[i]);
    }
  }

  lemma {:induction false} ConfLineIsLast(cat: Catalogue, s: Server, names: seq<string>, i: nat)
    requires NoWaiting(cat, s, names) && i < |s.conf| && s.conf[i].name in names && !LaterLine(s.conf, i)
    ensures IsLastLine(FileRows(cat, s), FileRows(cat, s)[i], s.conf[i].name, Conf)
  {
    var rows := FileRows(cat, s);
    ConfRowFlags(cat, s, names, i);
    forall o | o in rows && o.name == s.conf[i].name && o.file == Conf ensures o.line.value <= i {
      var j :| 0 <= j < |rows| && rows[j] == o;
      RowAt(cat, s, j);
    }
  }

  lemma {:induction false} OneLastLine(cat: Catalogue, s: Server, n: string, file: File, top: FileRow)
    requires file in {Conf, Auto} && top in FileRows(cat, s) && IsLastLine(FileRows(cat, s), top, n, file)
    ensures forall r :: r in FileRows(cat, s) && IsLastLine(FileRows(cat, s), r, n, file) ==> r == top
  {
    var rows := FileRows(cat, s);
    var i :| 0 <= i < |rows| && rows[i] == top;
    RowAt(cat, s, i);
    forall r | r in rows && IsLastLine(rows, r, n, file) ensures r == top {
      var j :| 0 <= j < |rows| && rows[j] == r;
      RowAt(cat, s, j);
      assert r.line == top.line;
    }
  }

  lemma {:induction false} LastOfAuto(cat: Catalogue, s: Server, names: seq<string>, n: string, v: string)
    requires UniqueNames(s.auto) && NoWaiting(cat, s, names) && n in names
    ensures FallsBackTo(FileRows(cat, s), n, Auto, v) <==> Last(s.auto, n) == Some(v)
  {
    var rows := FileRows(cat, s);
    if FallsBackTo(rows, n, Auto, v) {
      var r :| r in rows && IsLastLine(rows, r, n, Auto) && r.setting == v;
      var k :| 0 <= k < |rows| && rows[k] == r;
      RowAt(cat, s, k);
      LastUnique(s.auto, s.auto[k - |s.conf|]);
    }
    if Last(s.auto, n) == Some(v) {
      var i := LastLineIndex(s.auto, n);
      AutoRowFlags(cat, s, names, i);
      CollectedAppliedIsLast(cat, s);
      assert rows[|s.conf| + i] in rows;
    }
  }

  /** Two servers show the same of the compared names: the same rows, the same text in
      postgresql.auto.conf, and the same values and the same last line in postgresql.conf. */
  ghost predicate SameLines(s: Server, t: Server, names: seq<string>) {
    && (forall n :: n in names ==> Last(s.auto, n) == Last(t.auto, n) && Last(s.conf, n) == Last(t.conf, n))
    && (forall n, v :: n in names ==> (Line(n, v) in s.conf <==> Line(n, v) in t.conf))
  }

  ghost predicate SameRunning(s: Server, t: Server, names: seq<string>) {
    forall n :: n in names ==>
      && (n in s.running <==> n in t.running) && (n in s.pending <==> n in t.pending)
      && (n in s.running ==> s.running[n] == t.running[n])
  }

  /** A server's signature depends only on the lines of postgresql.conf, on what each name has in
      postgresql.auto.conf and on the running rows of the compared names. */
  lemma {:induction false} SigDependsOn(cat: Catalogue, s: Server, t: Server, names: seq<string>)
    requires UniqueNames(s.auto) && UniqueNames(t.auto)
    requires NoWaiting(cat, s, names) && NoWaiting(cat, t, names)
    requires SameRunning(s, t, names) && SameLines(s, t, names)
    ensures Sig(cat, s, names) == Sig(cat, t, names)
  {
    SameFiles(cat, s, t, names);
    SameFields(cat, s, t, names);
  }

  lemma {:induction false} SameFields(cat: Catalogue, s: Server, t: Server, names: seq<string>)
    requires SameRunning(s, t, names)
    ensures Sig(cat, s, names).settings == Sig(cat, t, names).settings
  {
    forall n | n in names && n in s.running ensures CollectedFields(cat, s, n) == CollectedFields(cat, t, n) {
    }
  }

  lemma {:induction false} SameFiles(cat: Catalogue, s: Server, t: Server, names: seq<string>)
    requires UniqueNames(s.auto) && UniqueNames(t.auto)
    requires NoWaiting(cat, s, names) && NoWaiting(cat, t, names) && SameLines(s, t, names)
    ensures FileSignature(FileRows(cat, s), names) == FileSignature(FileRows(cat, t), names)
  {
    forall x ensures Kept(FileRows(cat, s), names, x) <==> Kept(FileRows(cat, t), names, x) {
      SameDescribed(s, t, names, x);
      KeptOrDescribed(cat, s, names, x);
      KeptOrDescribed(cat, t, names, x);
    }
    CollectedLastLineWins(cat, s);
    CollectedLastLineWins(cat, t);
    SameFileSignature(FileRows(cat, s), FileRows(cat, t), names);
  }

  lemma {:induction false} KeptOrDescribed(cat: Catalogue, s: Server, names: seq<string>, x: FileSig)
    requires UniqueNames(s.auto) && NoWaiting(cat, s, names)
    ensures Kept(FileRows(cat, s), names, x) <==> Describes(s, names, x)
  {
    if Kept(FileRows(cat, s), names, x) {
      var i: nat :| KeptAt(FileRows(cat, s), names, i, x);
      KeptIsDescribed(cat, s, names, i, x);
    }
    if Describes(s, names, x) {
      DescribedIsKept(cat, s, names, x);
    }
  }

  lemma {:induction false} SameDescribed(s: Server, t: Server, names: seq<string>, x: FileSig)
    requires UniqueNames(s.auto) && UniqueNames(t.auto)
    requires SameLines(s, t, names)
    ensures Describes(s, names, x) <==> Describes(t, names, x)
  {
    if x.name in names {
      AutoLine(s.auto, x.name, x.setting);
      AutoLine(t.auto, x.name, x.setting);
    }
  }

  lemma {:induction false} AutoLine(lines: seq<Line>, name: string, value: string)
    requires UniqueNames(lines)
    ensures Line(name, value) in lines <==> Last(lines, name) == Some(value)
  {
    if Line(name, value) in lines {
      LastUnique(lines, Line(name, value));
    }
  }

  // -------------------------------------------------------------------------
  // The sandbox server
  // -------------------------------------------------------------------------

  datatype Activation = Active | RestartRefused | NotEffective

  /** A run-owned server: every method changes its files or its running settings in place. */
  class DisposablePostgres {
    const cat: Catalogue
    var conf: seq<Line>
    var auto: seq<Line>
    var running: map<string, Running>
    var pending: set<string>

    function View(): (s: Server)
      reads this
    {
      Server(conf, auto, running, pending)
    }

    /** A freshly started server: the image's postgresql.conf and an empty postgresql.auto.conf. */
    constructor (cat: Catalogue, image: seq<Line>)
      ensures this.cat == cat && View() == Fresh(cat, image)
    {
      this.cat := cat;
      conf := image;
      auto := [];
      running := Fresh(cat, image).running;
      pending := {};
    }

    /** Appends to postgresql.conf but replaces postgresql.auto.conf. */
    method WriteConfig(file: File, lines: seq<Line>) returns (written: bool)
      modifies this
      ensures written <==> file in {Conf, Auto}
      ensures View() == match file
                        case Conf => old(View()).(conf := old(conf) + lines)
                        case Auto => old(View()).(auto := lines)
                        case OtherFile(_) => old(View())
    {
      written := file == Conf || file == Auto;
      if file == Conf {
        conf := conf + lines;
      } else if file == Auto {
        auto := lines;
      }
    }

    method AlterSystemSet(name: string, value: string)
      modifies this
      ensures View() == AlterSet(old(View()), name, value)
    {
      auto := Without(auto, name) + [Line(name, value)];
    }

    method AlterSystemReset(name: string)
      modifies this
      ensures View() == AlterReset(old(View()), name)
    {
      auto := Without(auto, name);
    }

    method ReloadConfiguration()
      modifies this
      ensures View() == Reload(cat, old(View()))
    {
      var next := Reload(cat, View());
      running, pending := next.running, next.pending;
    }

    method RestartServer()
      modifies this
      ensures View() == Restart(cat, old(View()))
    {
      running := Restart(cat, View()).running;
      pending := {};
    }

    /** activate: reload, restart once if only reviewed settings wait for it, then compare values. */
    method Activate(expected: map<string, string>) returns (r: Activation)
      modifies this
      ensures View() == Activated(cat, old(View()))
      ensures r == RestartRefused <==> Refuses(cat, old(View()))
      ensures r == Active <==> !Refuses(cat, old(View())) && Effective(cat, View(), expected)
    {
      ReloadConfiguration();
      if pending != {} {
        if !(pending <= RESTART_SETTINGS) {
          return RestartRefused;
        }
        RestartServer();
      }
      return if Effective(cat, View(), expected) then Active else NotEffective;
    }
  }
}
