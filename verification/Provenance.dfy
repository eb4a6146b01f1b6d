/** Reconstruction of the source's configuration in a fresh sandbox
    (services/sandbox_poc/provenance.py). */
module Provenance {
  import opened Wrappers
  import opened Evidence
  import opened Postgres

  datatype Plan = Plan(
    names: seq<string>, entries: seq<FileRow>, expected: map<string, string>, signature: Signature)

  datatype Refusal =
    | DuplicateRows | MissingRows | MissingFiles | Gapped | BadEntry | BadValue
    | PendingOrSanitised(name: string) | UnsupportedContext(name: string) | InconsistentDefault(name: string)
    | MissingFileProvenance(name: string) | UnsupportedSource(name: string) | TextualAlias(name: string)

  /** Gap records that only qualify catalog evidence do not block the sandbox (shared.py). */
  const EXEMPT_GAPS := {"functions", "archiving", "connections.tls"}

  function BlockingGaps(gaps: seq<string>): (blocking: seq<string>) {
    if gaps == [] then []
    else (if gaps[0] in EXEMPT_GAPS then [] else [gaps[0]]) + BlockingGaps(gaps[1..])
  }

  function Selected(files: seq<FileRow>, names: seq<string>): (entries: seq<FileRow>) {
    if files == [] then []
    else (if files[0].name in names then [files[0]] else []) + Selected(files[1..], names)
  }

  lemma {:induction false} SelectedMember(files: seq<FileRow>, names: seq<string>, e: FileRow)
    ensures e in Selected(files, names) <==> e in files && e.name in names
  {
    if files != [] {
      SelectedMember(files[1..], names, e);
      assert files == [files[0]] + files[1..];
    }
  }

  predicate PlainValue(value: string) {
    '\n' !in value && '\r' !in value && '\0' !in value
  }

  predicate EntryOk(e: FileRow) {
    e.file in {Conf, Auto} && !e.error && PlainValue(e.setting)
  }

  ghost predicate OneEntryPerFile(entries: seq<FileRow>) {
    forall i, j :: 0 <= i < j < |entries| ==> entries[i].file != entries[j].file || entries[i].name != entries[j].name
  }

  predicate RowOk(row: SettingRow, entries: seq<FileRow>) {
    && !row.sanitised && !row.fields.pendingRestart
    && row.fields.context != Internal
    && (row.fields.context == Postmaster ==> row.name in RESTART_SETTINGS)
    && match row.fields.source
       case BuiltIn => row.fields.sourcefile.None? && !HasEntry(entries, row.name)
       case ConfigFile =>
         && row.fields.sourcefile.Some? && row.fields.sourcefile.value in {Conf, Auto}
         && HasEntryIn(entries, row.name, row.fields.sourcefile.value)
       case OtherSource => false
  }

  predicate HasEntry(entries: seq<FileRow>, name: string) {
    exists e :: e in entries && e.name == name
  }

  predicate HasEntryIn(entries: seq<FileRow>, name: string, file: File) {
    exists e :: e in entries && e.name == name && e.file == file
  }

  /** A value in postgresql.auto.conf must be written exactly as pg_settings shows it. */
  ghost predicate CanonicalAuto(row: SettingRow, entries: seq<FileRow>) {
    row.fields.sourcefile == Some(Auto) ==>
      forall e :: e in entries && e.name == row.name && e.file == Auto ==> e.setting == row.fields.setting
  }

  /** Everything reconstruction_plan demands of the source evidence. */
  ghost predicate Accepts(snapshot: Snapshot, names: seq<string>) {
    var rows := Rows(snapshot.settings);
    && |rows| == |snapshot.settings|
    && (forall n :: n in names ==> n in rows)
    && snapshot.files.Some?
    && BlockingGaps(snapshot.gaps) == []
    && var entries := Selected(snapshot.files.value, names);
    && (forall e :: e in entries ==> EntryOk(e))
    && OneEntryPerFile(entries)
    && (forall n :: n in names ==> RowOk(rows[n], entries) && CanonicalAuto(rows[n], entries))
  }

  function PlanFor(snapshot: Snapshot, names: seq<string>): (plan: Plan)
    requires SignatureOf(snapshot, names).Some?
  {
    var rows := Rows(snapshot.settings);
    Plan(names, Selected(snapshot.files.value, names),
         map n | n in names :: rows[n].fields.setting, SignatureOf(snapshot, names).value)
  }

  /** The first refusal a row meets, in the order of the checks. */
  function RowRefusal(row: SettingRow, entries: seq<FileRow>, seen: set<(File, string)>): (r: Option<Refusal>)
    requires forall f, n :: (f, n) in seen <==> HasEntryIn(entries, n, f)
    requires forall e :: e in entries ==> e.file in {Conf, Auto}
    ensures r.None? <==> RowOk(row, entries)
  {
    var f := row.fields;
    if row.sanitised || f.pendingRestart then Some(PendingOrSanitised(row.name))
    else if f.context == Internal || (f.context == Postmaster && row.name !in RESTART_SETTINGS) then
      Some(UnsupportedContext(row.name))
    else match f.source
      case BuiltIn =>
        assert HasEntry(entries, row.name) <==> exists e :: e in entries && e.name == row.name;
        if f.sourcefile.Some? || HasEntry(entries, row.name) then Some(InconsistentDefault(row.name)) else None
      case ConfigFile =>
        if f.sourcefile.None? || f.sourcefile.value !in {Conf, Auto} || (f.sourcefile.value, row.name) !in seen
        then Some(MissingFileProvenance(row.name)) else None
      case OtherSource => Some(UnsupportedSource(row.name))
  }

  method FirstAuto(entries: seq<FileRow>, name: string) returns (value: string)
    requires HasEntryIn(entries, name, Auto)
    ensures exists e :: e in entries && e.name == name && e.file == Auto && e.setting == value
  {
    for i := 0 to |entries|
      invariant forall k :: 0 <= k < i ==> entries[k].name != name || entries[k].file != Auto
    {
      if entries[i].name == name && entries[i].file == Auto {
        return entries[i].setting;
      }
    }
  }

  lemma {:induction false} RepeatedEntry(entries: seq<FileRow>, i: nat)
    requires i < |entries| && HasEntryIn(entries[..i], entries[i].name, entries[i].file)
    ensures !OneEntryPerFile(entries)
  {
    var e :| e in entries[..i] && e.name == entries[i].name && e.file == entries[i].file;
    var k :| 0 <= k < i && entries[..i][k] == e;
    assert entries[k].file == entries[i].file && entries[k].name == entries[i].name;
  }

  lemma {:induction false} OneMoreEntry(entries: seq<FileRow>, i: nat)
    requires i < |entries| && OneEntryPerFile(entries[..i])
    requires !HasEntryIn(entries[..i], entries[i].name, entries[i].file)
    ensures OneEntryPerFile(entries[..i + 1])
    ensures forall f, n :: HasEntryIn(entries[..i + 1], n, f) <==>
                             HasEntryIn(entries[..i], n, f) || (f, n) == (entries[i].file, entries[i].name)
  {
    assert entries[..i + 1] == entries[..i] + [entries[i]];
    forall k | 0 <= k < i ensures entries[k].file != entries[i].file || entries[k].name != entries[i].name {
      assert entries[..i][k] in entries[..i];
    }
  }

  /** The entry checks; the result is the set of (file, name) pairs that have a line. */
  method CheckEntries(entries: seq<FileRow>) returns (r: Result<set<(File, string)>, Refusal>)
    ensures r.Ok? <==> (forall e :: e in entries ==> EntryOk(e)) && OneEntryPerFile(entries)
    ensures r.Ok? ==> forall f, n :: (f, n) in r.value <==> HasEntryIn(entries, n, f)
  {
    var seen: set<(File, string)> := {};
    for i := 0 to |entries|
      invariant forall f, n :: (f, n) in seen <==> HasEntryIn(entries[..i], n, f)
      invariant forall k :: 0 <= k < i ==> EntryOk(entries[k])
      invariant OneEntryPerFile(entries[..i])
    {
      var e := entries[i];
      assert e in entries;
      if (e.file, e.name) in seen {
        RepeatedEntry(entries, i);
        return Err(BadEntry);
      }
      if e.file !in {Conf, Auto} || e.error {
        assert !EntryOk(e);
        return Err(BadEntry);
      }
      seen := seen + {(e.file, e.name)};
      if !PlainValue(e.setting) {
        assert !EntryOk(e);
        return Err(BadValue);
      }
      OneMoreEntry(entries, i);
    }
    assert entries[..|entries|] == entries;
    return Ok(seen);
  }

  method CheckRows(rows: map<string, SettingRow>, names: seq<string>, entries: seq<FileRow>,
                   seen: set<(File, string)>) returns (refusal: Option<Refusal>)
    requires forall n :: n in names ==> n in rows
    requires forall f, n :: (f, n) in seen <==> HasEntryIn(entries, n, f)
    requires forall e :: e in entries ==> e.file in {Conf, Auto}
    ensures refusal.None? <==> forall n :: n in names ==> RowOk(rows[n], entries)
  {
    for i := 0 to |names|
      invariant forall k :: 0 <= k < i ==> RowOk(rows[names[k]], entries)
    {
      refusal := RowRefusal(rows[names[i]], entries, seen);
      if refusal.Some? {
        assert names[i] in names;
        return;
      }
    }
    refusal := None;
  }

  method CheckAliases(rows: map<string, SettingRow>, names: seq<string>, entries: seq<FileRow>)
    returns (refusal: Option<Refusal>)
    requires forall n :: n in names ==> n in rows && rows[n].name == n && RowOk(rows[n], entries)
    requires OneEntryPerFile(entries)
    ensures refusal.None? <==> forall n :: n in names ==> CanonicalAuto(rows[n], entries)
  {
    for i := 0 to |names|
      invariant forall k :: 0 <= k < i ==> CanonicalAuto(rows[names[k]], entries)
    {
      var n := names[i];
      if rows[n].fields.sourcefile == Some(Auto) {
        var original := FirstAuto(entries, n);
        if original != rows[n].fields.setting {
          assert n in names;
          return Some(TextualAlias(n));
        }
      }
    }
    refusal := None;
  }

  /** reconstruction_plan. */
  method ReconstructionPlan(snapshot: Snapshot, names: seq<string>) returns (r: Result<Plan, Refusal>)
    ensures r.Ok? <==> Accepts(snapshot, names)
    ensures r.Ok? ==> SignatureOf(snapshot, names).Some? && r.value == PlanFor(snapshot, names)
  {
    var rows := Rows(snapshot.settings);
    if |rows| != |snapshot.settings| {
      return Err(DuplicateRows);
    }
    if exists n | n in names :: n !in rows {
      return Err(MissingRows);
    }
    if snapshot.files.None? {
      return Err(MissingFiles);
    }
    if BlockingGaps(snapshot.gaps) != [] {
      return Err(Gapped);
    }
    var entries := Selected(snapshot.files.value, names);
    var checked := CheckEntries(entries);
    if checked.Err? {
      return Err(checked.error);
    }
    var refusal := CheckRows(rows, names, entries, checked.value);
    if refusal.Some? {
      return Err(refusal.value);
    }
    forall n | n in names ensures rows[n].name == n { RowName(snapshot.settings, n); }
    refusal := CheckAliases(rows, names, entries);
    if refusal.Some? {
      return Err(refusal.value);
    }
    return Ok(PlanFor(snapshot, names));
  }

  lemma {:induction false} RowName(settings: seq<SettingRow>, name: string)
    requires name in Rows(settings)
    ensures Rows(settings)[name].name == name
  {
    if settings != [] && settings[|settings| - 1].name != name {
      RowName(settings[..|settings| - 1], name);
    }
  }

  // -------------------------------------------------------------------------
  // Reconstruction
  // -------------------------------------------------------------------------

  function LinesFor(entries: seq<FileRow>, file: File): (lines: seq<Line>)
    ensures forall l :: l in lines <==> exists e :: e in entries && e.file == file && Line(e.name, e.setting) == l
  {
    if entries == [] then []
    else
      (if entries[0].file == file then [Line(entries[0].name, entries[0].setting)] else [])
      + LinesFor(entries[1..], file)
  }

  function Written(s: Server, plan: Plan): (t: Server) {
    s.(conf := s.conf + LinesFor(plan.entries, Conf), auto := LinesFor(plan.entries, Auto))
  }

  /** restart_candidates: reviewed restart settings whose line was written. */
  predicate Candidate(plan: Plan, name: string) {
    name in plan.names && name in RESTART_SETTINGS && HasEntry(plan.entries, name)
  }

  /** restart_needed: a candidate whose live source or source file still differs from the plan. */
  predicate RestartNeeded(cat: Catalogue, s: Server, plan: Plan)
    requires forall n :: n in plan.names ==> n in plan.signature.settings
  {
    exists n | n in plan.names && Candidate(plan, n) ::
      || n !in s.running
      || CollectedFields(cat, s, n).source != plan.signature.settings[n].source
      || CollectedFields(cat, s, n).sourcefile != plan.signature.settings[n].sourcefile
  }

  datatype Failure = Refused | NotEffectiveInTime

  /** What reconstruct leaves: the server, or the activation error it raised. */
  function Reconstructed(cat: Catalogue, s: Server, plan: Plan): (r: Result<Server, Failure>)
    requires forall n :: n in plan.names ==> n in plan.signature.settings
  {
    var written := Written(s, plan);
    var once := Activated(cat, written);
    if Refuses(cat, written) then Err(Refused)
    else if !Effective(cat, once, plan.expected) then Err(NotEffectiveInTime)
    else if !RestartNeeded(cat, once, plan) then Ok(once)
    else
      var again := Activated(cat, Restart(cat, once));
      if Refuses(cat, Restart(cat, once)) then Err(Refused)
      else if !Effective(cat, again, plan.expected) then Err(NotEffectiveInTime)
      else Ok(again)
  }

  /** reconstruct, driving the sandbox server step by step. */
  method Reconstruct(runtime: DisposablePostgres, plan: Plan) returns (failure: Option<Failure>)
    requires forall n :: n in plan.names ==> n in plan.signature.settings
    modifies runtime
    ensures failure.None? <==> Reconstructed(runtime.cat, old(runtime.View()), plan).Ok?
    ensures failure.None? ==> runtime.View() == Reconstructed(runtime.cat, old(runtime.View()), plan).value
    ensures failure.Some? ==> Reconstructed(runtime.cat, old(runtime.View()), plan) == Err(failure.value)
  {
    var _ := runtime.WriteConfig(Conf, LinesFor(plan.entries, Conf));
    var _ := runtime.WriteConfig(Auto, LinesFor(plan.entries, Auto));
    assert runtime.View() == Written(old(runtime.View()), plan);
    var outcome := runtime.Activate(plan.expected);
    if outcome != Active {
      return Some(if outcome == RestartRefused then Refused else NotEffectiveInTime);
    }
    if RestartNeeded(runtime.cat, runtime.View(), plan) {
      runtime.RestartServer();
      outcome := runtime.Activate(plan.expected);
      if outcome != Active {
        return Some(if outcome == RestartRefused then Refused else NotEffectiveInTime);
      }
    }
    return None;
  }

  // -------------------------------------------------------------------------
  // When reconstruction reproduces the source
  // -------------------------------------------------------------------------

  /** What an accepted plan says of the source server itself. */
  ghost predicate Reconstructible(cat: Catalogue, src: Server, n: string) {
    && n in src.running && n !in src.pending
    && cat.context(n) != Internal
    && (cat.context(n) == Postmaster ==> n in RESTART_SETTINGS)
    && (cat.AtStart(n) ==> Resolve(cat, src, n).setting == src.running[n].setting)
    && (forall i, j :: 0 <= i < j < |src.conf| && src.conf[i].name == n ==> src.conf[j].name != n)
    && match src.running[n].file
       case None => Last(src.conf, n).None? && Last(src.auto, n).None?
       case Some(Conf) => Last(src.conf, n).Some?
       case Some(Auto) => Last(src.auto, n) == Some(src.running[n].setting)
       case Some(OtherFile(_)) => false
  }

  function LinesOf(src: Server, file: File): (lines: seq<Line>) {
    match file
    case Conf => src.conf
    case Auto => src.auto
    case OtherFile(_) => []
  }

  lemma {:induction false} RowIsLine(cat: Catalogue, src: Server, e: FileRow)
    requires e in FileRows(cat, src)
    ensures e.file in {Conf, Auto} && Line(e.name, e.setting) in LinesOf(src, e.file)
  {
    var rows := FileRows(cat, src);
    var k :| 0 <= k < |rows| && rows[k] == e;
    if k < |src.conf| {
      assert Line(e.name, e.setting) == src.conf[k];
    } else {
      assert Line(e.name, e.setting) == src.auto[k - |src.conf|];
    }
  }

  lemma {:induction false} LineHasRow(
    cat: Catalogue, src: Server, names: seq<string>, l: Line, file: File) returns (e: FileRow)
    requires l in LinesOf(src, file)
    ensures e in FileRows(cat, src) && e.file == file && Line(e.name, e.setting) == l
    ensures l.name in names ==> e in Selected(FileRows(cat, src), names)
  {
    var rows := FileRows(cat, src);
    if file == Conf {
      var i :| 0 <= i < |src.conf| && src.conf[i] == l;
      e := rows[i];
    } else {
      var i :| 0 <= i < |src.auto| && src.auto[i] == l;
      e := rows[|src.conf| + i];
    }
    SelectedMember(rows, names, e);
  }

  lemma {:induction false} EntryFor(cat: Catalogue, src: Server, names: seq<string>, n: string, file: File)
    requires n in names
    ensures HasEntryIn(Selected(FileRows(cat, src), names), n, file) <==> Last(LinesOf(src, file), n).Some?
  {
    var entries := Selected(FileRows(cat, src), names);
    if Last(LinesOf(src, file), n).Some? {
      var _ := LineHasRow(cat, src, names, Line(n, Last(LinesOf(src, file), n).value), file);
    }
    if HasEntryIn(entries, n, file) {
      var e :| e in entries && e.name == n && e.file == file;
      SelectedMember(FileRows(cat, src), names, e);
      RowIsLine(cat, src, e);
    }
  }

  lemma {:induction false} SelectedCons(files: seq<FileRow>, names: seq<string>)
    requires files != []
    ensures Selected(files, names)
         == (if files[0].name in names then [files[0]] else []) + Selected(files[1..], names)
  {
  }

  lemma {:induction false} SelectedAt(files: seq<FileRow>, names: seq<string>, i: nat) returns (k: nat)
    requires i < |files| && files[i].name in names
    ensures k < |Selected(files, names)| && Selected(files, names)[k] == files[i]
  {
    SelectedCons(files, names);
    if i == 0 {
      k := 0;
    } else {
      k := SelectedAt(files[1..], names, i - 1);
      k := k + if files[0].name in names then 1 else 0;
    }
  }

  lemma {:induction false} SelectedPair(files: seq<FileRow>, names: seq<string>, i: nat, j: nat)
    returns (a: nat, b: nat)
    requires i < j < |files| && files[i].name in names && files[j].name in names
    ensures a < b < |Selected(files, names)|
    ensures Selected(files, names)[a] == files[i] && Selected(files, names)[b] == files[j]
  {
    SelectedCons(files, names);
    if i == 0 {
      b := SelectedAt(files[1..], names, j - 1);
      a, b := 0, b + 1;
    } else {
      a, b := SelectedPair(files[1..], names, i - 1, j - 1);
      var shift := if files[0].name in names then 1 else 0;
      a, b := a + shift, b + shift;
    }
  }

  /** The row of the line that decides a name is selected, and it does not wait for a restart. */
  lemma {:induction false} WinnerDoesNotWait(cat: Catalogue, src: Server, names: seq<string>, n: string)
    requires ValidServer(cat, src) && n in names && n in src.running && cat.AtStart(n)
    requires forall e :: e in Selected(FileRows(cat, src), names) ==> EntryOk(e)
    ensures Resolve(cat, src, n).setting == src.running[n].setting
         || (Last(src.auto, n).None? && Last(src.conf, n).None?)
  {
    var rows := FileRows(cat, src);
    if Last(src.auto, n).Some? {
      var i := LastLineIndex(src.auto, n);
      var e := rows[|src.conf| + i];
      SelectedMember(rows, names, e);
      assert e == AutoRow(cat, src, i);
    } else if Last(src.conf, n).Some? {
      var i := LastLineIndex(src.conf, n);
      var e := rows[i];
      SelectedMember(rows, names, e);
      assert e == ConfRow(cat, src, i);
    }
  }

  lemma {:induction false} AcceptedIsReconstructible(cat: Catalogue, src: Server, names: seq<string>, n: string)
    requires ValidCatalogue(cat) && ValidServer(cat, src)
    requires Accepts(Collect(cat, src), names) && n in names
    ensures Reconstructible(cat, src, n)
  {
    CollectedRow(cat, src, n);
    AcceptedFacts(cat, src, names, n, Selected(FileRows(cat, src), names));
  }

  lemma {:induction false} AcceptedFacts(
    cat: Catalogue, src: Server, names: seq<string>, n: string, entries: seq<FileRow>)
    requires ValidServer(cat, src) && n in names && n in src.running
    requires entries == Selected(FileRows(cat, src), names)
    requires forall e :: e in entries ==> EntryOk(e)
    requires OneEntryPerFile(entries)
    requires RowOk(SettingRow(n, CollectedFields(cat, src, n), false), entries)
    requires CanonicalAuto(SettingRow(n, CollectedFields(cat, src, n), false), entries)
    ensures Reconstructible(cat, src, n)
  {
    EntryFor(cat, src, names, n, Conf);
    EntryFor(cat, src, names, n, Auto);
    NoEntry(entries, n);
    if cat.AtStart(n) {
      WinnerDoesNotWait(cat, src, names, n);
    }
    OneConfLine(cat, src, names, n);
    if src.running[n].file == Some(Auto) {
      var e := LineHasRow(cat, src, names, Line(n, Last(src.auto, n).value), Auto);
    }
  }

  lemma {:induction false} OneConfLine(cat: Catalogue, src: Server, names: seq<string>, n: string)
    requires n in names && OneEntryPerFile(Selected(FileRows(cat, src), names))
    ensures forall i, j :: 0 <= i < j < |src.conf| && src.conf[i].name == n ==> src.conf[j].name != n
  {
    forall i, j | 0 <= i < j < |src.conf| && src.conf[i].name == n ensures src.conf[j].name != n {
      if src.conf[j].name == n {
        var _, _ := SelectedPair(FileRows(cat, src), names, i, j);
      }
    }
  }

  lemma {:induction false} NoEntry(entries: seq<FileRow>, n: string)
    ensures !HasEntry(entries, n) ==> !HasEntryIn(entries, n, Conf) && !HasEntryIn(entries, n, Auto)
  {
  }

  /** Every line the image already had for a compared name repeats the source's postgresql.conf value. */
  predicate ImageRepeats(image: seq<Line>, src: Server, names: seq<string>) {
    forall l | l in image :: l.name in names ==> Last(src.conf, l.name) == Some(l.value)
  }

  /** The lines reconstruction writes: for a compared name, exactly the source's. */
  lemma {:induction false} WrittenLines(cat: Catalogue, src: Server, names: seq<string>, n: string)
    requires ValidServer(cat, src)
    requires n in names ==> Reconstructible(cat, src, n)
    ensures var entries := Selected(FileRows(cat, src), names);
            && (forall v :: Line(n, v) in LinesFor(entries, Conf) <==> n in names && Last(src.conf, n) == Some(v))
            && (forall v :: Line(n, v) in LinesFor(entries, Auto) <==> n in names && Last(src.auto, n) == Some(v))
  {
    forall v ensures Line(n, v) in LinesFor(Selected(FileRows(cat, src), names), Conf)
                     <==> n in names && Last(src.conf, n) == Some(v) {
      if n in names {
        OnlyLine(src.conf, Line(n, v));
      }
      WrittenLine(cat, src, names, Line(n, v), Conf);
    }
    forall v ensures Line(n, v) in LinesFor(Selected(FileRows(cat, src), names), Auto)
                     <==> n in names && Last(src.auto, n) == Some(v) {
      AutoLine(src.auto, n, v);
      WrittenLine(cat, src, names, Line(n, v), Auto);
    }
  }

  lemma {:induction false} WrittenLine(cat: Catalogue, src: Server, names: seq<string>, l: Line, file: File)
    requires file in {Conf, Auto}
    ensures l in LinesFor(Selected(FileRows(cat, src), names), file) <==> l.name in names && l in LinesOf(src, file)
  {
    var entries := Selected(FileRows(cat, src), names);
    if l in LinesFor(entries, file) {
      var e :| e in entries && e.file == file && Line(e.name, e.setting) == l;
      SelectedMember(FileRows(cat, src), names, e);
      RowIsLine(cat, src, e);
    }
    if l.name in names && l in LinesOf(src, file) {
      var _ := LineHasRow(cat, src, names, l, file);
    }
  }

  lemma {:induction false} OnlyLine(lines: seq<Line>, l: Line)
    requires forall i, j :: 0 <= i < j < |lines| && lines[i].name == l.name ==> lines[j].name != l.name
    ensures l in lines <==> Last(lines, l.name) == Some(l.value)
  {
    if l in lines {
      var k :| 0 <= k < |lines| && lines[k] == l;
      NoLaterIsLast(lines, k);
    }
  }

  lemma {:induction false} OnlyValue(lines: seq<Line>, n: string, w: Option<string>)
    requires forall v :: Line(n, v) in lines <==> w == Some(v)
    ensures Last(lines, n) == w
  {
    if Last(lines, n).Some? {
      assert Line(n, Last(lines, n).value) in lines;
    }
    if w.Some? {
      assert Line(n, w.value) in lines;
    }
  }

  /** The plan of the source's own collected evidence. */
  function SourcePlan(cat: Catalogue, src: Server, names: seq<string>): (plan: Plan)
    requires forall n :: n in names ==> n in src.running
  {
    Plan(names, Selected(FileRows(cat, src), names), map n | n in names :: src.running[n].setting,
         Sig(cat, src, names))
  }

  ghost predicate SourceReady(cat: Catalogue, src: Server, names: seq<string>) {
    && ValidCatalogue(cat) && ValidServer(cat, src)
    && (forall n :: n in names ==> Reconstructible(cat, src, n))
  }

  lemma {:induction false} AcceptedIsReady(cat: Catalogue, src: Server, names: seq<string>)
    requires ValidCatalogue(cat) && ValidServer(cat, src)
    requires Accepts(Collect(cat, src), names)
    ensures SourceReady(cat, src, names)
    ensures SignatureOf(Collect(cat, src), names).Some?
    ensures PlanFor(Collect(cat, src), names) == SourcePlan(cat, src, names)
  {
    forall n | n in names ensures Reconstructible(cat, src, n) {
      AcceptedIsReconstructible(cat, src, names, n);
    }
    forall n | n in names ensures n in src.running {
      CollectedRow(cat, src, n);
    }
    SignatureOfCollected(cat, src, names);
    forall n | n in names ensures n in Rows(Collect(cat, src).settings)
                               && Rows(Collect(cat, src).settings)[n].fields.setting == src.running[n].setting {
      CollectedRow(cat, src, n);
    }
    PlanFrom(Collect(cat, src), names, SourcePlan(cat, src, names));
  }

  lemma {:induction false} PlanFrom(snap: Snapshot, names: seq<string>, plan: Plan)
    requires snap.files.Some? && plan.names == names
    requires plan.entries == Selected(snap.files.value, names)
    requires SignatureOf(snap, names) == Some(plan.signature)
    requires forall n :: n in plan.expected <==> n in names
    requires forall n :: n in names ==>
              n in Rows(snap.settings) && Rows(snap.settings)[n].fields.setting == plan.expected[n]
    ensures PlanFor(snap, names) == plan
  {
    assert PlanFor(snap, names).expected == plan.expected;
  }

  /** The image's server once the files of the source's plan are written. */
  function WrittenServer(cat: Catalogue, image: seq<Line>, src: Server, names: seq<string>): (s: Server)
    requires forall n :: n in names ==> n in src.running
  {
    Written(Fresh(cat, image), SourcePlan(cat, src, names))
  }

  /** What reconstructing the source from its own evidence leaves. */
  function Rebuilt(cat: Catalogue, image: seq<Line>, src: Server, names: seq<string>): (r: Result<Server, Failure>)
    requires forall n :: n in names ==> n in src.running
  {
    Reconstructed(cat, Fresh(cat, image), SourcePlan(cat, src, names))
  }

  lemma {:induction false} WrittenFiles(cat: Catalogue, image: seq<Line>, src: Server, names: seq<string>, n: string)
    requires SourceReady(cat, src, names)
    ensures var t := WrittenServer(cat, image, src, names);
            && Last(t.auto, n) == (if n in names then Last(src.auto, n) else None)
            && Last(t.conf, n) == if n in names && Last(src.conf, n).Some? then Last(src.conf, n) else Last(image, n)
  {
    var entries := SourcePlan(cat, src, names).entries;
    WrittenLines(cat, src, names, n);
    OnlyValue(LinesFor(entries, Conf), n, if n in names then Last(src.conf, n) else None);
    OnlyValue(LinesFor(entries, Auto), n, if n in names then Last(src.auto, n) else None);
    LastConcat(image, LinesFor(entries, Conf), n);
  }

  lemma {:induction false} LinesForUnique(entries: seq<FileRow>, file: File)
    requires OneEntryPerFile(entries)
    ensures UniqueNames(LinesFor(entries, file))
  {
    if entries != [] {
      LinesForUnique(entries[1..], file);
      forall l | l in LinesFor(entries[1..], file) && entries[0].file == file ensures l.name != entries[0].name {
        var e :| e in entries[1..] && e.file == file && Line(e.name, e.setting) == l;
        var k :| 0 <= k < |entries[1..]| && entries[1..][k] == e;
        assert entries[k + 1] == e;
      }
    }
  }

  lemma {:induction false} FreshSettled(cat: Catalogue, image: seq<Line>)
    requires ValidCatalogue(cat)
    ensures AllSettled(cat, Fresh(cat, image))
  {
    RestartValid(cat, Server(image, [], map[], {}));
  }

  lemma {:induction false} SelectedNoPairs(files: seq<FileRow>, names: seq<string>)
    requires forall i, j :: 0 <= i < j < |files| && files[i].name in names && files[i].name == files[j].name ==>
                              files[i].file != files[j].file
    ensures OneEntryPerFile(Selected(files, names))
  {
    if files != [] {
      SelectedNoPairs(files[1..], names);
      var rest := Selected(files[1..], names);
      forall k | 0 <= k < |rest| && files[0].name in names
        ensures rest[k].file != files[0].file || rest[k].name != files[0].name
      {
        SelectedMember(files[1..], names, rest[k]);
        var j :| 0 <= j < |files[1..]| && files[1..][j] == rest[k];
        assert files[j + 1] == rest[k];
      }
    }
  }

  lemma {:induction false} ReadyPairs(cat: Catalogue, src: Server, names: seq<string>)
    requires SourceReady(cat, src, names)
    ensures OneEntryPerFile(Selected(FileRows(cat, src), names))
  {
    var rows := FileRows(cat, src);
    forall i, j | 0 <= i < j < |rows| && rows[i].name in names && rows[i].name == rows[j].name
      ensures rows[i].file != rows[j].file
    {
      assert Reconstructible(cat, src, rows[i].name);
    }
    SelectedNoPairs(rows, names);
  }

  lemma {:induction false} WrittenValid(cat: Catalogue, image: seq<Line>, src: Server, names: seq<string>)
    requires SourceReady(cat, src, names)
    ensures ValidServer(cat, WrittenServer(cat, image, src, names))
  {
    ReadyPairs(cat, src, names);
    LinesForUnique(SourcePlan(cat, src, names).entries, Auto);
    FreshSettled(cat, image);
  }

  lemma {:induction false} WrittenNotRefused(cat: Catalogue, image: seq<Line>, src: Server, names: seq<string>)
    requires SourceReady(cat, src, names)
    ensures !Refuses(cat, WrittenServer(cat, image, src, names))
  {
    var t := WrittenServer(cat, image, src, names);
    FreshSettled(cat, image);
    forall n | n in Reload(cat, t).pending ensures n in RESTART_SETTINGS {
      WrittenFiles(cat, image, src, names, n);
      assert Settled(cat, Fresh(cat, image), n);
      assert n in names ==> Reconstructible(cat, src, n);
    }
  }

  /** The written files resolve every compared name as the source's own files do. */
  lemma {:induction false} WrittenResolve(cat: Catalogue, image: seq<Line>, src: Server, names: seq<string>, n: string)
    requires SourceReady(cat, src, names) && n in names && ImageRepeats(image, src, names)
    ensures Resolve(cat, WrittenServer(cat, image, src, names), n) == Resolve(cat, src, n)
  {
    WrittenFiles(cat, image, src, names, n);
    if Last(image, n).Some? {
      assert Line(n, Last(image, n).value) in image;
    }
    SameResolution(cat, WrittenServer(cat, image, src, names), src, n);
  }

  /** Any other name resolves as in the image. */
  lemma {:induction false} UnwrittenResolve(
    cat: Catalogue, image: seq<Line>, src: Server, names: seq<string>, n: string)
    requires SourceReady(cat, src, names) && n !in names
    ensures Resolve(cat, WrittenServer(cat, image, src, names), n) == Resolve(cat, Fresh(cat, image), n)
  {
    WrittenFiles(cat, image, src, names, n);
    SameResolution(cat, WrittenServer(cat, image, src, names), Fresh(cat, image), n);
  }

  /** Every compared setting is built in, or its library is loaded: the preload list is itself compared,
      or the image already loads the library. */
  predicate LibrariesLoaded(cat: Catalogue, image: seq<Line>, names: seq<string>) {
    PRELOAD in names || forall n | n in names :: n in Fresh(cat, image).running
  }

  lemma {:induction false} WrittenKnows(cat: Catalogue, image: seq<Line>, src: Server, names: seq<string>)
    requires SourceReady(cat, src, names) && ImageRepeats(image, src, names)
    ensures var known := cat.Known(Resolve(cat, WrittenServer(cat, image, src, names), PRELOAD).setting);
            LibrariesLoaded(cat, image, names) <==> forall n :: n in names ==> n in known
  {
    FreshSettled(cat, image);
    assert PRELOAD in RESTART_SETTINGS;
    if PRELOAD in names {
      WrittenResolve(cat, image, src, names, PRELOAD);
      assert Reconstructible(cat, src, PRELOAD);
      assert forall n :: n in names ==> Reconstructible(cat, src, n);
    } else {
      UnwrittenResolve(cat, image, src, names, PRELOAD);
      assert Settled(cat, Fresh(cat, image), PRELOAD);
    }
  }

  /** Everything already resolves as in the source: the reconstructed server has its signature. */
  lemma {:induction false} SameSignature(cat: Catalogue, image: seq<Line>, src: Server, names: seq<string>, t: Server)
    requires SourceReady(cat, src, names) && ImageRepeats(image, src, names)
    requires NoneWaiting(cat, t)
    requires t.conf == WrittenServer(cat, image, src, names).conf
    requires t.auto == WrittenServer(cat, image, src, names).auto
    requires forall n :: n in names ==> n in t.running && t.running[n] == src.running[n]
    ensures Sig(cat, t, names) == Sig(cat, src, names)
  {
    forall n | n in names
      ensures Last(src.auto, n) == Last(t.auto, n) && Last(src.conf, n) == Last(t.conf, n)
      ensures forall v :: Line(n, v) in src.conf <==> Line(n, v) in t.conf
      ensures n in src.running && n !in src.pending
      ensures cat.AtStart(n) ==> Resolve(cat, src, n).setting == src.running[n].setting
    {
      assert Reconstructible(cat, src, n);
      SameConfLines(cat, image, src, names, n);
    }
    SigDependsOn(cat, src, t, names);
  }

  lemma {:induction false} SameConfLines(cat: Catalogue, image: seq<Line>, src: Server, names: seq<string>, n: string)
    requires SourceReady(cat, src, names) && ImageRepeats(image, src, names) && n in names
    ensures var t := WrittenServer(cat, image, src, names);
            && Last(src.auto, n) == Last(t.auto, n) && Last(src.conf, n) == Last(t.conf, n)
            && forall v :: Line(n, v) in src.conf <==> Line(n, v) in t.conf
  {
    var t := WrittenServer(cat, image, src, names);
    WrittenFiles(cat, image, src, names, n);
    WrittenLines(cat, src, names, n);
    assert Reconstructible(cat, src, n);
    if Last(image, n).Some? {
      assert Line(n, Last(image, n).value) in image;
    }
    forall v ensures Line(n, v) in src.conf <==> Line(n, v) in t.conf {
      OnlyLine(src.conf, Line(n, v));
    }
  }

  /** Activating a settled server changes nothing. */
  lemma {:induction false} SettledActivation(cat: Catalogue, s: Server)
    requires AllSettled(cat, s)
    ensures !Refuses(cat, s) && Activated(cat, s) == s
  {
    var r := Reload(cat, s);
    forall n | n in s.running ensures r.running[n] == s.running[n] {
      assert Settled(cat, s, n);
    }
    assert r.running == s.running;
    assert r.pending == {};
  }

  /** Whether reconstruction restarts the server: at activation, or to re-source a candidate. */
  ghost predicate RestartsWhileReconstructing(cat: Catalogue, s: Server, plan: Plan)
    requires forall n :: n in plan.names ==> n in plan.signature.settings
  {
    Reload(cat, Written(s, plan)).pending != {} || RestartNeeded(cat, Activated(cat, Written(s, plan)), plan)
  }

  /** t is the server that reconstructing `plan` on s leaves: the written files, the libraries of their
      list, and each row read from them, except that a setting fixed at server start keeps its row when
      nothing restarted. */
  ghost predicate Reread(cat: Catalogue, s: Server, plan: Plan, t: Server)
    requires forall n :: n in plan.names ==> n in plan.signature.settings
  {
    var w := Written(s, plan);
    var restarts := RestartsWhileReconstructing(cat, s, plan);
    && ReloadSettled(cat, t) && t.conf == w.conf && t.auto == w.auto
    && t.running.Keys == cat.Known(Resolve(cat, w, PRELOAD).setting)
    && (!restarts ==> t.running.Keys == s.running.Keys)
    && forall n :: n in t.running ==>
         t.running[n] == if cat.AtStart(n) && !restarts && n in s.running then s.running[n] else Resolve(cat, w, n)
  }

  /** The activation and, if it is needed, the extra restart. */
  lemma {:induction false} ReconstructedFrom(cat: Catalogue, s: Server, plan: Plan)
    requires forall n :: n in plan.names ==> n in plan.signature.settings
    requires ValidCatalogue(cat) && ValidServer(cat, Written(s, plan)) && !Refuses(cat, Written(s, plan))
    ensures var r := Reconstructed(cat, s, plan);
            var once := Activated(cat, Written(s, plan));
            var t := if RestartNeeded(cat, once, plan) then Restart(cat, once) else once;
            && Reread(cat, s, plan, t)
            && (r == Err(NotEffectiveInTime) || (r == Ok(t) && Effective(cat, t, plan.expected)))
            && (Effective(cat, once, plan.expected) && Effective(cat, t, plan.expected) ==> r == Ok(t))
  {
    var w := Written(s, plan);
    var once := Activated(cat, w);
    ActivatedServer(cat, w);
    if RestartNeeded(cat, once, plan) {
      RestartValid(cat, once);
      SettledActivation(cat, Restart(cat, once));
      RestartedResolve(cat, w, once);
    }
  }

  lemma {:induction false} RestartedResolve(cat: Catalogue, w: Server, once: Server)
    requires ValidCatalogue(cat) && UniqueNames(w.auto) && once.conf == w.conf && once.auto == w.auto
    ensures var t := Restart(cat, once);
            && ReloadSettled(cat, t) && t.conf == w.conf && t.auto == w.auto
            && t.running.Keys == cat.Known(Resolve(cat, w, PRELOAD).setting)
            && forall n :: n in t.running ==> t.running[n] == Resolve(cat, w, n)
  {
    RestartValid(cat, once);
    var t := Restart(cat, once);
    forall n ensures Resolve(cat, once, n) == Resolve(cat, w, n) {
      SameResolution(cat, once, w, n);
    }
    forall n | n in t.running ensures Resolve(cat, t, n) == t.running[n] {
      assert Settled(cat, t, n);
    }
  }

  lemma {:induction false} ReconstructedServer(cat: Catalogue, image: seq<Line>, src: Server, names: seq<string>)
    requires SourceReady(cat, src, names)
    ensures var r := Rebuilt(cat, image, src, names);
            && r != Err(Refused)
            && (r.Ok? ==>
                  && Reread(cat, Fresh(cat, image), SourcePlan(cat, src, names), r.value)
                  && forall n :: n in names ==> n in r.value.running)
  {
    WrittenValid(cat, image, src, names);
    WrittenNotRefused(cat, image, src, names);
    ReconstructedFrom(cat, Fresh(cat, image), SourcePlan(cat, src, names));
  }

  /** The restart allowlist never refuses a reconstruction, whatever the image's file holds. */
  lemma {:induction false} ReconstructionNeverRefused(cat: Catalogue, image: seq<Line>, src: Server, names: seq<string>)
    requires SourceReady(cat, src, names)
    ensures Rebuilt(cat, image, src, names) != Err(Refused)
  {
    ReconstructedServer(cat, image, src, names);
  }

  /** The reconstruction raises nothing when the rows it leaves have the expected values. */
  lemma {:induction false} ReconstructionCompletes(cat: Catalogue, image: seq<Line>, src: Server, names: seq<string>)
    requires SourceReady(cat, src, names) && ImageRepeats(image, src, names) && LibrariesLoaded(cat, image, names)
    requires forall n :: n in names ==> Resolve(cat, src, n).setting == src.running[n].setting
    ensures Rebuilt(cat, image, src, names).Ok?
  {
    var plan, w := SourcePlan(cat, src, names), WrittenServer(cat, image, src, names);
    WrittenValid(cat, image, src, names);
    WrittenNotRefused(cat, image, src, names);
    WrittenKnows(cat, image, src, names);
    forall n | n in names ensures Resolve(cat, w, n).setting == plan.expected[n] {
      WrittenResolve(cat, image, src, names, n);
    }
    ReconstructedFrom(cat, Fresh(cat, image), plan);
    ActivatedServer(cat, w);
    var once := Activated(cat, w);
    RowsEffective(cat, w, once, plan.expected);
    RestartedResolve(cat, w, once);
    RowsEffective(cat, w, Restart(cat, once), plan.expected);
  }

  lemma {:induction false} RowsEffective(cat: Catalogue, w: Server, t: Server, expected: map<string, string>)
    requires forall n :: n in expected ==> n in t.running && Resolve(cat, w, n).setting == expected[n]
    requires NoneWaiting(cat, t) && t.conf == w.conf && t.auto == w.auto
    requires forall n :: n in t.running ==> cat.AtStart(n) || t.running[n] == Resolve(cat, w, n)
    ensures Effective(cat, t, expected)
  {
    forall n | n in expected ensures t.running[n].setting == expected[n] {
      SameResolution(cat, t, w, n);
    }
  }

  /** The image already runs what the source runs for every compared setting fixed at server start. */
  ghost predicate ImageRuns(cat: Catalogue, image: seq<Line>, src: Server, names: seq<string>)
    requires forall n :: n in names ==> n in src.running
  {
    forall n :: n in names && cat.AtStart(n) ==>
                  n in Fresh(cat, image).running && Fresh(cat, image).running[n] == src.running[n]
  }

  ghost predicate SettledIn(cat: Catalogue, src: Server, names: seq<string>, atStart: bool)
    requires forall n :: n in names ==> n in src.running
  {
    forall n :: n in names && cat.AtStart(n) == atStart ==> Settled(cat, src, n)
  }

  /** A compared setting fixed at server start is a reviewed one, and every server knows those. */
  lemma {:induction false} AtStartKnown(cat: Catalogue, image: seq<Line>, src: Server, names: seq<string>, n: string)
    requires SourceReady(cat, src, names) && n in names && cat.AtStart(n)
    ensures n in RESTART_SETTINGS && n in Fresh(cat, image).running
  {
    assert Reconstructible(cat, src, n);
    FreshSettled(cat, image);
  }

  lemma {:induction false} ImageRunsNeedsNoRestart(cat: Catalogue, image: seq<Line>, src: Server, names: seq<string>)
    requires SourceReady(cat, src, names) && ImageRepeats(image, src, names) && ImageRuns(cat, image, src, names)
    ensures !RestartsWhileReconstructing(cat, Fresh(cat, image), SourcePlan(cat, src, names))
  {
    var plan, w := SourcePlan(cat, src, names), WrittenServer(cat, image, src, names);
    NothingPending(cat, image, src, names);
    WrittenValid(cat, image, src, names);
    ActivatedServer(cat, w);
    var t := Activated(cat, w);
    forall n | n in names && Candidate(plan, n)
      ensures n in t.running && t.running[n] == src.running[n]
    {
      assert cat.AtStart(n);
      AtStartKnown(cat, image, src, names, n);
    }
    SameRowsNeedNoRestart(cat, src, names, t);
  }

  lemma {:induction false} SameRowsNeedNoRestart(cat: Catalogue, src: Server, names: seq<string>, t: Server)
    requires SourceReady(cat, src, names)
    requires forall n :: n in names && Candidate(SourcePlan(cat, src, names), n) ==>
               n in t.running && t.running[n] == src.running[n]
    ensures !RestartNeeded(cat, t, SourcePlan(cat, src, names))
  {
  }

  lemma {:induction false} NothingPending(cat: Catalogue, image: seq<Line>, src: Server, names: seq<string>)
    requires SourceReady(cat, src, names) && ImageRepeats(image, src, names) && ImageRuns(cat, image, src, names)
    ensures Reload(cat, WrittenServer(cat, image, src, names)).pending == {}
  {
    var w := WrittenServer(cat, image, src, names);
    FreshSettled(cat, image);
    forall n | n in w.running && cat.AtStart(n) ensures Resolve(cat, w, n).setting == w.running[n].setting {
      if n in names {
        WrittenResolve(cat, image, src, names, n);
        assert Reconstructible(cat, src, n);
      } else {
        UnwrittenResolve(cat, image, src, names, n);
        assert Settled(cat, Fresh(cat, image), n);
      }
    }
  }

  /** An image line that does not repeat the source's value stays visible in the signature. */
  lemma {:induction false} ForeignLineShows(cat: Catalogue, src: Server, names: seq<string>, t: Server, l: Line)
    requires SourceReady(cat, src, names)
    requires l.name in names && Last(src.conf, l.name) != Some(l.value)
    requires NoneWaiting(cat, t) && l in t.conf
    ensures Sig(cat, t, names) != Sig(cat, src, names)
  {
    var x := FileSig(l.name, l.value, Conf, Last(t.conf, l.name) == Some(l.value) && Last(t.auto, l.name).None?, false);
    assert NoWaiting(cat, src, names) by {
      assert forall n :: n in names ==> Reconstructible(cat, src, n);
    }
    KeptOrDescribed(cat, t, names, x);
    KeptOrDescribed(cat, src, names, x);
    assert Reconstructible(cat, src, l.name);
    OnlyLine(src.conf, l);
    DifferentFileSignature(FileRows(cat, t), FileRows(cat, src), names, x);
  }

  lemma {:induction false} SameRows(cat: Catalogue, s: Server, t: Server, names: seq<string>, n: string)
    requires Sig(cat, s, names) == Sig(cat, t, names) && n in names
    ensures n in s.running <==> n in t.running
    ensures n in s.running ==> s.running[n] == t.running[n]
  {
    assert n in s.running <==> n in Sig(cat, s, names).settings;
    assert n in t.running <==> n in Sig(cat, t, names).settings;
    assert n in s.running ==> Sig(cat, s, names).settings[n] == CollectedFields(cat, s, n);
    assert n in t.running ==> Sig(cat, t, names).settings[n] == CollectedFields(cat, t, n);
  }

  /** What exact reconstruction asks of the image and of the source. */
  ghost predicate Reproducible(cat: Catalogue, image: seq<Line>, src: Server, names: seq<string>)
    requires forall n :: n in names ==> n in src.running
  {
    && ImageRepeats(image, src, names)
    && LibrariesLoaded(cat, image, names)
    && SettledIn(cat, src, names, false)
    && (SettledIn(cat, src, names, true) || ImageRuns(cat, image, src, names))
  }

  ghost predicate Exact(cat: Catalogue, image: seq<Line>, src: Server, names: seq<string>)
    requires forall n :: n in names ==> n in src.running
  {
    var r := Rebuilt(cat, image, src, names);
    r.Ok? && Sig(cat, r.value, names) == Sig(cat, src, names)
  }

  /** From evidence reconstruction_plan accepts, reconstruct reproduces the source's signature exactly
      when (1) every line the image already had for a compared name repeats the source's
      postgresql.conf value, (2) the library of every compared setting is loaded, (3) every compared
      reloadable setting ran what its files say, and (4) so did every compared setting fixed at server
      start, unless the image already runs all of those. For a settled source of built-in settings only
      (1) is left. The restart allowlist never refuses. */
  lemma {:induction false} ReconstructionExact(cat: Catalogue, image: seq<Line>, src: Server, names: seq<string>)
    requires ValidCatalogue(cat) && ValidServer(cat, src)
    requires Accepts(Collect(cat, src), names)
    ensures SignatureOf(Collect(cat, src), names).Some?
    ensures forall n :: n in names ==> n in src.running
    ensures var plan := PlanFor(Collect(cat, src), names);
            && (forall n :: n in plan.names ==> n in plan.signature.settings)
            && var r := Reconstructed(cat, Fresh(cat, image), plan);
            && r != Err(Refused)
            && (r.Ok? && Sig(cat, r.value, names) == plan.signature <==> Reproducible(cat, image, src, names))
  {
    AcceptedIsReady(cat, src, names);
    ReconstructionNeverRefused(cat, image, src, names);
    ExactForReady(cat, image, src, names);
  }

  lemma {:induction false} ExactForReady(cat: Catalogue, image: seq<Line>, src: Server, names: seq<string>)
    requires SourceReady(cat, src, names)
    ensures Exact(cat, image, src, names) <==> Reproducible(cat, image, src, names)
  {
    ReconstructedServer(cat, image, src, names);
    var r := Rebuilt(cat, image, src, names);
    if Reproducible(cat, image, src, names) {
      ExactSuffices(cat, image, src, names);
    } else if Exact(cat, image, src, names) {
      if !ImageRepeats(image, src, names) {
        var l :| l in image && l.name in names && Last(src.conf, l.name) != Some(l.value);
        ForeignLineShows(cat, src, names, r.value, l);
      } else {
        WrittenKnows(cat, image, src, names);
        ExactIsNeeded(cat, image, src, names);
      }
    }
  }

  lemma {:induction false} ExactSuffices(cat: Catalogue, image: seq<Line>, src: Server, names: seq<string>)
    requires SourceReady(cat, src, names) && Reproducible(cat, image, src, names)
    ensures Exact(cat, image, src, names)
  {
    forall n | n in names ensures Resolve(cat, src, n).setting == src.running[n].setting {
      assert Reconstructible(cat, src, n);
      assert !cat.AtStart(n) ==> Settled(cat, src, n);
    }
    ReconstructionCompletes(cat, image, src, names);
    ReconstructedServer(cat, image, src, names);
    if !SettledIn(cat, src, names, true) {
      ImageRunsNeedsNoRestart(cat, image, src, names);
    }
    var t := Rebuilt(cat, image, src, names).value;
    forall n | n in names ensures n in t.running && t.running[n] == src.running[n] {
      WrittenResolve(cat, image, src, names, n);
      if cat.AtStart(n) {
        AtStartRow(cat, image, src, names, n);
      } else {
        assert Settled(cat, src, n);
      }
    }
    SameSignature(cat, image, src, names, t);
  }

  /** A settled setting fixed at server start has the source's row in the image when nothing restarts. */
  lemma {:induction false} AtStartRow(cat: Catalogue, image: seq<Line>, src: Server, names: seq<string>, n: string)
    requires SourceReady(cat, src, names) && ImageRepeats(image, src, names)
    requires n in names && cat.AtStart(n)
    requires Settled(cat, src, n) || (n in Fresh(cat, image).running && Fresh(cat, image).running[n] == src.running[n])
    ensures n in Fresh(cat, image).running
    ensures RestartsWhileReconstructing(cat, Fresh(cat, image), SourcePlan(cat, src, names))
         || Fresh(cat, image).running[n] == src.running[n]
  {
    var plan := SourcePlan(cat, src, names);
    var t := WrittenServer(cat, image, src, names);
    AtStartKnown(cat, image, src, names, n);
    WrittenResolve(cat, image, src, names, n);
    EntryFor(cat, src, names, n, Conf);
    EntryFor(cat, src, names, n, Auto);
    FreshSettled(cat, image);
    if Fresh(cat, image).running[n].setting != src.running[n].setting {
      assert n in Reload(cat, t).pending;
    } else if HasEntry(plan.entries, n) {
      if !RestartsWhileReconstructing(cat, Fresh(cat, image), plan) {
        CandidateRow(cat, image, src, names, n);
      }
    } else {
      NoEntry(plan.entries, n);
      assert Settled(cat, Fresh(cat, image), n);
      NoImageLine(image, src, names, n);
    }
  }

  lemma {:induction false} CandidateRow(cat: Catalogue, image: seq<Line>, src: Server, names: seq<string>, n: string)
    requires SourceReady(cat, src, names) && n in names && cat.AtStart(n) && n in Fresh(cat, image).running
    requires Candidate(SourcePlan(cat, src, names), n)
    requires !RestartsWhileReconstructing(cat, Fresh(cat, image), SourcePlan(cat, src, names))
    requires Fresh(cat, image).running[n].setting == src.running[n].setting
    ensures Fresh(cat, image).running[n] == src.running[n]
  {
    var plan := SourcePlan(cat, src, names);
    WrittenValid(cat, image, src, names);
    WrittenNotRefused(cat, image, src, names);
    ActivatedServer(cat, WrittenServer(cat, image, src, names));
    assert plan.signature.settings[n] == CollectedFields(cat, src, n);
  }

  lemma {:induction false} NoImageLine(image: seq<Line>, src: Server, names: seq<string>, n: string)
    requires ImageRepeats(image, src, names) && n in names
    ensures Last(src.conf, n).None? ==> Last(image, n).None?
  {
  }

  lemma {:induction false} ExactIsNeeded(cat: Catalogue, image: seq<Line>, src: Server, names: seq<string>)
    requires SourceReady(cat, src, names) && ImageRepeats(image, src, names) && Exact(cat, image, src, names)
    ensures SettledIn(cat, src, names, false)
    ensures SettledIn(cat, src, names, true) || ImageRuns(cat, image, src, names)
  {
    var restarts := RestartsWhileReconstructing(cat, Fresh(cat, image), SourcePlan(cat, src, names));
    forall n | n in names
      ensures cat.AtStart(n) && !restarts ==>
                n in Fresh(cat, image).running && Fresh(cat, image).running[n] == src.running[n]
      ensures !cat.AtStart(n) || restarts ==> Settled(cat, src, n)
    {
      NeededRow(cat, image, src, names, n);
    }
  }

  lemma {:induction false} NeededRow(cat: Catalogue, image: seq<Line>, src: Server, names: seq<string>, n: string)
    requires SourceReady(cat, src, names) && ImageRepeats(image, src, names) && n in names
    requires Exact(cat, image, src, names)
    ensures var restarts := RestartsWhileReconstructing(cat, Fresh(cat, image), SourcePlan(cat, src, names));
            && (cat.AtStart(n) && !restarts ==>
                  n in Fresh(cat, image).running && Fresh(cat, image).running[n] == src.running[n])
            && (!cat.AtStart(n) || restarts ==> Settled(cat, src, n))
  {
    ReconstructedServer(cat, image, src, names);
    SameRows(cat, Rebuilt(cat, image, src, names).value, src, names, n);
    WrittenResolve(cat, image, src, names, n);
    if cat.AtStart(n) {
      AtStartKnown(cat, image, src, names, n);
    }
  }

  /** An exact reconstruction never leaves a reloadable setting unsettled, and leaves every setting of the
      sandbox settled, compared or not, if and only if the source's compared settings fixed at server start
      were. */
  lemma {:induction false} ExactReconstructionIsSettled(
    cat: Catalogue, image: seq<Line>, src: Server, names: seq<string>)
    requires SourceReady(cat, src, names) && Exact(cat, image, src, names)
    ensures var t := Rebuilt(cat, image, src, names).value;
            && ReloadSettled(cat, t)
            && (AllSettled(cat, t) <==> SettledIn(cat, src, names, true))
            && forall n :: n in names ==> n in t.running && (Settled(cat, t, n) ==> CanonicalText(t, n))
  {
    var t := Rebuilt(cat, image, src, names).value;
    ExactForReady(cat, image, src, names);
    ReconstructedServer(cat, image, src, names);
    forall n | n in t.running
      ensures n !in names ==> Settled(cat, t, n)
      ensures n in names ==> (Settled(cat, t, n) <==> Settled(cat, src, n))
      ensures n in names ==> Settled(cat, t, n) ==> CanonicalText(t, n)
    {
      RowIsSettled(cat, image, src, names, n);
    }
  }

  /** The text of a setting in postgresql.auto.conf is the value pg_settings shows. */
  predicate CanonicalText(s: Server, n: string)
    requires n in s.running
  {
    Last(s.auto, n).Some? ==> Last(s.auto, n) == Some(s.running[n].setting)
  }

  lemma {:induction false} RowIsSettled(cat: Catalogue, image: seq<Line>, src: Server, names: seq<string>, n: string)
    requires SourceReady(cat, src, names) && ImageRepeats(image, src, names) && Exact(cat, image, src, names)
    requires n in Rebuilt(cat, image, src, names).value.running
    ensures var t := Rebuilt(cat, image, src, names).value;
            && (n !in names ==> Settled(cat, t, n))
            && (n in names ==>
                  (Settled(cat, t, n) <==> Settled(cat, src, n)) && (Settled(cat, t, n) ==> CanonicalText(t, n)))
  {
    ReconstructedServer(cat, image, src, names);
    var t := Rebuilt(cat, image, src, names).value;
    SameResolution(cat, t, WrittenServer(cat, image, src, names), n);
    if n in names {
      SameRows(cat, t, src, names, n);
      WrittenResolve(cat, image, src, names, n);
      WrittenFiles(cat, image, src, names, n);
      assert Reconstructible(cat, src, n);
    } else {
      UnwrittenResolve(cat, image, src, names, n);
      FreshSettled(cat, image);
      assert n in Fresh(cat, image).running ==> Settled(cat, Fresh(cat, image), n);
    }
  }
}
