/** From the source's evidence to the end of a rehearsal: reconstruction followed by part of a fix and its
    rollback, and concrete sources on which one of the conditions fails
    (services/sandbox_poc/provenance.py, services/sandbox_poc/workflow.py). */
module Rehearsal {
  import opened Wrappers
  import opened Evidence
  import opened Postgres
  import opened Provenance
  import opened SettingFix

  // -------------------------------------------------------------------------
  // What reconstruction_plan accepts, in terms of the server
  // -------------------------------------------------------------------------

  /** The lines of the compared names hold no line break and no null character. */
  ghost predicate PlainLines(src: Server, names: seq<string>) {
    forall l :: (l in src.conf || l in src.auto) && l.name in names ==> PlainValue(l.value)
  }

  lemma {:induction false} DistinctRows(settings: seq<SettingRow>)
    requires forall i, j :: 0 <= i < j < |settings| ==> settings[i].name != settings[j].name
    ensures |Rows(settings)| == |settings|
  {
    if settings != [] {
      var init, last := settings[..|settings| - 1], settings[|settings| - 1];
      DistinctRows(init);
      assert last.name !in Rows(init);
    }
  }

  lemma {:induction false} CollectedOnce(cat: Catalogue, s: Server, names: seq<string>)
    requires forall i, j :: 0 <= i < j < |names| ==> names[i] != names[j]
    ensures forall r :: r in SettingRows(cat, s, names) ==> r.name in names
    ensures forall i, j :: 0 <= i < j < |SettingRows(cat, s, names)| ==>
              SettingRows(cat, s, names)[i].name != SettingRows(cat, s, names)[j].name
  {
    if names != [] {
      var rest := names[..|names| - 1];
      CollectedOnce(cat, s, rest);
      assert names == rest + [names[|names| - 1]];
      forall i | 0 <= i < |SettingRows(cat, s, rest)|
        ensures SettingRows(cat, s, rest)[i].name != names[|names| - 1]
      {
        assert SettingRows(cat, s, rest)[i] in SettingRows(cat, s, rest);
      }
    }
  }

  lemma {:induction false} ConfEntry(cat: Catalogue, src: Server, names: seq<string>, i: nat)
    requires NoWaiting(cat, src, names) && PlainLines(src, names) && i < |src.conf| && src.conf[i].name in names
    ensures EntryOk(ConfRow(cat, src, i))
  {
    assert src.conf[i] in src.conf;
    ConfRowFlags(cat, src, names, i);
  }

  lemma {:induction false} AutoEntry(cat: Catalogue, src: Server, names: seq<string>, i: nat)
    requires UniqueNames(src.auto) && NoWaiting(cat, src, names) && PlainLines(src, names)
    requires i < |src.auto| && src.auto[i].name in names
    ensures EntryOk(AutoRow(cat, src, i))
  {
    assert src.auto[i] in src.auto;
    AutoRowFlags(cat, src, names, i);
  }

  lemma {:induction false} ReadyEntry(cat: Catalogue, src: Server, names: seq<string>, e: FileRow)
    requires UniqueNames(src.auto) && NoWaiting(cat, src, names) && PlainLines(src, names)
    requires e in Selected(FileRows(cat, src), names)
    ensures EntryOk(e)
  {
    var rows := FileRows(cat, src);
    SelectedMember(rows, names, e);
    var k :| 0 <= k < |rows| && rows[k] == e;
    if k < |src.conf| {
      ConfEntry(cat, src, names, k);
    } else {
      AutoEntry(cat, src, names, k - |src.conf|);
    }
  }

  lemma {:induction false} ReadyRow(cat: Catalogue, src: Server, names: seq<string>, n: string)
    requires SourceReady(cat, src, names) && n in names
    ensures var entries := Selected(FileRows(cat, src), names);
            var row := SettingRow(n, CollectedFields(cat, src, n), false);
            RowOk(row, entries) && CanonicalAuto(row, entries)
  {
    var entries := Selected(FileRows(cat, src), names);
    assert Reconstructible(cat, src, n);
    EntryFor(cat, src, names, n, Conf);
    EntryFor(cat, src, names, n, Auto);
    forall e | e in entries && e.name == n
      ensures HasEntryIn(entries, n, e.file) && e.file in {Conf, Auto}
      ensures e.file == Auto ==> Last(src.auto, n) == Some(e.setting)
    {
      SelectedMember(FileRows(cat, src), names, e);
      RowIsLine(cat, src, e);
      if e.file == Auto {
        LastUnique(src.auto, Line(n, e.setting));
      }
    }
  }

  /** reconstruction_plan accepts a server's evidence if and only if every compared setting is
      reconstructible and its lines are plain. */
  lemma {:induction false} AcceptedIff(cat: Catalogue, src: Server, names: seq<string>)
    requires ValidCatalogue(cat) && ValidServer(cat, src)
    requires forall i, j :: 0 <= i < j < |cat.names| ==> cat.names[i] != cat.names[j]
    ensures Accepts(Collect(cat, src), names)
        <==> (forall n :: n in names ==> Reconstructible(cat, src, n)) && PlainLines(src, names)
  {
    if Accepts(Collect(cat, src), names) {
      AcceptedIsReady(cat, src, names);
      AcceptedIsPlain(cat, src, names);
    }
    if (forall n :: n in names ==> Reconstructible(cat, src, n)) && PlainLines(src, names) {
      ReadyIsAccepted(cat, src, names);
    }
  }

  lemma {:induction false} ReadyIsAccepted(cat: Catalogue, src: Server, names: seq<string>)
    requires SourceReady(cat, src, names) && PlainLines(src, names)
    requires forall i, j :: 0 <= i < j < |cat.names| ==> cat.names[i] != cat.names[j]
    ensures Accepts(Collect(cat, src), names)
  {
    CollectedOnce(cat, src, cat.names);
    DistinctRows(Collect(cat, src).settings);
    ReadyPairs(cat, src, names);
    ReadyEntries(cat, src, names);
    forall n | n in names
      ensures n in Rows(Collect(cat, src).settings)
      ensures RowOk(Rows(Collect(cat, src).settings)[n], Selected(FileRows(cat, src), names))
      ensures CanonicalAuto(Rows(Collect(cat, src).settings)[n], Selected(FileRows(cat, src), names))
    {
      CollectedReadyRow(cat, src, names, n);
    }
  }

  lemma {:induction false} CollectedReadyRow(cat: Catalogue, src: Server, names: seq<string>, n: string)
    requires SourceReady(cat, src, names) && n in names
    ensures n in Rows(Collect(cat, src).settings)
    ensures RowOk(Rows(Collect(cat, src).settings)[n], Selected(FileRows(cat, src), names))
    ensures CanonicalAuto(Rows(Collect(cat, src).settings)[n], Selected(FileRows(cat, src), names))
  {
    assert Reconstructible(cat, src, n);
    CollectedRow(cat, src, n);
    ReadyRow(cat, src, names, n);
  }

  lemma {:induction false} ReadyEntries(cat: Catalogue, src: Server, names: seq<string>)
    requires SourceReady(cat, src, names) && PlainLines(src, names)
    ensures forall e :: e in Selected(FileRows(cat, src), names) ==> EntryOk(e)
  {
    assert NoWaiting(cat, src, names) by {
      assert forall n :: n in names ==> Reconstructible(cat, src, n);
    }
    forall e | e in Selected(FileRows(cat, src), names) ensures EntryOk(e) {
      ReadyEntry(cat, src, names, e);
    }
  }

  lemma {:induction false} AcceptedIsPlain(cat: Catalogue, src: Server, names: seq<string>)
    requires Accepts(Collect(cat, src), names)
    ensures PlainLines(src, names)
  {
    forall l | (l in src.conf || l in src.auto) && l.name in names ensures PlainValue(l.value) {
      var e := LineHasRow(cat, src, names, l, if l in src.conf then Conf else Auto);
      assert EntryOk(e);
    }
  }

  // -------------------------------------------------------------------------
  // From the source's evidence to the end of a rehearsal
  // -------------------------------------------------------------------------

  /** An exactly reconstructed server shows the source's rows, texts and resolutions. */
  lemma {:induction false} RebuiltRow(cat: Catalogue, image: seq<Line>, src: Server, names: seq<string>, n: string)
    requires SourceReady(cat, src, names) && Exact(cat, image, src, names) && n in names
    ensures var t := Rebuilt(cat, image, src, names).value;
            && n in t.running && t.running[n] == src.running[n]
            && Last(t.auto, n) == Last(src.auto, n) && Last(t.conf, n) == Last(src.conf, n)
            && Resolve(cat, t, n) == Resolve(cat, src, n)
  {
    var t := Rebuilt(cat, image, src, names).value;
    ExactForReady(cat, image, src, names);
    ReconstructedServer(cat, image, src, names);
    SameRows(cat, t, src, names, n);
    SameConfLines(cat, image, src, names, n);
    SameResolution(cat, t, src, n);
  }

  /** A server on which the compared names have the same rows, texts and fallbacks. */
  ghost predicate SameTo(cat: Catalogue, s: Server, t: Server, names: seq<string>) {
    forall n :: n in names ==>
      && n in s.running && n in t.running && t.running[n] == s.running[n]
      && Last(t.auto, n) == Last(s.auto, n) && Last(t.conf, n) == Last(s.conf, n)
      && Resolve(cat, t, n) == Resolve(cat, s, n)
  }

  lemma {:induction false} SameConditions(
    cat: Catalogue, s: Server, t: Server, names: seq<string>, fix: seq<Change>, k: nat, activated: bool)
    requires UniqueNames(s.auto) && UniqueNames(t.auto) && SameTo(cat, s, t, names)
    requires Derivable(s, fix) && k <= 2 * |fix| && forall c :: c in fix ==> c.param in names
    ensures Derivable(t, fix) && (TextsKept(t, fix) <==> TextsKept(s, fix))
    ensures Restarts(cat, t, fix, k, activated) <==> Restarts(cat, s, fix, k, activated)
    ensures RestartsBack(cat, t, fix, k) <==> RestartsBack(cat, s, fix, k)
    ensures forall restarts :: RowsKept(cat, t, names, restarts) <==> RowsKept(cat, s, names, restarts)
  {
    forall c | c in fix
      ensures UndoOf(t, c) == UndoOf(s, c) && UndoneText(t, c.param) == UndoneText(s, c.param)
      ensures NeedsRestart(cat, t, c) <==> NeedsRestart(cat, s, c)
      ensures NeedsRestartBack(cat, t, c) <==> NeedsRestartBack(cat, s, c)
    {
      assert c.param in names;
      LastReset(s.auto, c.param, c.param);
      LastReset(t.auto, c.param, c.param);
    }
    assert forall c :: c in Begun(fix, k) ==> c in fix;
  }

  /** From accepted evidence, the sandbox reproduces the source's signature and a rehearsal (any prefix of
      the fix, activated or not, then its rollback) gives it back, if and only if the image and the source
      are reproducible, every changed setting ran what its files say, so did every compared setting that is
      read again, and a server that the fix restarted is restarted by the rollback. */
  lemma {:induction false} EndToEnd(
    cat: Catalogue, image: seq<Line>, src: Server, names: seq<string>, fix: seq<Change>, k: nat, activated: bool)
    requires ValidCatalogue(cat) && ValidServer(cat, src) && Accepts(Collect(cat, src), names)
    requires DistinctParams(fix) && Derivable(src, fix) && k <= |ApplyScript(fix)|
    requires forall c :: c in fix ==> c.param in names
    ensures forall n :: n in names ==> n in src.running
    ensures Exact(cat, image, src, names) ==> Derivable(Rebuilt(cat, image, src, names).value, fix)
    ensures Exact(cat, image, src, names)
            && Sig(cat, Rehearsed(cat, Rebuilt(cat, image, src, names).value, fix, k, activated), names)
              == Sig(cat, src, names)
        <==> && Reproducible(cat, image, src, names)
             && (forall c :: c in fix ==> Settled(cat, src, c.param))
             && RowsKept(cat, src, names, Restarts(cat, src, fix, k, activated))
             && (Restarts(cat, src, fix, k, activated) ==> RestartsBack(cat, src, fix, k))
  {
    AcceptedIsReady(cat, src, names);
    assert forall n :: n in names ==> Reconstructible(cat, src, n);
    ExactForReady(cat, image, src, names);
    if Exact(cat, image, src, names) {
      RehearsedFromRebuilt(cat, image, src, names, fix, k, activated);
    }
  }

  lemma {:induction false} RehearsedFromRebuilt(
    cat: Catalogue, image: seq<Line>, src: Server, names: seq<string>, fix: seq<Change>, k: nat, activated: bool)
    requires SourceReady(cat, src, names) && Exact(cat, image, src, names)
    requires DistinctParams(fix) && Derivable(src, fix) && k <= |ApplyScript(fix)|
    requires forall c :: c in fix ==> c.param in names
    ensures forall n :: n in names ==> n in src.running
    ensures var t := Rebuilt(cat, image, src, names).value;
            && Derivable(t, fix)
            && (Sig(cat, Rehearsed(cat, t, fix, k, activated), names) == Sig(cat, src, names)
                <==> && (forall c :: c in fix ==> Settled(cat, src, c.param))
                     && RowsKept(cat, src, names, Restarts(cat, src, fix, k, activated))
                     && (Restarts(cat, src, fix, k, activated) ==> RestartsBack(cat, src, fix, k)))
  {
    var t := Rebuilt(cat, image, src, names).value;
    ReadyNames(cat, src, names, fix);
    RebuiltIsSame(cat, image, src, names);
    SameConditions(cat, src, t, names, fix, k, activated);
    RehearsalExactIff(cat, t, names, fix, k, activated);
    if RowsKept(cat, src, names, Restarts(cat, src, fix, k, activated)) {
      ReadyTexts(cat, src, names, fix, Restarts(cat, src, fix, k, activated));
    }
  }

  lemma {:induction false} RebuiltIsSame(cat: Catalogue, image: seq<Line>, src: Server, names: seq<string>)
    requires SourceReady(cat, src, names) && Exact(cat, image, src, names)
    ensures var t := Rebuilt(cat, image, src, names).value;
            NoneWaiting(cat, t) && SameTo(cat, src, t, names) && Sig(cat, t, names) == Sig(cat, src, names)
  {
    var t := Rebuilt(cat, image, src, names).value;
    ReconstructedServer(cat, image, src, names);
    forall n | n in names
      ensures n in src.running && n in t.running && t.running[n] == src.running[n]
      ensures Last(t.auto, n) == Last(src.auto, n) && Last(t.conf, n) == Last(src.conf, n)
      ensures Resolve(cat, t, n) == Resolve(cat, src, n)
    {
      assert Reconstructible(cat, src, n);
      RebuiltRow(cat, image, src, names, n);
    }
  }

  /** For a settled source of built-in settings only the image's own lines matter, and unless a RESET
      restarts the server for nothing the whole server comes back, not only the compared evidence. */
  lemma {:induction false} SettledEndToEnd(
    cat: Catalogue, image: seq<Line>, src: Server, names: seq<string>, fix: seq<Change>, k: nat, activated: bool)
    requires ValidCatalogue(cat) && ValidServer(cat, src) && Accepts(Collect(cat, src), names)
    requires forall n :: n in names ==> cat.library(n).None? && n in src.running && Settled(cat, src, n)
    requires DistinctParams(fix) && Derivable(src, fix) && k <= |ApplyScript(fix)|
    requires forall c :: c in fix ==> c.param in names
    ensures Exact(cat, image, src, names) <==> ImageRepeats(image, src, names)
    ensures Exact(cat, image, src, names) ==>
              var t := Rebuilt(cat, image, src, names).value;
              && Derivable(t, fix)
              && (SameServer(t, Rehearsed(cat, t, fix, k, activated))
                  <==> (Restarts(cat, src, fix, k, activated) ==> RestartsBack(cat, src, fix, k)))
  {
    AcceptedIsReady(cat, src, names);
    BuiltInIsLoaded(cat, image, src, names);
    ExactForReady(cat, image, src, names);
    if Exact(cat, image, src, names) {
      SettledRehearsal(cat, image, src, names, fix, k, activated);
    }
  }

  lemma {:induction false} BuiltInIsLoaded(cat: Catalogue, image: seq<Line>, src: Server, names: seq<string>)
    requires ValidServer(cat, src)
    requires forall n :: n in names ==> cat.library(n).None? && n in src.running
    ensures LibrariesLoaded(cat, image, names)
  {
    forall n | n in names ensures n in Fresh(cat, image).running {
      assert n in cat.Known(src.running[PRELOAD].setting);
    }
  }

  lemma {:induction false} SettledRehearsal(
    cat: Catalogue, image: seq<Line>, src: Server, names: seq<string>, fix: seq<Change>, k: nat, activated: bool)
    requires SourceReady(cat, src, names) && Exact(cat, image, src, names)
    requires forall n :: n in names ==> n in src.running && Settled(cat, src, n)
    requires DistinctParams(fix) && Derivable(src, fix) && k <= |ApplyScript(fix)|
    requires forall c :: c in fix ==> c.param in names
    ensures var t := Rebuilt(cat, image, src, names).value;
            && Derivable(t, fix)
            && (SameServer(t, Rehearsed(cat, t, fix, k, activated))
                <==> (Restarts(cat, src, fix, k, activated) ==> RestartsBack(cat, src, fix, k)))
  {
    var t := Rebuilt(cat, image, src, names).value;
    ExactReconstructionIsSettled(cat, image, src, names);
    ReadyNames(cat, src, names, fix);
    RebuiltIsSame(cat, image, src, names);
    SameConditions(cat, src, t, names, fix, k, activated);
    KeptIffCanonical(cat, t, fix);
    SettledRowsKept(cat, t, cat.names, Restarts(cat, t, fix, k, activated));
    UndoExactIff(cat, t, fix, k, activated);
  }

  // -------------------------------------------------------------------------
  // Sources on which one of the conditions fails
  // -------------------------------------------------------------------------

  const ADDRESSES := "listen_addresses"
  const CONNECTIONS := "log_connections"

  /** A server build with the reviewed restart settings and one reloadable setting, whose text `true` is
      shown as `on`. */
  const BUILD := Catalogue(
    ["logging_collector", ADDRESSES, PRELOAD, CONNECTIONS], n => None, (list, library) => false,
    n => if n in RESTART_SETTINGS then Postmaster else Reloadable, n => "",
    (n: string, v: string) => if n == CONNECTIONS && v == "true" then "on" else v, (n, v) => v)

  ghost predicate SimpleBuild(cat: Catalogue) {
    && ValidCatalogue(cat)
    && (forall i, j :: 0 <= i < j < |cat.names| ==> cat.names[i] != cat.names[j])
    && (forall n, list :: n in cat.names <==> n in cat.Known(list))
    && (forall n :: cat.boot(n) == "")
  }

  lemma {:induction false} BuildIsSimple()
    ensures SimpleBuild(BUILD)
  {
  }

  function OneText(name: string, text: Option<string>): (lines: seq<Line>) {
    match text
    case None => []
    case Some(v) => [Line(name, v)]
  }

  /** A server on which one setting differs from its built-in value. */
  function OneSetting(cat: Catalogue, name: string, conf: Option<string>, auto: Option<string>, r: Running)
    : (s: Server)
  {
    Server(OneText(name, conf), OneText(name, auto), (map n | n in cat.Known("") :: Running("", None))[name := r], {})
  }

  lemma {:induction false} OneTextLast(name: string, text: Option<string>, n: string)
    ensures Last(OneText(name, text), n) == if n == name then text else None
    ensures forall l :: l in OneText(name, text) <==> l.name == name && text == Some(l.value)
  {
    if text.Some? {
      LastAppend([], Line(name, text.value), n);
      assert [] + OneText(name, text) == OneText(name, text);
    }
  }

  lemma {:induction false} OneSettingFacts(
    cat: Catalogue, name: string, conf: Option<string>, auto: Option<string>, r: Running)
    requires SimpleBuild(cat) && name in cat.names && name != PRELOAD && ValidRow(cat, name, r)
    requires !Waits(ResolveText(cat, OneSetting(cat, name, conf, None, r), name, auto), r)
    ensures var s := OneSetting(cat, name, conf, auto, r);
            && ValidServer(cat, s) && NoneWaiting(cat, s)
            && (Settled(cat, s, name) ==> AllSettled(cat, s))
            && Last(s.conf, name) == conf && Last(s.auto, name) == auto
  {
    var s := OneSetting(cat, name, conf, auto, r);
    OneSettingValid(cat, name, conf, auto, r);
    OneTextLast(name, conf, name);
    OneTextLast(name, auto, name);
    OneTextLast(name, None, name);
    forall n | n in s.running && n != name ensures Settled(cat, s, n) {
      OneTextLast(name, conf, n);
      OneTextLast(name, auto, n);
    }
  }

  lemma {:induction false} OneSettingValid(
    cat: Catalogue, name: string, conf: Option<string>, auto: Option<string>, r: Running)
    requires SimpleBuild(cat) && name in cat.names && name != PRELOAD && ValidRow(cat, name, r)
    ensures ValidServer(cat, OneSetting(cat, name, conf, auto, r))
  {
    assert PRELOAD in RESTART_SETTINGS;
  }

  lemma {:induction false} OneSettingAccepted(
    cat: Catalogue, name: string, conf: Option<string>, auto: Option<string>, r: Running)
    requires SimpleBuild(cat) && ValidServer(cat, OneSetting(cat, name, conf, auto, r))
    requires Reconstructible(cat, OneSetting(cat, name, conf, auto, r), name)
    requires (conf.Some? ==> PlainValue(conf.value)) && (auto.Some? ==> PlainValue(auto.value))
    ensures Accepts(Collect(cat, OneSetting(cat, name, conf, auto, r)), [name])
  {
    OneTextLast(name, conf, name);
    OneTextLast(name, auto, name);
    AcceptedIff(cat, OneSetting(cat, name, conf, auto, r), [name]);
  }

  const UNLOADED := OneSetting(BUILD, ADDRESSES, Some("*"), Some("*"), Running("*", Some(Conf)))

  lemma {:induction false} UnloadedFacts()
    ensures NoneWaiting(BUILD, UNLOADED) && Reconstructible(BUILD, UNLOADED, ADDRESSES)
    ensures Last(UNLOADED.auto, ADDRESSES) == Some("*") && UndoneText(UNLOADED, ADDRESSES) == None
    ensures !Settled(BUILD, UNLOADED, ADDRESSES)
    ensures SimpleBuild(BUILD) && Accepts(Collect(BUILD, UNLOADED), [ADDRESSES])
  {
    BuildIsSimple();
    OneSettingFacts(BUILD, ADDRESSES, Some("*"), Some("*"), Running("*", Some(Conf)));
    assert |UNLOADED.conf| == 1;
    assert Reconstructible(BUILD, UNLOADED, ADDRESSES);
    OneSettingAccepted(BUILD, ADDRESSES, Some("*"), Some("*"), Running("*", Some(Conf)));
  }

  /** Evidence collected after a line was added to postgresql.auto.conf and before it was loaded:
      reconstruction_plan accepts it and nothing waits, but the rollback of a fix drops that line. */
  lemma {:induction false} UnloadedLineExample(fix: seq<Change>)
    requires fix == [Change(ADDRESSES, Some("localhost"))]
    ensures NoneWaiting(BUILD, UNLOADED) && Accepts(Collect(BUILD, UNLOADED), [ADDRESSES])
    ensures Derivable(UNLOADED, fix) && |ApplyScript(fix)| == 2
    ensures var t := Rehearsed(BUILD, UNLOADED, fix, 2, true);
            && Sig(BUILD, t, [ADDRESSES]) != Sig(BUILD, UNLOADED, [ADDRESSES])
            && Last(UNLOADED.auto, ADDRESSES) == Some("*") && Last(t.auto, ADDRESSES) == None
  {
    UnloadedFacts();
    RehearsalDrops(BUILD, UNLOADED, fix[0]);
  }

  /** A rehearsal of a setting whose text the rollback does not write back. */
  lemma {:induction false} RehearsalDrops(cat: Catalogue, s: Server, c: Change)
    requires ValidCatalogue(cat) && NoneWaiting(cat, s) && Allowed(cat, c.param) && UndoOf(s, c).Ok?
    requires UndoneText(s, c.param) != Last(s.auto, c.param)
    ensures Derivable(s, [c]) && |ApplyScript([c])| == 2
    ensures var t := Rehearsed(cat, s, [c], 2, true);
            Last(t.auto, c.param) == UndoneText(s, c.param) && Sig(cat, t, [c.param]) != Sig(cat, s, [c.param])
  {
    var fix := [c];
    assert c in fix && Touches(fix, c.param);
    UndoneLast(cat, s, fix, c.param);
    RehearsalExactIff(cat, s, [c.param], fix, 2, true);
  }

  lemma {:induction false} UndoneLast(cat: Catalogue, s: Server, fix: seq<Change>, n: string)
    requires ValidCatalogue(cat) && NoneWaiting(cat, s) && AllAllowed(cat, fix) && Derivable(s, fix)
    requires |ApplyScript(fix)| == 2 && Touches(fix, n)
    ensures Last(Rehearsed(cat, s, fix, 2, true).auto, n) == UndoneText(s, n)
  {
    DrivenDrifts(cat, s, fix, 2, true);
    UndoneQuiet(cat, s, DrivenBy(cat, s, fix, 2, true), fix);
  }

  const BOTH := [ADDRESSES, CONNECTIONS]
  const IMAGE := [Line(ADDRESSES, "*")]

  /** Any other reloadable setting of that server has its built-in value and no line. */
  lemma {:induction false} OtherSetting(
    cat: Catalogue, name: string, conf: Option<string>, auto: Option<string>, r: Running, n: string)
    requires SimpleBuild(cat) && n in cat.names && n != name && !cat.AtStart(n)
    ensures var s := OneSetting(cat, name, conf, auto, r);
            n in s.running && Settled(cat, s, n) && Reconstructible(cat, s, n)
  {
    OneTextLast(name, conf, n);
    OneTextLast(name, auto, n);
    assert n in cat.Known("");
  }

  lemma {:induction false} UnloadedAccepted()
    ensures ValidCatalogue(BUILD) && ValidServer(BUILD, UNLOADED) && Accepts(Collect(BUILD, UNLOADED), BOTH)
    ensures CONNECTIONS in UNLOADED.running && Settled(BUILD, UNLOADED, CONNECTIONS)
  {
    UnloadedFacts();
    OtherSetting(BUILD, ADDRESSES, Some("*"), Some("*"), Running("*", Some(Conf)), CONNECTIONS);
    PlainUnloaded();
    AcceptedBoth(BUILD, UNLOADED);
  }

  lemma {:induction false} AcceptedBoth(cat: Catalogue, s: Server)
    requires SimpleBuild(cat) && ValidServer(cat, s) && PlainLines(s, BOTH)
    requires Reconstructible(cat, s, ADDRESSES) && Reconstructible(cat, s, CONNECTIONS)
    ensures Accepts(Collect(cat, s), BOTH)
  {
    AcceptedIff(cat, s, BOTH);
  }

  lemma {:induction false} PlainUnloaded()
    ensures PlainLines(UNLOADED, BOTH)
  {
    OneTextLast(ADDRESSES, Some("*"), ADDRESSES);
  }

  lemma {:induction false} ImageRow(cat: Catalogue)
    requires SimpleBuild(cat) && ADDRESSES in cat.names
    ensures ADDRESSES in Fresh(cat, IMAGE).running
    ensures Fresh(cat, IMAGE).running[ADDRESSES] == Running(cat.canon(ADDRESSES, "*"), Some(Conf))
  {
    LastAppend([], Line(ADDRESSES, "*"), ADDRESSES);
    assert [] + IMAGE == IMAGE;
    FreshSettled(cat, IMAGE);
    assert Settled(cat, Fresh(cat, IMAGE), ADDRESSES);
  }

  lemma {:induction false} UnloadedImage(cat: Catalogue, s: Server)
    requires SimpleBuild(cat) && ADDRESSES in cat.names && cat.AtStart(ADDRESSES) && !cat.AtStart(CONNECTIONS)
    requires ADDRESSES in s.running && CONNECTIONS in s.running && Settled(cat, s, CONNECTIONS)
    requires s.running[ADDRESSES] == Running(cat.canon(ADDRESSES, "*"), Some(Conf))
    requires Last(s.conf, ADDRESSES) == Some("*")
    ensures forall n :: n in BOTH ==> n in s.running
    ensures ImageRepeats(IMAGE, s, BOTH) && ImageRuns(cat, IMAGE, s, BOTH) && SettledIn(cat, s, BOTH, false)
  {
    ImageRow(cat);
  }

  /** The same source is reproduced exactly by an image that already has the line of postgresql.conf, old row
      included, so a fix of a reloadable setting is rehearsed from a server that is not settled. */
  lemma {:induction false} UnloadedLineIsReproduced()
    ensures ValidCatalogue(BUILD) && ValidServer(BUILD, UNLOADED) && Accepts(Collect(BUILD, UNLOADED), BOTH)
    ensures forall n :: n in BOTH ==> n in UNLOADED.running
    ensures Exact(BUILD, IMAGE, UNLOADED, BOTH) && !SettledIn(BUILD, UNLOADED, BOTH, true)
  {
    UnloadedFacts();
    UnloadedAccepted();
    AcceptedIsReady(BUILD, UNLOADED, BOTH);
    OneTextLast(ADDRESSES, Some("*"), ADDRESSES);
    UnloadedImage(BUILD, UNLOADED);
    BuiltInIsLoaded(BUILD, IMAGE, UNLOADED, BOTH);
    ExactForReady(BUILD, IMAGE, UNLOADED, BOTH);
  }

  const SOURCE := OneSetting(BUILD, ADDRESSES, Some("*"), None, Running("*", Some(Conf)))

  /** An image line that does not repeat the source's value: the source is settled and accepted, and no
      reconstruction of it is exact. */
  lemma {:induction false} ImageLineExample(image: seq<Line>)
    requires Line(ADDRESSES, "localhost") in image
    ensures ValidCatalogue(BUILD) && AllSettled(BUILD, SOURCE) && Accepts(Collect(BUILD, SOURCE), [ADDRESSES])
    ensures !Exact(BUILD, image, SOURCE, [ADDRESSES])
  {
    BuildIsSimple();
    OneSettingFacts(BUILD, ADDRESSES, Some("*"), None, Running("*", Some(Conf)));
    assert |SOURCE.conf| == 1;
    assert Reconstructible(BUILD, SOURCE, ADDRESSES);
    OneSettingAccepted(BUILD, ADDRESSES, Some("*"), None, Running("*", Some(Conf)));
    AcceptedIsReady(BUILD, SOURCE, [ADDRESSES]);
    assert !ImageRepeats(image, SOURCE, [ADDRESSES]);
    ExactForReady(BUILD, image, SOURCE, [ADDRESSES]);
  }

  const ALIAS := OneSetting(BUILD, CONNECTIONS, None, Some("true"), Running("on", Some(Auto)))

  /** A textual alias: log_connections written as 'true' in postgresql.auto.conf comes back as 'on'. */
  lemma {:induction false} AliasExample(fix: seq<Change>)
    requires fix == [Change(CONNECTIONS, Some("off"))]
    ensures AllSettled(BUILD, ALIAS) && Derivable(ALIAS, fix) && |ApplyScript(fix)| == 2
    ensures Last(ALIAS.auto, CONNECTIONS) == Some("true")
    ensures Last(Rehearsed(BUILD, ALIAS, fix, 2, true).auto, CONNECTIONS) == Some("on")
  {
    BuildIsSimple();
    OneSettingFacts(BUILD, CONNECTIONS, None, Some("true"), Running("on", Some(Auto)));
    RehearsalDrops(BUILD, ALIAS, fix[0]);
  }
}
