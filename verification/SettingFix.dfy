/** Setting fixes and their rollback: the typed actions, their rendering, and exactly when applying part
    of a fix and undoing it leaves the server as it was (backend/app/services/fix_unit_render.py and the
    apply and rollback phases of services/sandbox_poc/workflow.py). */
module SettingFix {
  import opened Wrappers
  import opened Evidence
  import opened Postgres
  import opened Provenance
  import NameLists

  datatype Action =
    | SetConfig(param: string, value: string)
    | SetConfigList(param: string, values: seq<string>)
    | ResetConfig(param: string)

  /** The recorded row a fix starts from. */
  datatype Prior = Prior(value: string, sourcefile: Option<File>)

  datatype Statement = Set(param: string, value: string) | Reset(param: string) | ReloadConf

  /** derive_rollback: a value from postgresql.auto.conf is written back, anything else is reset;
      resetting a parameter that has no line there would be a no-op and is refused. */
  function DeriveRollback(prior: Prior, apply: Action): (r: Result<Action, string>) {
    match apply
    case SetConfig(param, _) =>
      Ok(if prior.sourcefile == Some(Auto) then SetConfig(param, prior.value) else ResetConfig(param))
    case ResetConfig(param) =>
      if prior.sourcefile == Some(Auto) then Ok(SetConfig(param, prior.value)) else Err("RESET apply is a no-op")
    case SetConfigList(_, _) => Err("Unknown action type")
  }

  /** render_action: ALTER SYSTEM first, then the reload. */
  function RenderAction(action: Action): (script: seq<Statement>)
    ensures |script| == 2 && script[1] == ReloadConf
  {
    match action
    case SetConfig(param, value) => [Set(param, value), ReloadConf]
    case SetConfigList(param, values) => [Set(param, NameLists.ListText(values)), ReloadConf]
    case ResetConfig(param) => [Reset(param), ReloadConf]
  }

  function Exec(cat: Catalogue, s: Server, statement: Statement): (t: Server) {
    match statement
    case Set(param, value) => AlterSet(s, param, value)
    case Reset(param) => AlterReset(s, param)
    case ReloadConf => Reload(cat, s)
  }

  function Run(cat: Catalogue, s: Server, script: seq<Statement>): (t: Server) {
    if script == [] then s else Exec(cat, Run(cat, s, script[..|script| - 1]), script[|script| - 1])
  }

  lemma {:induction false} RunOne(cat: Catalogue, s: Server, script: seq<Statement>, statement: Statement)
    ensures Run(cat, s, script + [statement]) == Exec(cat, Run(cat, s, script), statement)
  {
    assert (script + [statement])[..|script|] == script;
  }

  /** Feeds the first `ran` statements of a script to the server, one after another. */
  method RunSql(runtime: DisposablePostgres, script: seq<Statement>, ran: nat)
    requires ran <= |script|
    modifies runtime
    ensures runtime.View() == Run(runtime.cat, old(runtime.View()), script[..ran])
  {
    var i := 0;
    while i < ran
      invariant i <= ran
      invariant runtime.View() == Run(runtime.cat, old(runtime.View()), script[..i])
    {
      RunOne(runtime.cat, old(runtime.View()), script[..i], script[i]);
      assert script[..i + 1] == script[..i] + [script[i]];
      match script[i] {
        case Set(param, value) => runtime.AlterSystemSet(param, value);
        case Reset(param) => runtime.AlterSystemReset(param);
        case ReloadConf => runtime.ReloadConfiguration();
      }
      i := i + 1;
    }
  }

  // -------------------------------------------------------------------------
  // Fixes
  // -------------------------------------------------------------------------

  /** One parameter of a fix and the text it gives it in postgresql.auto.conf; no text is a RESET. */
  datatype Change = Change(param: string, text: Option<string>)

  function ActionFor(param: string, text: Option<string>): (action: Action) {
    match text
    case Some(value) => SetConfig(param, value)
    case None => ResetConfig(param)
  }

  function ApplyScript(fix: seq<Change>): (script: seq<Statement>)
    ensures |script| == 2 * |fix|
  {
    if fix == [] then []
    else
      var last := fix[|fix| - 1];
      ApplyScript(fix[..|fix| - 1]) + RenderAction(ActionFor(last.param, last.text))
  }

  /** The rollback of one change, derived from the row recorded before the fix; a setting that had no row
      is reset. */
  function UndoOf(s: Server, c: Change): (r: Result<Action, string>) {
    if c.param in s.running then
      DeriveRollback(Prior(s.running[c.param].setting, s.running[c.param].file), ActionFor(c.param, c.text))
    else Ok(ResetConfig(c.param))
  }

  predicate Derivable(s: Server, fix: seq<Change>) {
    forall c | c in fix :: UndoOf(s, c).Ok?
  }

  /** rollback_sql: the changes in reverse order. */
  function UndoScript(s: Server, fix: seq<Change>): (script: seq<Statement>)
    requires Derivable(s, fix)
  {
    if fix == [] then [] else UndoScript(s, fix[1..]) + RenderAction(UndoOf(s, fix[0]).value)
  }

  /** The rehearsal of one fix: part of the apply script, possibly its activation, then the complete
      rollback and its activation. */
  function Rehearsed(cat: Catalogue, s: Server, fix: seq<Change>, k: nat, activated: bool): (t: Server)
    requires k <= |ApplyScript(fix)| && Derivable(s, fix)
  {
    Activated(cat, Run(cat, DrivenBy(cat, s, fix, k, activated), UndoScript(s, fix)))
  }

  function DrivenBy(cat: Catalogue, s: Server, fix: seq<Change>, k: nat, activated: bool): (t: Server)
    requires k <= |ApplyScript(fix)|
  {
    var part := Run(cat, s, ApplyScript(fix)[..k]);
    if activated then Activated(cat, part) else part
  }

  // -------------------------------------------------------------------------
  // What scripts do to the files and to the running rows
  // -------------------------------------------------------------------------

  predicate Touches(fix: seq<Change>, n: string) {
    exists c | c in fix :: c.param == n
  }

  /** The text of a name in postgresql.auto.conf after a script. */
  function TextAfter(script: seq<Statement>, n: string, text: Option<string>): (after: Option<string>) {
    if script == [] then text
    else
      match script[|script| - 1]
      case Set(p, v) => if p == n then Some(v) else TextAfter(script[..|script| - 1], n, text)
      case Reset(p) => if p == n then None else TextAfter(script[..|script| - 1], n, text)
      case ReloadConf => TextAfter(script[..|script| - 1], n, text)
  }

  /** No script changes postgresql.conf, restarts the server or loads a library. */
  ghost predicate SameAtStart(cat: Catalogue, s: Server, t: Server) {
    && t.conf == s.conf && t.running.Keys == s.running.Keys
    && forall n :: n in s.running && cat.AtStart(n) ==> t.running[n] == s.running[n]
  }

  lemma {:induction false} RunKeeps(cat: Catalogue, s: Server, script: seq<Statement>)
    requires ValidCatalogue(cat) && ValidServer(cat, s)
    ensures ValidServer(cat, Run(cat, s, script)) && SameAtStart(cat, s, Run(cat, s, script))
  {
    if script != [] {
      var t := Run(cat, s, script[..|script| - 1]);
      RunKeeps(cat, s, script[..|script| - 1]);
      assert cat.AtStart(PRELOAD) by {
        assert PRELOAD in RESTART_SETTINGS;
      }
      match script[|script| - 1] {
        case Set(p, v) => LastSet(t.auto, p, v, p);
        case Reset(p) => LastReset(t.auto, p, p);
        case ReloadConf => ReloadValid(cat, t);
      }
    }
  }

  lemma {:induction false} RunText(cat: Catalogue, s: Server, script: seq<Statement>, n: string)
    requires UniqueNames(s.auto)
    ensures UniqueNames(Run(cat, s, script).auto)
    ensures Last(Run(cat, s, script).auto, n) == TextAfter(script, n, Last(s.auto, n))
  {
    if script != [] {
      var t := Run(cat, s, script[..|script| - 1]);
      RunText(cat, s, script[..|script| - 1], n);
      match script[|script| - 1] {
        case Set(p, v) => LastSet(t.auto, p, v, n);
        case Reset(p) => LastReset(t.auto, p, n);
        case ReloadConf =>
      }
    }
  }

  lemma {:induction false} TextPair(script: seq<Statement>, first: Statement, n: string, text: Option<string>)
    ensures TextAfter(script + [first, ReloadConf], n, text) == TextAfter(script + [first], n, text)
    ensures TextAfter(script + [first], n, text)
         == match first
            case Set(p, v) => if p == n then Some(v) else TextAfter(script, n, text)
            case Reset(p) => if p == n then None else TextAfter(script, n, text)
            case ReloadConf => TextAfter(script, n, text)
  {
    assert (script + [first, ReloadConf])[..|script| + 1] == script + [first];
    assert (script + [first])[..|script|] == script;
  }

  /** The text the changes of a fix give a name; the last change of a name decides. */
  function FixText(fix: seq<Change>, n: string, text: Option<string>): (after: Option<string>) {
    if fix == [] then text
    else if fix[|fix| - 1].param == n then fix[|fix| - 1].text
    else FixText(fix[..|fix| - 1], n, text)
  }

  /** The changes whose ALTER SYSTEM statement is among the first k statements of the apply script. */
  function Begun(fix: seq<Change>, k: nat): (part: seq<Change>)
    requires k <= 2 * |fix|
  {
    fix[..(k + 1) / 2]
  }

  lemma {:induction false} TakePair(before: seq<Statement>, first: Statement, k: nat)
    requires k <= |before| + 2
    ensures (before + [first, ReloadConf])[..k]
         == if k <= |before| then before[..k]
            else if k == |before| + 1 then before + [first] else before + [first, ReloadConf]
  {
  }

  lemma {:induction false} TextAppended(before: seq<Statement>, c: Change, k: nat, n: string, text: Option<string>)
    requires |before| < k <= |before| + 2
    ensures TextAfter((before + RenderAction(ActionFor(c.param, c.text)))[..k], n, text)
         == if c.param == n then c.text else TextAfter(before, n, text)
  {
    var first := RenderAction(ActionFor(c.param, c.text))[0];
    assert RenderAction(ActionFor(c.param, c.text)) == [first, ReloadConf];
    TakePair(before, first, k);
    TextPair(before, first, n, text);
  }

  lemma {:induction false} ApplyText(fix: seq<Change>, k: nat, n: string, text: Option<string>)
    requires k <= |ApplyScript(fix)|
    ensures TextAfter(ApplyScript(fix)[..k], n, text) == FixText(Begun(fix, k), n, text)
  {
    if fix != [] {
      var init, last := fix[..|fix| - 1], fix[|fix| - 1];
      var before := ApplyScript(init);
      if k <= |before| {
        ApplyText(init, k, n, text);
        assert ApplyScript(fix)[..k] == before[..k] && Begun(fix, k) == Begun(init, k);
      } else {
        ApplyText(init, |before|, n, text);
        assert before[..|before|] == before && Begun(init, |before|) == init;
        TextAppended(before, last, k, n, text);
        assert Begun(fix, k) == fix;
      }
    }
  }

  /** The text a rollback leaves for a parameter: the recorded value if it came from
      postgresql.auto.conf, otherwise none. */
  function UndoneText(s: Server, param: string): (text: Option<string>) {
    if param in s.running && s.running[param].file == Some(Auto) then Some(s.running[param].setting) else None
  }

  lemma {:induction false} UndoText(s: Server, fix: seq<Change>, n: string, text: Option<string>)
    requires Derivable(s, fix)
    ensures TextAfter(UndoScript(s, fix), n, text) == if Touches(fix, n) then UndoneText(s, n) else text
  {
    if fix != [] {
      var rest, first := UndoScript(s, fix[1..]), RenderAction(UndoOf(s, fix[0]).value)[0];
      assert UndoScript(s, fix) == rest + [first, ReloadConf];
      UndoText(s, fix[1..], n, text);
      TextPair(rest, first, n, text);
      TouchesCons(fix, n);
    }
  }

  lemma {:induction false} TouchesCons(fix: seq<Change>, n: string)
    requires fix != []
    ensures Touches(fix, n) <==> fix[0].param == n || Touches(fix[1..], n)
  {
    assert fix == [fix[0]] + fix[1..];
  }

  lemma {:induction false} FixTextUntouched(fix: seq<Change>, n: string, text: Option<string>)
    requires !Touches(fix, n)
    ensures FixText(fix, n, text) == text
  {
    if fix != [] {
      assert fix[|fix| - 1] in fix;
      assert forall c :: c in fix[..|fix| - 1] ==> c in fix;
      FixTextUntouched(fix[..|fix| - 1], n, text);
    }
  }

  ghost predicate DistinctParams(fix: seq<Change>) {
    forall i, j :: 0 <= i < j < |fix| ==> fix[i].param != fix[j].param
  }

  lemma {:induction false} FixTextOf(fix: seq<Change>, c: Change, text: Option<string>)
    requires DistinctParams(fix) && c in fix
    ensures FixText(fix, c.param, text) == c.text
  {
    var last := fix[|fix| - 1];
    if c != last {
      assert fix == fix[..|fix| - 1] + [last];
      FixTextOf(fix[..|fix| - 1], c, text);
    }
  }

  // -------------------------------------------------------------------------
  // When a fix and its rollback restart the server
  // -------------------------------------------------------------------------

  /** What a setting resolves to when postgresql.auto.conf holds the given text. */
  function ResolveText(cat: Catalogue, s: Server, param: string, text: Option<string>): (r: Running) {
    match text
    case Some(v) => Running(cat.canon(param, v), Some(Auto))
    case None => Resolve(cat, AlterReset(s, param), param)
  }

  /** With its new text, a setting fixed at server start waits for a restart. */
  predicate NeedsRestart(cat: Catalogue, s: Server, c: Change) {
    && c.param in s.running && cat.AtStart(c.param)
    && Waits(ResolveText(cat, s, c.param, c.text), s.running[c.param])
  }

  /** Once it runs with its new text, it waits for a restart with its old one. */
  predicate NeedsRestartBack(cat: Catalogue, s: Server, c: Change) {
    cat.AtStart(c.param) && Waits(Resolve(cat, s, c.param), ResolveText(cat, s, c.param, c.text))
  }

  /** The activation restarts: it is reached after an ALTER SYSTEM that needs it. */
  predicate Restarts(cat: Catalogue, s: Server, fix: seq<Change>, k: nat, activated: bool)
    requires k <= 2 * |fix|
  {
    activated && exists c | c in Begun(fix, k) :: NeedsRestart(cat, s, c)
  }

  /** After that restart, the rollback restarts again. */
  predicate RestartsBack(cat: Catalogue, s: Server, fix: seq<Change>, k: nat)
    requires k <= 2 * |fix|
  {
    exists c | c in Begun(fix, k) :: NeedsRestartBack(cat, s, c)
  }

  lemma {:induction false} TextResolves(cat: Catalogue, s: Server, t: Server, n: string)
    requires UniqueNames(s.auto) && t.conf == s.conf
    ensures Resolve(cat, t, n) == ResolveText(cat, s, n, Last(t.auto, n))
  {
    LastReset(s.auto, n, n);
  }

  lemma {:induction false} BegunDistinct(fix: seq<Change>, k: nat)
    requires k <= 2 * |fix| && DistinctParams(fix)
    ensures DistinctParams(Begun(fix, k))
  {
  }

  /** How the settings resolve after part of the apply script: by their new texts, or as before. */
  lemma {:induction false} PartResolves(cat: Catalogue, s: Server, fix: seq<Change>, k: nat, n: string)
    requires ValidCatalogue(cat) && ValidServer(cat, s) && DistinctParams(fix) && k <= |ApplyScript(fix)|
    ensures var part := Run(cat, s, ApplyScript(fix)[..k]);
            && (forall c :: c in Begun(fix, k) && c.param == n ==>
                  Resolve(cat, part, n) == ResolveText(cat, s, n, c.text))
            && (!Touches(Begun(fix, k), n) ==> Resolve(cat, part, n) == Resolve(cat, s, n))
  {
    var part := Run(cat, s, ApplyScript(fix)[..k]);
    RunKeeps(cat, s, ApplyScript(fix)[..k]);
    RunText(cat, s, ApplyScript(fix)[..k], n);
    ApplyText(fix, k, n, Last(s.auto, n));
    TextResolves(cat, s, part, n);
    BegunDistinct(fix, k);
    forall c | c in Begun(fix, k) && c.param == n ensures Resolve(cat, part, n) == ResolveText(cat, s, n, c.text) {
      FixTextOf(Begun(fix, k), c, Last(s.auto, n));
    }
    if !Touches(Begun(fix, k), n) {
      FixTextUntouched(Begun(fix, k), n, Last(s.auto, n));
      SameResolution(cat, part, s, n);
    }
  }

  lemma {:induction false} PartPending(cat: Catalogue, s: Server, fix: seq<Change>, k: nat)
    requires ValidCatalogue(cat) && NoneWaiting(cat, s) && DistinctParams(fix) && k <= |ApplyScript(fix)|
    ensures Reload(cat, Run(cat, s, ApplyScript(fix)[..k])).pending == {} <==> !Restarts(cat, s, fix, k, true)
  {
    var part := Run(cat, s, ApplyScript(fix)[..k]);
    RunKeeps(cat, s, ApplyScript(fix)[..k]);
    forall c | c in Begun(fix, k) ensures NeedsRestart(cat, s, c) <==> c.param in Reload(cat, part).pending {
      PartResolves(cat, s, fix, k, c.param);
    }
    forall n | n in Reload(cat, part).pending ensures Touches(Begun(fix, k), n) {
      PartResolves(cat, s, fix, k, n);
    }
  }

  /** Whether a server that runs with part of the fix would wait for a restart with the old files. */
  lemma {:induction false} PartReturns(cat: Catalogue, s: Server, fix: seq<Change>, k: nat, list: string)
    requires ValidCatalogue(cat) && NoneWaiting(cat, s) && AllAllowed(cat, fix)
    requires DistinctParams(fix) && k <= |ApplyScript(fix)|
    ensures var part := Run(cat, s, ApplyScript(fix)[..k]);
            RestartsBack(cat, s, fix, k) <==>
              exists p :: p in cat.Known(list) && cat.AtStart(p) && Waits(Resolve(cat, s, p), Resolve(cat, part, p))
  {
    var part := Run(cat, s, ApplyScript(fix)[..k]);
    if RestartsBack(cat, s, fix, k) {
      var c :| c in Begun(fix, k) && NeedsRestartBack(cat, s, c);
      PartResolves(cat, s, fix, k, c.param);
      assert c in fix && c.param in cat.Known(list);
    }
    if p :| p in cat.Known(list) && cat.AtStart(p) && Waits(Resolve(cat, s, p), Resolve(cat, part, p)) {
      PartResolves(cat, s, fix, k, p);
      var c :| c in Begun(fix, k) && c.param == p;
      assert NeedsRestartBack(cat, s, c);
    }
  }

  // -------------------------------------------------------------------------
  // Servers a fix can have driven away from s
  // -------------------------------------------------------------------------

  /** Only reviewed settings may wait for a restart. */
  predicate Allowed(cat: Catalogue, param: string) {
    cat.AtStart(param) ==> param in RESTART_SETTINGS
  }

  ghost predicate AllAllowed(cat: Catalogue, fix: seq<Change>) {
    forall c :: c in fix ==> Allowed(cat, c.param)
  }

  /** With the files of s, some setting fixed at server start would wait for a restart of t. */
  ghost predicate Moved(cat: Catalogue, s: Server, t: Server) {
    exists p :: p in t.running && cat.AtStart(p) && Waits(Resolve(cat, s, p), t.running[p])
  }

  /** Some setting of the fix that is fixed at server start has another row than in s. */
  ghost predicate Lost(cat: Catalogue, s: Server, t: Server, fix: seq<Change>) {
    exists p :: Touches(fix, p) && cat.AtStart(p) && p in s.running && p in t.running && t.running[p] != s.running[p]
  }

  /** What every server has that a fix can have driven s to, however far it got: only the fix's parameters
      have other texts, and unless nothing restarted one of them has another row. */
  ghost predicate Drift(cat: Catalogue, s: Server, t: Server, fix: seq<Change>) {
    && ValidServer(cat, t) && t.conf == s.conf
    && (forall n :: Touches(fix, n) || Last(t.auto, n) == Last(s.auto, n))
    && (forall n :: n in t.running && cat.AtStart(n) && !Touches(fix, n) ==> !Waits(Resolve(cat, s, n), t.running[n]))
    && (SameAtStart(cat, s, t) || Lost(cat, s, t, fix))
  }

  /** Restoring the files restores the rows: nothing restarted, or one restart brings them back. */
  ghost predicate Returns(cat: Catalogue, s: Server, t: Server) {
    SameAtStart(cat, s, t) || Moved(cat, s, t)
  }

  lemma {:induction false} SameStart(cat: Catalogue, s: Server, t: Server, u: Server, fix: seq<Change>)
    requires SameAtStart(cat, t, u)
    ensures SameAtStart(cat, s, t) <==> SameAtStart(cat, s, u)
    ensures Moved(cat, s, t) <==> Moved(cat, s, u)
    ensures Lost(cat, s, t, fix) <==> Lost(cat, s, u, fix)
  {
    if Moved(cat, s, t) {
      var p :| p in t.running && cat.AtStart(p) && Waits(Resolve(cat, s, p), t.running[p]);
      assert p in u.running && u.running[p] == t.running[p];
    }
    if Moved(cat, s, u) {
      var p :| p in u.running && cat.AtStart(p) && Waits(Resolve(cat, s, p), u.running[p]);
      assert p in t.running && u.running[p] == t.running[p];
    }
  }

  lemma {:induction false} DriftRun(cat: Catalogue, s: Server, t: Server, fix: seq<Change>, script: seq<Statement>)
    requires ValidCatalogue(cat) && Drift(cat, s, t, fix)
    requires forall n, text :: Touches(fix, n) || TextAfter(script, n, text) == text
    ensures Drift(cat, s, Run(cat, t, script), fix)
    ensures SameAtStart(cat, t, Run(cat, t, script))
  {
    var u := Run(cat, t, script);
    RunKeeps(cat, t, script);
    forall n ensures Touches(fix, n) || Last(u.auto, n) == Last(s.auto, n) {
      RunText(cat, t, script, n);
    }
    SameStart(cat, s, t, u, fix);
  }

  lemma {:induction false} DriftNotRefused(cat: Catalogue, s: Server, t: Server, fix: seq<Change>)
    requires Drift(cat, s, t, fix) && AllAllowed(cat, fix)
    ensures !Refuses(cat, t)
  {
    forall n | n in Reload(cat, t).pending ensures n in RESTART_SETTINGS {
      if !Touches(fix, n) {
        SameResolution(cat, t, s, n);
      }
    }
  }

  /** Activating a partly applied fix restarts exactly when a setting waits, and then that one has another
      row. */
  lemma {:induction false} DriftActivated(cat: Catalogue, s: Server, t: Server, fix: seq<Change>)
    requires ValidCatalogue(cat) && NoneWaiting(cat, s) && AllAllowed(cat, fix)
    requires Drift(cat, s, t, fix) && SameAtStart(cat, s, t)
    ensures Drift(cat, s, Activated(cat, t), fix)
    ensures SameAtStart(cat, s, Activated(cat, t)) <==> Reload(cat, t).pending == {}
    ensures Reload(cat, t).pending != {} ==> Restarted(cat, t, Activated(cat, t))
  {
    DriftNotRefused(cat, s, t, fix);
    ActivatedServer(cat, t);
    if Reload(cat, t).pending == {} {
      DriftReloaded(cat, s, t, Activated(cat, t), fix);
    } else {
      DriftRestarted(cat, s, t, Activated(cat, t), fix);
    }
  }

  /** u is t after a server start. */
  ghost predicate Restarted(cat: Catalogue, t: Server, u: Server) {
    && ReloadSettled(cat, u) && u.conf == t.conf && u.auto == t.auto
    && u.running.Keys == cat.Known(Resolve(cat, t, PRELOAD).setting)
    && forall n :: n in u.running ==> u.running[n] == Resolve(cat, t, n)
  }

  lemma {:induction false} DriftReloaded(cat: Catalogue, s: Server, t: Server, u: Server, fix: seq<Change>)
    requires Drift(cat, s, t, fix) && SameAtStart(cat, s, t)
    requires ReloadSettled(cat, u) && u.conf == t.conf && u.auto == t.auto && SameAtStart(cat, t, u)
    ensures Drift(cat, s, u, fix) && SameAtStart(cat, s, u)
  {
  }

  lemma {:induction false} DriftRestarted(cat: Catalogue, s: Server, t: Server, u: Server, fix: seq<Change>)
    requires ValidCatalogue(cat) && NoneWaiting(cat, s) && AllAllowed(cat, fix)
    requires Drift(cat, s, t, fix) && SameAtStart(cat, s, t) && Restarted(cat, t, u)
    requires Reload(cat, t).pending != {}
    ensures Drift(cat, s, u, fix) && !SameAtStart(cat, s, u)
  {
    forall n | n in u.running && cat.AtStart(n) && !Touches(fix, n) ensures !Waits(Resolve(cat, s, n), u.running[n]) {
      SameResolution(cat, t, s, n);
    }
    var p :| p in Reload(cat, t).pending;
    WaitingIsTouched(cat, s, t, fix, p);
    assert p in cat.Known(Resolve(cat, t, PRELOAD).setting);
    assert u.running[p] != s.running[p];
  }

  lemma {:induction false} WaitingIsTouched(cat: Catalogue, s: Server, t: Server, fix: seq<Change>, p: string)
    requires NoneWaiting(cat, s) && AllAllowed(cat, fix)
    requires Drift(cat, s, t, fix) && SameAtStart(cat, s, t) && p in Reload(cat, t).pending
    ensures Touches(fix, p) && p in RESTART_SETTINGS && p in s.running && cat.AtStart(p)
    ensures Resolve(cat, t, p) != s.running[p]
  {
    if !Touches(fix, p) {
      SameResolution(cat, t, s, p);
    }
  }

  lemma {:induction false} NoDrift(cat: Catalogue, s: Server, fix: seq<Change>)
    requires NoneWaiting(cat, s)
    ensures Drift(cat, s, s, fix) && SameAtStart(cat, s, s)
  {
  }

  lemma {:induction false} BegunTouches(fix: seq<Change>, k: nat, n: string)
    requires k <= 2 * |fix| && !Touches(fix, n)
    ensures !Touches(Begun(fix, k), n)
  {
    assert forall c :: c in Begun(fix, k) ==> c in fix;
  }

  lemma {:induction false} PartDrifts(cat: Catalogue, s: Server, fix: seq<Change>, k: nat)
    requires ValidCatalogue(cat) && NoneWaiting(cat, s) && k <= |ApplyScript(fix)|
    ensures var part := Run(cat, s, ApplyScript(fix)[..k]);
            Drift(cat, s, part, fix) && SameAtStart(cat, s, part)
  {
    forall n, text ensures Touches(fix, n) || TextAfter(ApplyScript(fix)[..k], n, text) == text {
      if !Touches(fix, n) {
        ApplyText(fix, k, n, text);
        BegunTouches(fix, k, n);
        FixTextUntouched(Begun(fix, k), n, text);
      }
    }
    NoDrift(cat, s, fix);
    DriftRun(cat, s, s, fix, ApplyScript(fix)[..k]);
  }

  /** However far the apply script gets, and whether or not it is activated. */
  lemma {:induction false} DrivenDrifts(cat: Catalogue, s: Server, fix: seq<Change>, k: nat, activated: bool)
    requires ValidCatalogue(cat) && NoneWaiting(cat, s) && AllAllowed(cat, fix) && DistinctParams(fix)
    requires k <= |ApplyScript(fix)|
    ensures var t := DrivenBy(cat, s, fix, k, activated);
            && Drift(cat, s, t, fix)
            && (SameAtStart(cat, s, t) <==> !Restarts(cat, s, fix, k, activated))
            && (Returns(cat, s, t) <==> (Restarts(cat, s, fix, k, activated) ==> RestartsBack(cat, s, fix, k)))
  {
    var part := Run(cat, s, ApplyScript(fix)[..k]);
    PartDrifts(cat, s, fix, k);
    if activated {
      DriftActivated(cat, s, part, fix);
      PartPending(cat, s, fix, k);
      PartReturns(cat, s, fix, k, Resolve(cat, part, PRELOAD).setting);
    }
  }

  /** A server that shows the same as one the fix can have driven s to is itself such a server. */
  lemma {:induction false} DriftSame(cat: Catalogue, s: Server, t: Server, u: Server, fix: seq<Change>)
    requires Drift(cat, s, t, fix) && SameServer(t, u)
    ensures Drift(cat, s, u, fix) && (Returns(cat, s, t) <==> Returns(cat, s, u))
  {
    SameStart(cat, s, t, u, fix);
  }

  ghost predicate SameServer(s: Server, t: Server) {
    && t.conf == s.conf && UniqueNames(t.auto)
    && (forall n :: Last(t.auto, n) == Last(s.auto, n))
    && t.running == s.running && t.pending == s.pending
  }

  // -------------------------------------------------------------------------
  // Undoing
  // -------------------------------------------------------------------------

  /** The server after the rollback script and its activation, from wherever the fix got to. */
  function UndoneFrom(cat: Catalogue, s: Server, t: Server, fix: seq<Change>): (u: Server)
    requires Derivable(s, fix)
  {
    Activated(cat, Run(cat, t, UndoScript(s, fix)))
  }

  lemma {:induction false} UndoneDrift(cat: Catalogue, s: Server, t: Server, fix: seq<Change>)
    requires ValidCatalogue(cat) && Derivable(s, fix) && Drift(cat, s, t, fix)
    ensures var u := Run(cat, t, UndoScript(s, fix));
            && Drift(cat, s, u, fix) && SameAtStart(cat, t, u)
            && forall n :: Last(u.auto, n) == if Touches(fix, n) then UndoneText(s, n) else Last(s.auto, n)
  {
    var script := UndoScript(s, fix);
    forall n, text ensures Touches(fix, n) || TextAfter(script, n, text) == text {
      UndoText(s, fix, n, text);
    }
    DriftRun(cat, s, t, fix, script);
    forall n
      ensures Last(Run(cat, t, script).auto, n) == if Touches(fix, n) then UndoneText(s, n) else Last(s.auto, n)
    {
      RunText(cat, t, script, n);
      UndoText(s, fix, n, Last(t.auto, n));
    }
  }

  /** A complete rollback is never refused and leaves nothing waiting. */
  lemma {:induction false} UndoneQuiet(cat: Catalogue, s: Server, t: Server, fix: seq<Change>)
    requires ValidCatalogue(cat) && AllAllowed(cat, fix) && Derivable(s, fix) && Drift(cat, s, t, fix)
    ensures var u := UndoneFrom(cat, s, t, fix);
            && !Refuses(cat, Run(cat, t, UndoScript(s, fix)))
            && ReloadSettled(cat, u) && u.conf == s.conf
            && forall n :: Last(u.auto, n) == if Touches(fix, n) then UndoneText(s, n) else Last(s.auto, n)
  {
    UndoneDrift(cat, s, t, fix);
    DriftNotRefused(cat, s, Run(cat, t, UndoScript(s, fix)), fix);
    ActivatedServer(cat, Run(cat, t, UndoScript(s, fix)));
  }

  /** Every text the rollback writes is the one postgresql.auto.conf held. */
  ghost predicate TextsKept(s: Server, fix: seq<Change>) {
    forall c :: c in fix ==> UndoneText(s, c.param) == Last(s.auto, c.param)
  }

  lemma {:induction false} RestoredTexts(cat: Catalogue, s: Server, w: Server, fix: seq<Change>)
    requires TextsKept(s, fix) && w.conf == s.conf
    requires forall n :: Last(w.auto, n) == if Touches(fix, n) then UndoneText(s, n) else Last(s.auto, n)
    ensures forall n :: Last(w.auto, n) == Last(s.auto, n)
    ensures forall n :: Resolve(cat, w, n) == Resolve(cat, s, n)
  {
    forall n ensures Last(w.auto, n) == Last(s.auto, n) && Resolve(cat, w, n) == Resolve(cat, s, n) {
      SameResolution(cat, w, s, n);
    }
  }

  /** With the files restored, the server restarts exactly when a setting was moved. */
  lemma {:induction false} RestoredPending(cat: Catalogue, s: Server, w: Server)
    requires forall n :: Resolve(cat, w, n) == Resolve(cat, s, n)
    ensures Reload(cat, w).pending == {} <==> !Moved(cat, s, w)
  {
    if p :| p in w.running && cat.AtStart(p) && Waits(Resolve(cat, s, p), w.running[p]) {
      assert p in Reload(cat, w).pending;
    }
    if p :| p in Reload(cat, w).pending {
      assert Waits(Resolve(cat, s, p), w.running[p]);
    }
  }

  /** The server with the files restored, and what its activation leaves. */
  lemma {:induction false} UndoneFiles(cat: Catalogue, s: Server, t: Server, fix: seq<Change>)
    requires ValidCatalogue(cat) && AllAllowed(cat, fix) && Derivable(s, fix)
    requires Drift(cat, s, t, fix) && TextsKept(s, fix)
    ensures var u := UndoneFrom(cat, s, t, fix);
            && ReloadSettled(cat, u) && u.conf == s.conf && (forall n :: Last(u.auto, n) == Last(s.auto, n))
            && u.running.Keys == cat.Known(Resolve(cat, s, PRELOAD).setting)
            && (!Moved(cat, s, t) ==> u.running.Keys == t.running.Keys)
            && forall n :: n in u.running ==>
                 u.running[n] == if n in t.running && cat.AtStart(n) && !Moved(cat, s, t) then t.running[n]
                                 else Resolve(cat, s, n)
  {
    var w := Run(cat, t, UndoScript(s, fix));
    UndoneDrift(cat, s, t, fix);
    SameStart(cat, s, t, w, fix);
    RestoredTexts(cat, s, w, fix);
    DriftNotRefused(cat, s, w, fix);
    ActivatedServer(cat, w);
    RestoredPending(cat, s, w);
  }

  lemma {:induction false} NotMoved(cat: Catalogue, s: Server, t: Server)
    requires NoneWaiting(cat, s) && SameAtStart(cat, s, t)
    ensures !Moved(cat, s, t)
  {
  }

  /** If a restart brings the rows back or none was needed, the files are restored and each row is read from
      them, except that a setting fixed at server start keeps its row when the fix did not restart. */
  lemma {:induction false} UndoneRows(cat: Catalogue, s: Server, t: Server, fix: seq<Change>)
    requires ValidCatalogue(cat) && NoneWaiting(cat, s) && AllAllowed(cat, fix) && Derivable(s, fix)
    requires Drift(cat, s, t, fix) && TextsKept(s, fix) && Returns(cat, s, t)
    ensures var u := UndoneFrom(cat, s, t, fix);
            && ReloadSettled(cat, u) && u.conf == s.conf && (forall n :: Last(u.auto, n) == Last(s.auto, n))
            && u.running.Keys == s.running.Keys
            && forall n :: n in s.running ==>
                 u.running[n] == if cat.AtStart(n) && SameAtStart(cat, s, t) then s.running[n] else Resolve(cat, s, n)
  {
    UndoneFiles(cat, s, t, fix);
    assert PRELOAD in RESTART_SETTINGS;
    if SameAtStart(cat, s, t) {
      NotMoved(cat, s, t);
    }
  }

  /** Otherwise a setting of the fix keeps the row that the restart gave it. */
  lemma {:induction false} UndoneLost(cat: Catalogue, s: Server, t: Server, fix: seq<Change>)
    requires ValidCatalogue(cat) && AllAllowed(cat, fix) && Derivable(s, fix)
    requires Drift(cat, s, t, fix) && TextsKept(s, fix) && !Returns(cat, s, t)
    ensures Lost(cat, s, UndoneFrom(cat, s, t, fix), fix)
  {
    UndoneFiles(cat, s, t, fix);
    var p :| Touches(fix, p) && cat.AtStart(p) && p in s.running && p in t.running && t.running[p] != s.running[p];
    assert UndoneFrom(cat, s, t, fix).running[p] == t.running[p];
  }

  /** The settings of `names` that must run what their files say to come back: all of them when the fix
      restarts the server, otherwise the reloadable ones. */
  ghost predicate RowsKept(cat: Catalogue, s: Server, names: seq<string>, restarts: bool) {
    forall n :: n in names && n in s.running ==> Settled(cat, s, n) || (cat.AtStart(n) && !restarts)
  }

  /** From any server on which nothing waits, and for every list of changes, every prefix of its apply
      script, activated or not: the rollback restores the whole server (both files, every running row of
      every setting, nothing pending) if and only if it writes back the texts that were there, the settings
      that are read again ran what their files say, and a server that was restarted is restarted again. */
  lemma {:induction false} UndoExactIff(cat: Catalogue, s: Server, fix: seq<Change>, k: nat, activated: bool)
    requires ValidCatalogue(cat) && NoneWaiting(cat, s) && AllAllowed(cat, fix)
    requires DistinctParams(fix) && Derivable(s, fix) && k <= |ApplyScript(fix)|
    ensures SameServer(s, Rehearsed(cat, s, fix, k, activated))
        <==> && TextsKept(s, fix)
             && RowsKept(cat, s, cat.names, Restarts(cat, s, fix, k, activated))
             && (Restarts(cat, s, fix, k, activated) ==> RestartsBack(cat, s, fix, k))
  {
    DrivenDrifts(cat, s, fix, k, activated);
    ServerFromDrift(cat, s, DrivenBy(cat, s, fix, k, activated), fix);
  }

  lemma {:induction false} ServerFromDrift(cat: Catalogue, s: Server, t: Server, fix: seq<Change>)
    requires ValidCatalogue(cat) && NoneWaiting(cat, s) && AllAllowed(cat, fix) && Derivable(s, fix)
    requires Drift(cat, s, t, fix)
    ensures SameServer(s, UndoneFrom(cat, s, t, fix))
        <==> && TextsKept(s, fix) && Returns(cat, s, t)
             && RowsKept(cat, s, cat.names, !SameAtStart(cat, s, t))
  {
    UndoneQuiet(cat, s, t, fix);
    if !TextsKept(s, fix) {
      var c :| c in fix && UndoneText(s, c.param) != Last(s.auto, c.param);
      assert Touches(fix, c.param);
    } else if !Returns(cat, s, t) {
      UndoneLost(cat, s, t, fix);
    } else {
      UndoneRows(cat, s, t, fix);
      RowsBack(cat, s, UndoneFrom(cat, s, t, fix), SameAtStart(cat, s, t));
    }
  }

  lemma {:induction false} RowsBack(cat: Catalogue, s: Server, u: Server, same: bool)
    requires NoneWaiting(cat, s) && NoneWaiting(cat, u) && u.running.Keys == s.running.Keys
    requires forall n :: n in s.running ==>
               u.running[n] == if cat.AtStart(n) && same then s.running[n] else Resolve(cat, s, n)
    ensures u.running == s.running <==> RowsKept(cat, s, cat.names, !same)
  {
    if RowsKept(cat, s, cat.names, !same) {
      forall n | n in s.running ensures u.running[n] == s.running[n] {
        assert n in cat.names;
      }
      assert u.running == s.running;
    }
  }

  /** A RESET that makes a setting fixed at server start fall back to an equal built-in value. */
  predicate DropsToBuiltIn(cat: Catalogue, s: Server, c: Change) {
    NeedsRestart(cat, s, c) && ResolveText(cat, s, c.param, c.text).setting == s.running[c.param].setting
  }

  /** A change whose rollback brings everything back: only a reviewed setting may wait for a restart, a RESET
      removes a line that exists and whose value is not also the built-in one, and a value to write back is
      canonical. */
  ghost predicate SoundChange(cat: Catalogue, s: Server, c: Change) {
    && Allowed(cat, c.param) && UndoOf(s, c).Ok? && UndoneText(s, c.param) == Last(s.auto, c.param)
    && !DropsToBuiltIn(cat, s, c)
  }

  ghost predicate SoundFix(cat: Catalogue, s: Server, fix: seq<Change>) {
    DistinctParams(fix) && forall c :: c in fix ==> SoundChange(cat, s, c)
  }

  lemma {:induction false} SoundParts(cat: Catalogue, s: Server, fix: seq<Change>)
    requires SoundFix(cat, s, fix)
    ensures AllAllowed(cat, fix) && Derivable(s, fix) && TextsKept(s, fix)
  {
  }

  /** A SET, and every RESET but those, restarts the server again when it is undone. */
  lemma {:induction false} ValuesComeBack(cat: Catalogue, s: Server, fix: seq<Change>, k: nat, activated: bool)
    requires NoneWaiting(cat, s) && k <= 2 * |fix| && forall c :: c in fix ==> !DropsToBuiltIn(cat, s, c)
    ensures Restarts(cat, s, fix, k, activated) ==> RestartsBack(cat, s, fix, k)
  {
    if Restarts(cat, s, fix, k, activated) {
      var c :| c in Begun(fix, k) && NeedsRestart(cat, s, c);
      assert c in fix && NeedsRestartBack(cat, s, c);
    }
  }

  /** However much of a sound fix ran, its rollback restores exactly a server on which nothing waits and
      every reloadable setting is settled; if the fix restarts the server, all settings must be. */
  lemma {:induction false} UndoExact(cat: Catalogue, s: Server, fix: seq<Change>, k: nat, activated: bool)
    requires ValidCatalogue(cat) && ReloadSettled(cat, s) && SoundFix(cat, s, fix)
    requires k <= |ApplyScript(fix)|
    requires Restarts(cat, s, fix, k, activated) ==> AllSettled(cat, s)
    ensures SameServer(s, Rehearsed(cat, s, fix, k, activated))
  {
    SoundParts(cat, s, fix);
    ValuesComeBack(cat, s, fix, k, activated);
    UndoExactIff(cat, s, fix, k, activated);
  }

  ghost predicate ReloadOnly(cat: Catalogue, fix: seq<Change>) {
    forall c :: c in fix ==> !cat.AtStart(c.param)
  }

  /** The server is settled as far as the fix can need it. */
  ghost predicate CalmFor(cat: Catalogue, s: Server, fix: seq<Change>) {
    ReloadSettled(cat, s) && (AllSettled(cat, s) || ReloadOnly(cat, fix))
  }

  lemma {:induction false} ReloadStays(cat: Catalogue, s: Server, t: Server, fix: seq<Change>)
    requires ReloadOnly(cat, fix) && Drift(cat, s, t, fix)
    ensures SameAtStart(cat, s, t)
  {
  }

  /** The same from any server the fix can have driven s to. */
  lemma {:induction false} UndoFromDrift(cat: Catalogue, s: Server, t: Server, fix: seq<Change>)
    requires ValidCatalogue(cat) && CalmFor(cat, s, fix) && SoundFix(cat, s, fix)
    requires Drift(cat, s, t, fix) && Returns(cat, s, t)
    ensures Derivable(s, fix)
    ensures !Refuses(cat, Run(cat, t, UndoScript(s, fix))) && SameServer(s, UndoneFrom(cat, s, t, fix))
  {
    SoundParts(cat, s, fix);
    if ReloadOnly(cat, fix) {
      ReloadStays(cat, s, t, fix);
    }
    UndoneQuiet(cat, s, t, fix);
    ServerFromDrift(cat, s, t, fix);
  }

  lemma {:induction false} SettledNotWaiting(cat: Catalogue, s: Server)
    requires AllSettled(cat, s)
    ensures ReloadSettled(cat, s)
  {
    forall n | n in s.running ensures Resolve(cat, s, n) == s.running[n] {
      assert Settled(cat, s, n);
    }
  }

  // -------------------------------------------------------------------------
  // Exactly when a rehearsal leaves the signature unchanged
  // -------------------------------------------------------------------------

  /** The same for the compared evidence alone. */
  lemma {:induction false} RehearsalExactIff(
    cat: Catalogue, s: Server, names: seq<string>, fix: seq<Change>, k: nat, activated: bool)
    requires ValidCatalogue(cat) && NoneWaiting(cat, s) && AllAllowed(cat, fix)
    requires DistinctParams(fix) && Derivable(s, fix) && k <= |ApplyScript(fix)|
    requires forall c :: c in fix ==> c.param in names
    ensures Sig(cat, Rehearsed(cat, s, fix, k, activated), names) == Sig(cat, s, names)
        <==> && TextsKept(s, fix)
             && RowsKept(cat, s, names, Restarts(cat, s, fix, k, activated))
             && (Restarts(cat, s, fix, k, activated) ==> RestartsBack(cat, s, fix, k))
  {
    DrivenDrifts(cat, s, fix, k, activated);
    ExactFromDrift(cat, s, DrivenBy(cat, s, fix, k, activated), names, fix);
  }

  lemma {:induction false} ExactFromDrift(cat: Catalogue, s: Server, t: Server, names: seq<string>, fix: seq<Change>)
    requires ValidCatalogue(cat) && NoneWaiting(cat, s) && AllAllowed(cat, fix) && Derivable(s, fix)
    requires Drift(cat, s, t, fix)
    requires forall c :: c in fix ==> c.param in names
    ensures Sig(cat, UndoneFrom(cat, s, t, fix), names) == Sig(cat, s, names)
        <==> TextsKept(s, fix) && Returns(cat, s, t) && RowsKept(cat, s, names, !SameAtStart(cat, s, t))
  {
    var u := UndoneFrom(cat, s, t, fix);
    UndoneQuiet(cat, s, t, fix);
    if !TextsKept(s, fix) {
      TextLostShows(cat, s, u, names, fix);
    } else if !Returns(cat, s, t) {
      UndoneLost(cat, s, t, fix);
      RowLostShows(cat, s, u, names, fix);
    } else {
      UndoneRows(cat, s, t, fix);
      SameRunningIsSig(cat, s, u, names);
    }
  }

  lemma {:induction false} TextLostShows(cat: Catalogue, s: Server, u: Server, names: seq<string>, fix: seq<Change>)
    requires NoneWaiting(cat, s) && NoneWaiting(cat, u) && !TextsKept(s, fix)
    requires forall n :: Last(u.auto, n) == if Touches(fix, n) then UndoneText(s, n) else Last(s.auto, n)
    requires forall c :: c in fix ==> c.param in names
    ensures Sig(cat, u, names) != Sig(cat, s, names)
  {
    var c :| c in fix && UndoneText(s, c.param) != Last(s.auto, c.param);
    if Sig(cat, u, names) == Sig(cat, s, names) {
      SameAutoText(cat, s, u, names, c.param);
      assert false;
    }
  }

  lemma {:induction false} RowLostShows(cat: Catalogue, s: Server, u: Server, names: seq<string>, fix: seq<Change>)
    requires Lost(cat, s, u, fix) && forall c :: c in fix ==> c.param in names
    ensures Sig(cat, u, names) != Sig(cat, s, names)
  {
    var p :| Touches(fix, p) && cat.AtStart(p) && p in s.running && p in u.running && u.running[p] != s.running[p];
    if Sig(cat, u, names) == Sig(cat, s, names) {
      SameRows(cat, s, u, names, p);
      assert false;
    }
  }

  /** With the same files, two servers on which nothing waits have one signature exactly when they run the
      same. */
  lemma {:induction false} SameRunningIsSig(cat: Catalogue, s: Server, u: Server, names: seq<string>)
    requires NoneWaiting(cat, s) && NoneWaiting(cat, u) && u.conf == s.conf
    requires forall n :: Last(u.auto, n) == Last(s.auto, n)
    requires u.running.Keys == s.running.Keys
    ensures Sig(cat, u, names) == Sig(cat, s, names)
        <==> forall n :: n in names && n in s.running ==> u.running[n] == s.running[n]
  {
    if Sig(cat, u, names) == Sig(cat, s, names) {
      forall n | n in names && n in s.running ensures u.running[n] == s.running[n] {
        SameRows(cat, s, u, names, n);
      }
    }
    if forall n :: n in names && n in s.running ==> u.running[n] == s.running[n] {
      SigDependsOn(cat, u, s, names);
    }
  }

  lemma {:induction false} SameAutoText(cat: Catalogue, s: Server, t: Server, names: seq<string>, p: string)
    requires NoneWaiting(cat, s) && NoneWaiting(cat, t) && p in names
    requires Sig(cat, t, names) == Sig(cat, s, names)
    ensures Last(t.auto, p) == Last(s.auto, p)
  {
    forall v ensures Last(s.auto, p) == Some(v) <==> Last(t.auto, p) == Some(v) {
      var x := FileSig(p, v, Auto, true, false);
      AutoLine(s.auto, p, v);
      AutoLine(t.auto, p, v);
      KeptOrDescribed(cat, s, names, x);
      KeptOrDescribed(cat, t, names, x);
      SignatureKept(FileRows(cat, s), names, x);
      SignatureKept(FileRows(cat, t), names, x);
    }
  }

  /** For evidence reconstruction_plan accepts, the texts come back exactly when every changed setting ran
      what its files say. */
  lemma {:induction false} AcceptedRehearsalExactIff(
    cat: Catalogue, s: Server, names: seq<string>, fix: seq<Change>, k: nat, activated: bool)
    requires ValidCatalogue(cat) && NoneWaiting(cat, s) && Accepts(Collect(cat, s), names)
    requires DistinctParams(fix) && Derivable(s, fix) && k <= |ApplyScript(fix)|
    requires forall c :: c in fix ==> c.param in names
    ensures forall n :: n in names ==> n in s.running
    ensures Sig(cat, Rehearsed(cat, s, fix, k, activated), names) == Sig(cat, s, names)
        <==> && (forall c :: c in fix ==> Settled(cat, s, c.param))
             && RowsKept(cat, s, names, Restarts(cat, s, fix, k, activated))
             && (Restarts(cat, s, fix, k, activated) ==> RestartsBack(cat, s, fix, k))
  {
    AcceptedIsReady(cat, s, names);
    ReadyNames(cat, s, names, fix);
    RehearsalExactIff(cat, s, names, fix, k, activated);
    if RowsKept(cat, s, names, Restarts(cat, s, fix, k, activated)) {
      ReadyTexts(cat, s, names, fix, Restarts(cat, s, fix, k, activated));
    }
  }

  lemma {:induction false} ReadyNames(cat: Catalogue, s: Server, names: seq<string>, fix: seq<Change>)
    requires SourceReady(cat, s, names) && forall c :: c in fix ==> c.param in names
    ensures AllAllowed(cat, fix) && forall n :: n in names ==> n in s.running
  {
    assert forall n :: n in names ==> Reconstructible(cat, s, n);
  }

  lemma {:induction false} ReadyTexts(cat: Catalogue, s: Server, names: seq<string>, fix: seq<Change>, restarts: bool)
    requires SourceReady(cat, s, names) && RowsKept(cat, s, names, restarts)
    requires forall c :: c in fix ==> c.param in names && c.param in s.running
    ensures TextsKept(s, fix) <==> forall c :: c in fix ==> Settled(cat, s, c.param)
  {
    forall c | c in fix ensures UndoneText(s, c.param) == Last(s.auto, c.param) <==> Settled(cat, s, c.param) {
      assert Reconstructible(cat, s, c.param);
      AcceptedText(cat, s, c.param);
    }
  }

  lemma {:induction false} AcceptedText(cat: Catalogue, s: Server, p: string)
    requires Reconstructible(cat, s, p) && (Settled(cat, s, p) || cat.AtStart(p))
    ensures UndoneText(s, p) == Last(s.auto, p) <==> Settled(cat, s, p)
  {
  }

  /** reconstruction_plan's check that a value in postgresql.auto.conf is canonical is necessary: from any
      settled server, a fix that changes a textual alias is not undone exactly, however far it got, and
      every other one is, unless its RESET restarts the server for nothing. */
  lemma {:induction false} CanonicalCheckIsNeeded(
    cat: Catalogue, s: Server, names: seq<string>, fix: seq<Change>, k: nat, activated: bool)
    requires ValidCatalogue(cat) && AllSettled(cat, s) && AllAllowed(cat, fix)
    requires DistinctParams(fix) && Derivable(s, fix) && k <= |ApplyScript(fix)|
    requires forall c :: c in fix ==> c.param in names && c.param in s.running
    ensures Sig(cat, Rehearsed(cat, s, fix, k, activated), names) == Sig(cat, s, names)
        <==> && (forall c :: c in fix ==> CanonicalText(s, c.param))
             && (Restarts(cat, s, fix, k, activated) ==> RestartsBack(cat, s, fix, k))
  {
    SettledNotWaiting(cat, s);
    RehearsalExactIff(cat, s, names, fix, k, activated);
    SettledRowsKept(cat, s, names, Restarts(cat, s, fix, k, activated));
    KeptIffCanonical(cat, s, fix);
  }

  lemma {:induction false} SettledRowsKept(cat: Catalogue, s: Server, names: seq<string>, restarts: bool)
    requires AllSettled(cat, s)
    ensures RowsKept(cat, s, names, restarts)
  {
  }

  lemma {:induction false} KeptIffCanonical(cat: Catalogue, s: Server, fix: seq<Change>)
    requires AllSettled(cat, s) && forall c :: c in fix ==> c.param in s.running
    ensures TextsKept(s, fix) <==> forall c :: c in fix ==> CanonicalText(s, c.param)
  {
    forall c | c in fix ensures UndoneText(s, c.param) == Last(s.auto, c.param) <==> CanonicalText(s, c.param) {
      assert Settled(cat, s, c.param);
    }
  }

  // -------------------------------------------------------------------------
  // What a completely applied and activated fix leaves
  // -------------------------------------------------------------------------

  /** t is s with the fix applied: as settled as s was, and changed in nothing but the fix's parameters and
      the settings whose library the new list loads or drops. */
  ghost predicate Applied(cat: Catalogue, s: Server, t: Server, fix: seq<Change>) {
    && ReloadSettled(cat, t) && (AllSettled(cat, s) ==> AllSettled(cat, t)) && t.conf == s.conf
    && (forall n :: Last(t.auto, n) == FixText(fix, n, Last(s.auto, n)))
    && (forall n :: n in s.running && n in t.running && !Touches(fix, n) ==> t.running[n] == s.running[n])
  }

  function AfterAll(cat: Catalogue, s: Server, fix: seq<Change>): (t: Server) {
    Activated(cat, Run(cat, s, ApplyScript(fix)))
  }

  /** No changed setting fixed at server start keeps an old row: one of them needs a restart, or all of
      them already show what their new texts give. */
  ghost predicate LeavesNoOldRow(cat: Catalogue, s: Server, fix: seq<Change>) {
    || (exists c :: c in fix && NeedsRestart(cat, s, c))
    || (forall c :: c in fix && c.param in s.running && cat.AtStart(c.param) ==>
          ResolveText(cat, s, c.param, c.text) == s.running[c.param])
  }

  /** A complete fix of a settled server leaves a settled server if and only if no old row stays. */
  lemma {:induction false} AppliedSettledIff(cat: Catalogue, s: Server, fix: seq<Change>)
    requires ValidCatalogue(cat) && AllSettled(cat, s) && AllAllowed(cat, fix) && DistinctParams(fix)
    ensures !Refuses(cat, Run(cat, s, ApplyScript(fix)))
    ensures Applied(cat, s, AfterAll(cat, s, fix), fix) <==> LeavesNoOldRow(cat, s, fix)
    ensures AllSettled(cat, AfterAll(cat, s, fix)) <==> LeavesNoOldRow(cat, s, fix)
  {
    var t := AfterAll(cat, s, fix);
    SettledNotWaiting(cat, s);
    AppliedRows(cat, s, fix);
    if exists c :: c in fix && NeedsRestart(cat, s, c) {
      assert LeavesNoOldRow(cat, s, fix);
    } else {
      KeptRows(cat, s, t, fix);
    }
    SettledIsApplied(cat, s, t, fix);
  }

  lemma {:induction false} SettledIsApplied(cat: Catalogue, s: Server, t: Server, fix: seq<Change>)
    requires AllSettled(cat, s) && ReloadSettled(cat, t) && t.conf == s.conf
    requires forall n :: Last(t.auto, n) == FixText(fix, n, Last(s.auto, n))
    ensures Applied(cat, s, t, fix) <==> AllSettled(cat, t)
  {
    if AllSettled(cat, t) {
      UntouchedRows(cat, s, t, fix);
    }
  }

  /** A complete fix of reloadable settings never restarts, and leaves a server as settled as it was. */
  lemma {:induction false} ReloadApplied(cat: Catalogue, s: Server, fix: seq<Change>)
    requires ValidCatalogue(cat) && ReloadSettled(cat, s) && ReloadOnly(cat, fix) && DistinctParams(fix)
    ensures !Refuses(cat, Run(cat, s, ApplyScript(fix)))
    ensures Applied(cat, s, AfterAll(cat, s, fix), fix) && SameAtStart(cat, s, AfterAll(cat, s, fix))
  {
    var t := AfterAll(cat, s, fix);
    AppliedRows(cat, s, fix);
    forall n | n in s.running && !Touches(fix, n) ensures t.running[n] == s.running[n] {
      FixTextUntouched(fix, n, Last(s.auto, n));
      SameResolution(cat, t, s, n);
    }
    if AllSettled(cat, s) {
      AppliedSettledIff(cat, s, fix);
    }
  }

  /** The rows after a complete fix and its activation. */
  lemma {:induction false} AppliedRows(cat: Catalogue, s: Server, fix: seq<Change>)
    requires ValidCatalogue(cat) && NoneWaiting(cat, s) && AllAllowed(cat, fix) && DistinctParams(fix)
    ensures !Refuses(cat, Run(cat, s, ApplyScript(fix)))
    ensures var t := AfterAll(cat, s, fix);
            && ReloadSettled(cat, t) && t.conf == s.conf
            && (forall n :: Last(t.auto, n) == FixText(fix, n, Last(s.auto, n)))
            && if exists c :: c in fix && NeedsRestart(cat, s, c) then AllSettled(cat, t) else
                 && t.running.Keys == s.running.Keys
                 && forall n :: n in t.running ==>
                   t.running[n] == if cat.AtStart(n) then s.running[n] else Resolve(cat, t, n)
  {
    var u := Run(cat, s, ApplyScript(fix));
    WholeFix(cat, s, fix);
    PartDrifts(cat, s, fix, |ApplyScript(fix)|);
    DriftNotRefused(cat, s, u, fix);
    ActivatedServer(cat, u);
    PartPending(cat, s, fix, |ApplyScript(fix)|);
  }

  lemma {:induction false} WholeFix(cat: Catalogue, s: Server, fix: seq<Change>)
    requires ValidCatalogue(cat) && ValidServer(cat, s)
    ensures ApplyScript(fix)[..|ApplyScript(fix)|] == ApplyScript(fix)
    ensures Begun(fix, |ApplyScript(fix)|) == fix
    ensures forall n :: Last(Run(cat, s, ApplyScript(fix)).auto, n) == FixText(fix, n, Last(s.auto, n))
    ensures Run(cat, s, ApplyScript(fix)).conf == s.conf && SameAtStart(cat, s, Run(cat, s, ApplyScript(fix)))
  {
    RunKeeps(cat, s, ApplyScript(fix));
    assert ApplyScript(fix)[..|ApplyScript(fix)|] == ApplyScript(fix);
    assert Begun(fix, |ApplyScript(fix)|) == fix;
    forall n ensures Last(Run(cat, s, ApplyScript(fix)).auto, n) == FixText(fix, n, Last(s.auto, n)) {
      RunText(cat, s, ApplyScript(fix), n);
      ApplyText(fix, |ApplyScript(fix)|, n, Last(s.auto, n));
    }
  }

  /** When nothing restarts, a setting fixed at server start is settled exactly if its row was right. */
  lemma {:induction false} KeptRows(cat: Catalogue, s: Server, t: Server, fix: seq<Change>)
    requires AllSettled(cat, s) && DistinctParams(fix) && NoneWaiting(cat, t)
    requires t.conf == s.conf && t.running.Keys == s.running.Keys
    requires forall n :: Last(t.auto, n) == FixText(fix, n, Last(s.auto, n))
    requires forall n :: n in t.running ==> t.running[n] == if cat.AtStart(n) then s.running[n] else Resolve(cat, t, n)
    requires forall c :: c in fix ==> !NeedsRestart(cat, s, c)
    ensures AllSettled(cat, t) <==> LeavesNoOldRow(cat, s, fix)
  {
    forall n | n in t.running && !Touches(fix, n) ensures Settled(cat, t, n) {
      FixTextUntouched(fix, n, Last(s.auto, n));
      SameResolution(cat, t, s, n);
      assert Settled(cat, s, n);
    }
    forall c | c in fix && c.param in s.running && cat.AtStart(c.param)
      ensures Settled(cat, t, c.param) <==> ResolveText(cat, s, c.param, c.text) == s.running[c.param]
    {
      FixTextOf(fix, c, Last(s.auto, c.param));
      TextResolves(cat, s, t, c.param);
    }
  }

  lemma {:induction false} UntouchedRows(cat: Catalogue, s: Server, t: Server, fix: seq<Change>)
    requires AllSettled(cat, s) && AllSettled(cat, t) && t.conf == s.conf
    requires forall n :: Last(t.auto, n) == FixText(fix, n, Last(s.auto, n))
    ensures forall n :: n in s.running && n in t.running && !Touches(fix, n) ==> t.running[n] == s.running[n]
  {
    forall n | n in s.running && n in t.running && !Touches(fix, n) ensures t.running[n] == s.running[n] {
      FixTextUntouched(fix, n, Last(s.auto, n));
      SameResolution(cat, t, s, n);
      assert Settled(cat, s, n) && Settled(cat, t, n);
    }
  }

  /** A RESET of a setting fixed at server start whose fallback line has the value it runs: nothing
      restarts, and its row still names postgresql.auto.conf although no line is left there. The rollback is
      exact all the same. */
  lemma {:induction false} ResetToTheSameValue(cat: Catalogue, s: Server, p: string)
    requires ValidCatalogue(cat) && AllSettled(cat, s) && p in RESTART_SETTINGS
    requires s.running[p].file == Some(Auto) && CanonicalText(s, p) && Last(s.conf, p).Some?
    requires ResolveText(cat, s, p, None).setting == s.running[p].setting
    ensures var fix := [Change(p, None)];
            var t := AfterAll(cat, s, fix);
            && t.running == s.running && t.pending == {}
            && Last(t.auto, p).None? && !Settled(cat, t, p)
            && UndoOf(s, fix[0]).Ok? && SameServer(s, Rehearsed(cat, s, fix, 2, true))
  {
    var fix := [Change(p, None)];
    SettledNotWaiting(cat, s);
    AppliedRows(cat, s, fix);
    OldRowsStay(cat, s, AfterAll(cat, s, fix), p);
    ResetIsSound(cat, s, p);
    UndoExact(cat, s, fix, 2, true);
  }

  /** A RESET of a setting fixed at server start whose built-in value is the one it runs: PostgreSQL restarts
      for the removed line, the row then shows no file, and writing the same value back needs no restart, so
      that row stays. The rollback of the activated fix is not exact. */
  lemma {:induction false} ResetToBuiltInValue(cat: Catalogue, s: Server, p: string, fix: seq<Change>)
    requires ValidCatalogue(cat) && AllSettled(cat, s) && p in RESTART_SETTINGS && fix == [Change(p, None)]
    requires s.running[p].file == Some(Auto) && CanonicalText(s, p) && Last(s.conf, p).None?
    requires cat.boot(p) == s.running[p].setting
    ensures Derivable(s, fix) && |ApplyScript(fix)| == 2
    ensures !SameServer(s, Rehearsed(cat, s, fix, 2, true))
    ensures p in Rehearsed(cat, s, fix, 2, true).running
    ensures Rehearsed(cat, s, fix, 2, true).running[p] == Running(cat.boot(p), None)
    ensures SameServer(s, Rehearsed(cat, s, fix, 2, false))
  {
    SettledNotWaiting(cat, s);
    DropFacts(cat, s, p, fix);
    DroppedRow(cat, s, p, fix);
    DroppedExactly(cat, s, fix);
  }

  /** A RESET that restarts for nothing is undone exactly unless it was activated. */
  lemma {:induction false} DroppedExactly(cat: Catalogue, s: Server, fix: seq<Change>)
    requires ValidCatalogue(cat) && AllSettled(cat, s) && |ApplyScript(fix)| == 2
    requires DistinctParams(fix) && AllAllowed(cat, fix) && Derivable(s, fix) && TextsKept(s, fix)
    requires Restarts(cat, s, fix, 2, true) && !RestartsBack(cat, s, fix, 2)
    ensures !SameServer(s, Rehearsed(cat, s, fix, 2, true)) && SameServer(s, Rehearsed(cat, s, fix, 2, false))
  {
    SettledNotWaiting(cat, s);
    SettledRowsKept(cat, s, cat.names, false);
    UndoExactIff(cat, s, fix, 2, true);
    UndoExactIff(cat, s, fix, 2, false);
  }

  lemma {:induction false} DropFacts(cat: Catalogue, s: Server, p: string, fix: seq<Change>)
    requires ValidCatalogue(cat) && AllSettled(cat, s) && p in RESTART_SETTINGS && fix == [Change(p, None)]
    requires s.running[p].file == Some(Auto) && CanonicalText(s, p) && Last(s.conf, p).None?
    requires cat.boot(p) == s.running[p].setting
    ensures |ApplyScript(fix)| == 2 && Begun(fix, 2) == fix
    ensures DistinctParams(fix) && AllAllowed(cat, fix) && Derivable(s, fix) && TextsKept(s, fix)
    ensures ResolveText(cat, s, p, None) == Running(cat.boot(p), None) && DropsToBuiltIn(cat, s, fix[0])
    ensures Restarts(cat, s, fix, 2, true) && !RestartsBack(cat, s, fix, 2)
  {
    assert Settled(cat, s, p);
    LastReset(s.auto, p, p);
    assert fix[0] in Begun(fix, 2);
  }

  lemma {:induction false} DroppedRow(cat: Catalogue, s: Server, p: string, fix: seq<Change>)
    requires ValidCatalogue(cat) && NoneWaiting(cat, s) && p in RESTART_SETTINGS && fix == [Change(p, None)]
    requires Derivable(s, fix) && TextsKept(s, fix) && Begun(fix, 2) == fix
    requires Restarts(cat, s, fix, 2, true) && !RestartsBack(cat, s, fix, 2)
    requires ResolveText(cat, s, p, None) == Running(cat.boot(p), None)
    ensures p in Rehearsed(cat, s, fix, 2, true).running
    ensures Rehearsed(cat, s, fix, 2, true).running[p] == Running(cat.boot(p), None)
  {
    var part := Run(cat, s, ApplyScript(fix)[..2]);
    PartDrifts(cat, s, fix, 2);
    DrivenDrifts(cat, s, fix, 2, true);
    DriftActivated(cat, s, part, fix);
    PartPending(cat, s, fix, 2);
    PartResolves(cat, s, fix, 2, p);
    UndoneFiles(cat, s, DrivenBy(cat, s, fix, 2, true), fix);
  }

  lemma {:induction false} ResetIsSound(cat: Catalogue, s: Server, p: string)
    requires AllSettled(cat, s) && p in RESTART_SETTINGS && p in s.running
    requires s.running[p].file == Some(Auto) && CanonicalText(s, p) && Last(s.conf, p).Some?
    requires ResolveText(cat, s, p, None).setting == s.running[p].setting
    ensures SoundFix(cat, s, [Change(p, None)])
  {
    assert Settled(cat, s, p);
  }

  lemma {:induction false} OldRowsStay(cat: Catalogue, s: Server, t: Server, p: string)
    requires AllSettled(cat, s) && p in s.running && s.running[p].file == Some(Auto)
    requires t.conf == s.conf && t.running.Keys == s.running.Keys && t.running[p] == s.running[p]
    requires forall n :: Last(t.auto, n) == FixText([Change(p, None)], n, Last(s.auto, n))
    requires forall n :: n in t.running ==> t.running[n] == if cat.AtStart(n) then s.running[n] else Resolve(cat, t, n)
    ensures t.running == s.running && Last(t.auto, p).None? && !Settled(cat, t, p)
  {
    forall n | n in s.running ensures t.running[n] == s.running[n] {
      if n != p {
        OtherRow(cat, s, t, [Change(p, None)], n);
      }
    }
    assert t.running == s.running;
    FixTextOf([Change(p, None)], Change(p, None), Last(s.auto, p));
  }

  lemma {:induction false} OtherRow(cat: Catalogue, s: Server, t: Server, fix: seq<Change>, n: string)
    requires AllSettled(cat, s) && t.conf == s.conf && n in s.running && !Touches(fix, n)
    requires Last(t.auto, n) == FixText(fix, n, Last(s.auto, n))
    ensures Resolve(cat, t, n) == s.running[n]
  {
    FixTextUntouched(fix, n, Last(s.auto, n));
    SameResolution(cat, t, s, n);
    assert Settled(cat, s, n);
  }
}
