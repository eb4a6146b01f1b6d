/** One batch of fixes in a single sandbox: each is applied and checked in order, then all of them are
    undone in reverse order (services/sandbox_poc/batch.py). A snapshot is the world at the moment of
    collection; only its signatures, findings, running rows and object components are read. */
module Batch {
  import opened Wrappers
  import Evidence
  import opened Postgres
  import opened SettingFix
  import opened PreloadList
  import ObjectFixes

  const AUDIT_LOG := "pgaudit.log"

  datatype Status = Pass | Fail | ManualReview | NotApplicable | Gapped

  /** The server and the object stand-in of the combined sandbox. */
  datatype World = World(server: Server, objects: ObjectFixes.Objects)

  datatype Fix =
    | OfSetting(id: string, control: string, change: Change, rollback: Action)
    | OfCatalog(id: string, control: string, library: Option<string>, extra: Option<Change>)
    | OfObject(id: string, target: ObjectFixes.ObjectChange)

  type RunningRows = map<string, Running>

  /** The assessor, the catalog evaluators and the offer rules are functions of the collected evidence; an
      evaluator reads the rows of its own setting inputs. */
  datatype Engine = Engine(
    cat: Catalogue, names: seq<string>, controls: set<string>, catalogControls: set<string>,
    inputs: string -> set<string>,
    assess: (RunningRows, ObjectFixes.Objects) -> map<string, Status>,
    evaluate: (string, RunningRows) -> bool,
    offers: (string, RunningRows, ObjectFixes.Objects) -> bool)

  /** A preload list is taken as written, and one that is extended still loads what it loaded. */
  ghost predicate ListsLoad(cat: Catalogue) {
    && (forall text :: cat.canon(PRELOAD, text) == text)
    && (forall a, b :: Split(a).Some? && Split(b).Some? && Split(a).value <= Split(b).value ==>
          cat.Known(a) <= cat.Known(b))
  }

  ghost predicate ValidEngine(e: Engine) {
    && ValidCatalogue(e.cat) && ListsLoad(e.cat) && e.cat.context(AUDIT_LOG) == Evidence.Reloadable
    && e.controls !! e.catalogControls
    && (forall rows, objects, c :: c in e.controls ==> c in e.assess(rows, objects))
  }

  function Findings(e: Engine, w: World): (f: map<string, Status>) {
    e.assess(w.server.running, w.objects)
  }

  function InputRows(e: Engine, w: World, control: string): (rows: RunningRows) {
    map n | n in w.server.running && n in e.inputs(control) :: w.server.running[n]
  }

  /** proof: whether the catalog check passes. */
  function Proof(e: Engine, w: World, control: string): (passes: bool) {
    e.evaluate(control, InputRows(e, w, control))
  }

  ghost predicate SameWorld(u: World, w: World) {
    SameServer(u.server, w.server) && w.objects == u.objects
  }

  ghost predicate NamesKnown(e: Engine, w: World) {
    forall n :: n in e.names ==> n in w.server.running
  }

  // -------------------------------------------------------------------------
  // What one fix changes
  // -------------------------------------------------------------------------

  function PriorRow(s: Server, param: string): (prior: Prior)
    requires param in s.running
  {
    Prior(s.running[param].setting, s.running[param].file)
  }

  /** The preload part of catalog_fix_scope; no change when the library is already listed. */
  function PreloadChange(s: Server, library: Option<string>): (cs: Option<seq<Change>>) {
    if library.None? then Some([])
    else if PRELOAD !in s.running then None
    else
      match Derive(PriorRow(s, PRELOAD), library.value)
      case Err(_) => None
      case Ok(None) => Some([])
      case Ok(Some(c)) => Some([Change(PRELOAD, Some(c.text))])
  }

  predicate HasLine(s: Server, n: string) {
    Last(s.conf, n).Some? || Last(s.auto, n).Some?
  }

  /** The other setting of a catalog fix. Only pgaudit.log may have no row, and only while its library is
      not listed and no file sets it; it is left out when it already has the value. */
  function ExtraChange(s: Server, library: Option<string>, extra: Option<Change>): (cs: Option<seq<Change>>) {
    if extra.None? then Some([])
    else
      var c := extra.value;
      if c.param in s.running then
        if c.param == AUDIT_LOG && c.text == Some(s.running[c.param].setting) then Some([]) else Some([c])
      else if c.param != AUDIT_LOG || HasLine(s, c.param) then None
      else if library.Some? && PreloadChange(s, library) == Some([]) then None
      else Some([c])
  }

  /** The parameters a setting or catalog fix changes, derived from the given world; None is a refusal. */
  function Changes(e: Engine, w: World, fix: Fix): (cs: Option<seq<Change>>)
    requires !fix.OfObject?
  {
    if fix.OfSetting? then Some([fix.change])
    else if !e.offers(fix.control, w.server.running, w.objects) then None
    else
      var list := PreloadChange(w.server, fix.library);
      var extra := ExtraChange(w.server, fix.library, fix.extra);
      if list.None? || extra.None? || list.value + extra.value == [] then None
      else Some(list.value + extra.value)
  }

  /** The rollback of one change of a catalog fix: preload_rollback for the list, derive_rollback otherwise. */
  function RollbackOf(s: Server, c: Change): (action: Action)
    requires UndoOf(s, c).Ok?
  {
    if c.param == PRELOAD && PRELOAD in s.running && PreloadRollback(PriorRow(s, PRELOAD)).Ok?
    then PreloadRollback(PriorRow(s, PRELOAD)).value
    else UndoOf(s, c).value
  }

  /** rollback_sql of the derived fix, recorded before any of its SQL runs. */
  function CatalogUndo(s: Server, cs: seq<Change>): (script: seq<Statement>)
    requires Derivable(s, cs)
  {
    if cs == [] then [] else CatalogUndo(s, cs[1..]) + RenderAction(RollbackOf(s, cs[0]))
  }

  lemma {:induction false} CatalogUndoIsExact(s: Server, cs: seq<Change>)
    requires Derivable(s, cs) && forall c :: c in cs ==> c.text.Some?
    ensures CatalogUndo(s, cs) == UndoScript(s, cs)
  {
    if cs != [] {
      CatalogUndoIsExact(s, cs[1..]);
      if cs[0].param == PRELOAD && PRELOAD in s.running && PreloadRollback(PriorRow(s, PRELOAD)).Ok? {
        RollbackIsExact(PriorRow(s, PRELOAD));
      }
    }
  }

  // -------------------------------------------------------------------------
  // What selection and planning establish before anything runs
  // -------------------------------------------------------------------------

  /** The setting a fix owns, apart from the list every preload fix may extend. */
  function OwnParam(fix: Fix): (p: Option<string>) {
    match fix
    case OfSetting(_, _, change, _) => Some(change.param)
    case OfCatalog(_, _, _, extra) => if extra.Some? then Some(extra.value.param) else None
    case OfObject(_, _) => None
  }

  /** No two fixes share a setting (recommend_order) or an object attribute (object_conflicts). */
  ghost predicate Independent(f: Fix, g: Fix) {
    && f.id != g.id
    && (OwnParam(f).Some? ==> OwnParam(f) != OwnParam(g))
    && (f.OfObject? && g.OfObject? ==> ObjectFixes.Attributes(f.target) !! ObjectFixes.Attributes(g.target))
  }

  ghost predicate AllIndependent(fixes: seq<Fix>) {
    forall i, j :: 0 <= i < |fixes| && 0 <= j < |fixes| && i != j ==> Independent(fixes[i], fixes[j])
  }

  /** A reviewed change of one setting, whether or not the server knows the setting yet: it asks for another
      value than the running one, and a text it replaces is canonical. */
  ghost predicate OwnReady(cat: Catalogue, s: Server, c: Change) {
    && c.param != PRELOAD && c.text.Some? && Allowed(cat, c.param)
    && (cat.AtStart(c.param) ==> NeedsRestart(cat, s, c))
    && (Last(s.auto, c.param).Some? ==> cat.canon(c.param, Last(s.auto, c.param).value) == Last(s.auto, c.param).value)
  }

  /** The fix is one that can change a setting fixed at server start. */
  predicate MayRestart(e: Engine, s: Server, fix: Fix) {
    match fix
    case OfSetting(_, _, change, _) => e.cat.AtStart(change.param)
    case OfCatalog(_, _, library, extra) =>
      || (PreloadChange(s, library).Some? && PreloadChange(s, library).value != [])
      || (extra.Some? && e.cat.AtStart(extra.value.param))
    case OfObject(_, _) => false
  }

  /** Nothing waits and every reloadable setting runs what its files say; for a fix that may restart the
      server, so does every other setting. */
  ghost predicate Calm(e: Engine, s: Server, fix: Fix) {
    ReloadSettled(e.cat, s) && (MayRestart(e, s, fix) ==> AllSettled(e.cat, s))
  }

  /** A fix whose rollback was derived from exactly this world. */
  ghost predicate Ready(e: Engine, w: World, fix: Fix) {
    && Calm(e, w.server, fix)
    && match fix
       case OfSetting(_, control, change, rollback) =>
         && control in e.controls && change.param in w.server.running && OwnReady(e.cat, w.server, change)
         && UndoOf(w.server, change) == Ok(rollback)
       case OfCatalog(_, control, library, extra) =>
         && control in e.catalogControls && (library.Some? ==> library.value in {"pgaudit", "passwordcheck"})
         && (extra.Some? ==> OwnReady(e.cat, w.server, extra.value))
       case OfObject(_, target) => ObjectFixes.ValidChange(target) && ObjectFixes.Ready(w.objects, target)
  }

  lemma {:induction false} OwnIsSound(cat: Catalogue, s: Server, c: Change)
    requires ReloadSettled(cat, s) && (cat.AtStart(c.param) ==> AllSettled(cat, s)) && OwnReady(cat, s, c)
    requires c.param in s.running || Last(s.auto, c.param).None?
    ensures SoundChange(cat, s, c)
  {
    if c.param in s.running {
      assert Settled(cat, s, c.param);
    }
  }

  /** A change that appends to the preload list the server runs with. */
  ghost predicate Appends(s: Server, c: Change) {
    && c.param == PRELOAD && PRELOAD in s.running && c.text.Some?
    && Split(s.running[PRELOAD].setting).Some? && Split(c.text.value).Some?
    && Split(s.running[PRELOAD].setting).value <= Split(c.text.value).value
  }

  lemma {:induction false} PreloadChangeSound(e: Engine, s: Server, library: Option<string>)
    requires ValidEngine(e) && PreloadChange(s, library).Some?
    requires PreloadChange(s, library).value != [] ==> AllSettled(e.cat, s)
    requires library.Some? ==> library.value in {"pgaudit", "passwordcheck"}
    ensures |PreloadChange(s, library).value| <= 1
    ensures forall c :: c in PreloadChange(s, library).value ==>
              Appends(s, c) && SoundChange(e.cat, s, c) && NeedsRestart(e.cat, s, c)
  {
    PreloadChangeAppends(s, library);
    forall c | c in PreloadChange(s, library).value ensures SoundChange(e.cat, s, c) && NeedsRestart(e.cat, s, c) {
      NewListIsSound(e, s, c);
    }
  }

  lemma {:induction false} PreloadChangeAppends(s: Server, library: Option<string>)
    requires library.Some? ==> library.value in {"pgaudit", "passwordcheck"}
    requires PreloadChange(s, library).Some?
    ensures |PreloadChange(s, library).value| <= 1
    ensures forall c :: c in PreloadChange(s, library).value ==>
              Appends(s, c) && c.text.value != s.running[PRELOAD].setting
  {
    if PreloadChange(s, library).value != [] {
      DerivedList(PriorRow(s, PRELOAD), library.value);
    }
  }

  lemma {:induction false} NewListIsSound(e: Engine, s: Server, c: Change)
    requires ValidEngine(e) && AllSettled(e.cat, s) && c.param == PRELOAD && c.text.Some?
    requires c.text.value != s.running[PRELOAD].setting
    ensures SoundChange(e.cat, s, c) && NeedsRestart(e.cat, s, c)
  {
    assert Settled(e.cat, s, PRELOAD);
    assert PRELOAD in RESTART_SETTINGS;
  }

  /** What a derived change is: sound, effectual, and of the fix's own setting or appending to the list. */
  ghost predicate DerivedChange(e: Engine, s: Server, fix: Fix, c: Change) {
    && SoundChange(e.cat, s, c) && c.text.Some? && (e.cat.AtStart(c.param) ==> NeedsRestart(e.cat, s, c))
    && (Appends(s, c) || (c.param != PRELOAD && OwnParam(fix) == Some(c.param)))
  }

  /** Whatever a ready fix changes is a sound fix of the current server. */
  lemma {:induction false} ChangesSound(e: Engine, w: World, fix: Fix)
    requires ValidEngine(e) && Ready(e, w, fix)
    requires !fix.OfObject? && Changes(e, w, fix).Some?
    ensures CalmFor(e.cat, w.server, Changes(e, w, fix).value)
    ensures SoundFix(e.cat, w.server, Changes(e, w, fix).value) && Derivable(w.server, Changes(e, w, fix).value)
    ensures forall c :: c in Changes(e, w, fix).value ==> DerivedChange(e, w.server, fix, c)
  {
    if fix.OfCatalog? {
      CatalogChangesSound(e, w, fix);
    } else {
      OwnIsSound(e.cat, w.server, fix.change);
    }
  }

  lemma {:induction false} CatalogChangesSound(e: Engine, w: World, fix: Fix)
    requires ValidEngine(e) && Ready(e, w, fix)
    requires fix.OfCatalog? && Changes(e, w, fix).Some?
    ensures CalmFor(e.cat, w.server, Changes(e, w, fix).value)
    ensures SoundFix(e.cat, w.server, Changes(e, w, fix).value)
    ensures forall c :: c in Changes(e, w, fix).value ==> DerivedChange(e, w.server, fix, c)
  {
    var list, extra := PreloadChange(w.server, fix.library).value, ExtraChange(w.server, fix.library, fix.extra).value;
    PreloadChangeSound(e, w.server, fix.library);
    ExtraChangeSound(e, w.server, fix);
    forall c | c in list + extra ensures DerivedChange(e, w.server, fix, c) {
      assert c in list || c in extra;
    }
  }

  lemma {:induction false} ExtraChangeSound(e: Engine, s: Server, fix: Fix)
    requires Calm(e, s, fix) && fix.OfCatalog? && (fix.extra.Some? ==> OwnReady(e.cat, s, fix.extra.value))
    requires ExtraChange(s, fix.library, fix.extra).Some?
    ensures |ExtraChange(s, fix.library, fix.extra).value| <= 1
    ensures forall c :: c in ExtraChange(s, fix.library, fix.extra).value ==>
              DerivedChange(e, s, fix, c) && c.param != PRELOAD
  {
    if ExtraChange(s, fix.library, fix.extra).value != [] {
      OwnIsSound(e.cat, s, fix.extra.value);
    }
  }

  // -------------------------------------------------------------------------
  // Applying and undoing one fix, however far it gets
  // -------------------------------------------------------------------------

  /** How far a step gets: SQL may stop after some statements, the activation may not happen, and
      anything after it may raise. */
  datatype Progress = Progress(stops: Option<nat>, activates: bool, healthy: bool)

  const CLEAN := Progress(None, true, true)

  function Executed(script: seq<Statement>, p: Progress): (n: nat)
    ensures n <= |script|
  {
    if p.stops.None? || p.stops.value > |script| then |script| else p.stops.value
  }

  function Driven(e: Engine, s: Server, script: seq<Statement>, p: Progress): (t: Server) {
    var part := Run(e.cat, s, script[..Executed(script, p)]);
    if p.stops.None? && p.activates then Activated(e.cat, part) else part
  }

  /** One transaction commits or rolls back, and a statement the server refuses rolls it back; a lost
      connection may hide that it committed. */
  function Committed(objects: ObjectFixes.Objects, after: Option<ObjectFixes.Objects>, p: Progress)
    : (result: ObjectFixes.Objects)
  {
    if p.stops == Some(0) || after.None? then objects else after.value
  }

  function AfterApply(e: Engine, w: World, fix: Fix, p: Progress): (after: World) {
    if fix.OfObject? then w.(objects := Committed(w.objects, ObjectFixes.Apply(w.objects, fix.target), p))
    else
      match Changes(e, w, fix)
      case None => w
      case Some(cs) => w.(server := Driven(e, w.server, ApplyScript(cs), p))
  }

  /** The world `after` is one the fix can have driven `before` to. */
  ghost predicate Reached(e: Engine, before: World, after: World, fix: Fix) {
    if fix.OfObject? then
      && SameServer(before.server, after.server)
      && (after.objects == before.objects || ObjectFixes.Apply(before.objects, fix.target) == Some(after.objects))
    else
      && after.objects == before.objects
      && match Changes(e, before, fix)
         case None => SameServer(before.server, after.server)
         case Some(cs) => Drift(e.cat, before.server, after.server, cs) && Returns(e.cat, before.server, after.server)
  }

  lemma {:induction false} ApplyReached(e: Engine, w: World, fix: Fix, p: Progress)
    requires ValidEngine(e) && Ready(e, w, fix)
    ensures Reached(e, w, AfterApply(e, w, fix, p), fix)
  {
    if !fix.OfObject? && Changes(e, w, fix).Some? {
      var cs := Changes(e, w, fix).value;
      ChangesSound(e, w, fix);
      ValuesComeBack(e.cat, w.server, cs, Executed(ApplyScript(cs), p), p.stops.None? && p.activates);
      DrivenDrifts(e.cat, w.server, cs, Executed(ApplyScript(cs), p), p.stops.None? && p.activates);
    }
  }

  lemma {:induction false} ReachedSame(e: Engine, before: World, after: World, w: World, fix: Fix)
    requires ValidCatalogue(e.cat) && Reached(e, before, after, fix) && SameWorld(after, w)
    ensures Reached(e, before, w, fix)
  {
    if !fix.OfObject? && Changes(e, before, fix).Some? {
      DriftSame(e.cat, before.server, after.server, w.server, Changes(e, before, fix).value);
    }
  }

  /** The script the rollback of a setting or catalog fix runs, as recorded when the fix began. */
  function UndoRecord(e: Engine, w: World, fix: Fix): (script: seq<Statement>)
    requires !fix.OfObject? && Changes(e, w, fix).Some? && Derivable(w.server, Changes(e, w, fix).value)
  {
    if fix.OfSetting? then RenderAction(fix.rollback) else CatalogUndo(w.server, Changes(e, w, fix).value)
  }

  /** A completed rollback: the object's own undo, or the recorded script and its activation. */
  function AfterRollback(e: Engine, w: World, fix: Fix, script: seq<Statement>): (after: World) {
    if fix.OfObject? then w.(objects := ObjectFixes.Undo(w.objects, fix.target))
    else w.(server := Activated(e.cat, Run(e.cat, w.server, script)))
  }

  lemma {:induction false} UndoRecordIsExact(e: Engine, before: World, fix: Fix)
    requires ValidEngine(e) && Ready(e, before, fix)
    requires !fix.OfObject? && Changes(e, before, fix).Some?
    ensures Derivable(before.server, Changes(e, before, fix).value)
    ensures UndoRecord(e, before, fix) == UndoScript(before.server, Changes(e, before, fix).value)
  {
    ChangesSound(e, before, fix);
    if fix.OfSetting? {
      assert fix.change in [fix.change] && [fix.change][1..] == [];
      assert UndoScript(before.server, [fix.change]) == [] + RenderAction(UndoOf(before.server, fix.change).value);
    } else {
      CatalogUndoIsExact(before.server, Changes(e, before, fix).value);
    }
  }

  /** Undoing a fix from any world it can have reached restores the world before it: a setting that had no
      row has none again. */
  lemma {:induction false} UndoRestores(e: Engine, before: World, w: World, fix: Fix)
    requires ValidEngine(e) && Ready(e, before, fix)
    requires !fix.OfObject? && Changes(e, before, fix).Some? && Reached(e, before, w, fix)
    ensures Derivable(before.server, Changes(e, before, fix).value)
    ensures var script := UndoRecord(e, before, fix);
            && !Refuses(e.cat, Run(e.cat, w.server, script))
            && SameWorld(before, AfterRollback(e, w, fix, script))
  {
    UndoRecordIsExact(e, before, fix);
    ChangesSound(e, before, fix);
    UndoFromDrift(e.cat, before.server, w.server, Changes(e, before, fix).value);
  }

  /** The same for an object fix, whether or not its transaction was committed. */
  lemma {:induction false} UndoRestoresObjects(e: Engine, before: World, w: World, fix: Fix)
    requires Ready(e, before, fix) && fix.OfObject? && Reached(e, before, w, fix)
    ensures SameWorld(before, AfterRollback(e, w, fix, []))
  {
    ObjectFixes.UndoUnapplied(before.objects, fix.target);
    ObjectFixes.ApplyThenUndo(before.objects, fix.target);
  }

  /** What a step expects the activation to show: the previous values with the fix's new ones. */
  function Expectation(e: Engine, w: World, cs: seq<Change>): (expected: map<string, string>)
    requires forall n :: n in e.names ==> n in w.server.running
  {
    if cs == [] then map n | n in e.names :: w.server.running[n].setting
    else
      var last := cs[|cs| - 1];
      var rest := Expectation(e, w, cs[..|cs| - 1]);
      if last.text.Some? then rest[last.param := last.text.value] else rest
  }

  /** Every SQL statement ran and the activation showed the expected values. */
  predicate Activates(e: Engine, w: World, fix: Fix, p: Progress)
    requires forall n :: n in e.names ==> n in w.server.running
  {
    && p.stops.None?
    && if fix.OfObject? then ObjectFixes.Apply(w.objects, fix.target).Some?
       else
         match Changes(e, w, fix)
         case None => false
         case Some(cs) =>
           && p.activates
           && !Refuses(e.cat, Run(e.cat, w.server, ApplyScript(cs)))
           && Effective(e.cat, AfterApply(e, w, fix, p).server, Expectation(e, w, cs))
  }

  // -------------------------------------------------------------------------
  // What a completed step leaves to the other fixes
  // -------------------------------------------------------------------------

  lemma {:induction false} FullyDriven(e: Engine, s: Server, cs: seq<Change>, p: Progress)
    requires p.stops.None? && p.activates
    ensures Driven(e, s, ApplyScript(cs), p) == AfterAll(e.cat, s, cs)
  {
    assert ApplyScript(cs)[..|ApplyScript(cs)|] == ApplyScript(cs);
  }

  /** Settings do not disappear: the list of libraries only grows. */
  lemma {:induction false} KnownGrows(e: Engine, s: Server, t: Server, fix: Fix, cs: seq<Change>)
    requires ValidEngine(e) && ValidServer(e.cat, s) && Applied(e.cat, s, t, cs) && DistinctParams(cs)
    requires Touches(cs, PRELOAD) ==> AllSettled(e.cat, t)
    requires forall c :: c in cs ==> DerivedChange(e, s, fix, c)
    ensures s.running.Keys <= t.running.Keys
    ensures !Touches(cs, PRELOAD) ==> t.running.Keys == s.running.Keys
  {
    if Touches(cs, PRELOAD) {
      var c :| c in cs && c.param == PRELOAD;
      FixTextOf(cs, c, Last(s.auto, PRELOAD));
      assert Settled(e.cat, t, PRELOAD);
      assert t.running[PRELOAD].setting == c.text.value;
      assert Appends(s, c);
    }
  }

  /** The settings outside the given ones have the same rows. */
  ghost predicate OnlyMoves(s: Server, t: Server, params: set<string>) {
    forall n :: n !in params ==>
      (n in s.running <==> n in t.running) && (n in s.running ==> t.running[n] == s.running[n])
  }

  /** A completed setting fix moves its own row only, an object fix none. */
  ghost predicate Moves(fix: Fix, before: World, after: World) {
    match fix
    case OfSetting(_, _, change, _) => OnlyMoves(before.server, after.server, {change.param})
    case OfCatalog(_, _, _, _) => true
    case OfObject(_, _) => OnlyMoves(before.server, after.server, {})
  }

  /** The later server is as settled as the earlier one, and while that was not fully settled it runs with
      the same preload list. */
  ghost predicate Settles(e: Engine, s: Server, t: Server) {
    && ReloadSettled(e.cat, t)
    && (AllSettled(e.cat, s) ==> AllSettled(e.cat, t))
    && (AllSettled(e.cat, s) || (PRELOAD in s.running && t.running[PRELOAD] == s.running[PRELOAD]))
  }

  lemma {:induction false} StepSettles(e: Engine, w: World, fix: Fix, p: Progress)
    requires ValidEngine(e) && Ready(e, w, fix)
    requires NamesKnown(e, w) && Activates(e, w, fix, p)
    ensures var after := AfterApply(e, w, fix, p);
            && Settles(e, w.server, after.server) && w.server.running.Keys <= after.server.running.Keys
            && Moves(fix, w, after)
    ensures !fix.OfObject? ==>
              var cs := Changes(e, w, fix).value;
              && Applied(e.cat, w.server, AfterApply(e, w, fix, p).server, cs)
              && AfterApply(e, w, fix, p).objects == w.objects
              && forall c :: c in cs ==> DerivedChange(e, w.server, fix, c)
  {
    if !fix.OfObject? {
      ServerStepSettles(e, w, fix, Changes(e, w, fix).value, p);
    }
  }

  lemma {:induction false} ServerStepSettles(e: Engine, w: World, fix: Fix, cs: seq<Change>, p: Progress)
    requires ValidEngine(e) && Ready(e, w, fix)
    requires !fix.OfObject? && Changes(e, w, fix) == Some(cs) && p.stops.None? && p.activates
    ensures AfterApply(e, w, fix, p) == w.(server := AfterAll(e.cat, w.server, cs))
    ensures var after := w.(server := AfterAll(e.cat, w.server, cs));
            && Applied(e.cat, w.server, after.server, cs) && Settles(e, w.server, after.server)
            && w.server.running.Keys <= after.server.running.Keys && Moves(fix, w, after)
    ensures forall c :: c in cs ==> DerivedChange(e, w.server, fix, c)
  {
    ChangesSound(e, w, fix);
    FullyDriven(e, w.server, cs, p);
    DrivenSettles(e, w, fix, cs);
  }

  lemma {:induction false} DrivenSettles(e: Engine, w: World, fix: Fix, cs: seq<Change>)
    requires ValidEngine(e) && CalmFor(e.cat, w.server, cs) && SoundFix(e.cat, w.server, cs)
    requires forall c :: c in cs ==> DerivedChange(e, w.server, fix, c)
    requires !fix.OfObject? && (fix.OfSetting? ==> cs == [fix.change] && fix.change.param != PRELOAD)
    ensures var after := w.(server := AfterAll(e.cat, w.server, cs));
            && Applied(e.cat, w.server, after.server, cs) && Settles(e, w.server, after.server)
            && w.server.running.Keys <= after.server.running.Keys && Moves(fix, w, after)
  {
    DerivedSettles(e, w.server, fix, cs);
    if fix.OfSetting? {
      SettingMoves(e, w.server, AfterAll(e.cat, w.server, cs), fix.change);
    }
  }

  lemma {:induction false} DerivedSettles(e: Engine, s: Server, fix: Fix, cs: seq<Change>)
    requires ValidEngine(e) && CalmFor(e.cat, s, cs) && SoundFix(e.cat, s, cs)
    requires forall c :: c in cs ==> DerivedChange(e, s, fix, c)
    ensures !Refuses(e.cat, Run(e.cat, s, ApplyScript(cs)))
    ensures Applied(e.cat, s, AfterAll(e.cat, s, cs), cs) && Settles(e, s, AfterAll(e.cat, s, cs))
    ensures s.running.Keys <= AfterAll(e.cat, s, cs).running.Keys
    ensures !Touches(cs, PRELOAD) ==> AfterAll(e.cat, s, cs).running.Keys == s.running.Keys
  {
    assert e.cat.AtStart(PRELOAD) by {
      assert PRELOAD in RESTART_SETTINGS;
    }
    if AllSettled(e.cat, s) {
      NoOldRow(e, s, fix, cs);
      SoundParts(e.cat, s, cs);
      AppliedSettledIff(e.cat, s, cs);
    } else {
      ReloadApplied(e.cat, s, cs);
    }
    KnownGrows(e, s, AfterAll(e.cat, s, cs), fix, cs);
  }

  lemma {:induction false} NoOldRow(e: Engine, s: Server, fix: Fix, cs: seq<Change>)
    requires forall c :: c in cs ==> DerivedChange(e, s, fix, c)
    ensures LeavesNoOldRow(e.cat, s, cs)
  {
  }

  lemma {:induction false} SettingMoves(e: Engine, s: Server, t: Server, c: Change)
    requires Applied(e.cat, s, t, [c]) && t.running.Keys == s.running.Keys
    ensures OnlyMoves(s, t, {c.param})
  {
    forall n | n != c.param ensures !Touches([c], n) {
    }
  }

  /** A change of a parameter that an applied fix does not touch is as ready as it was, also when the fix
      loads the library that defines the parameter. */
  lemma {:induction false} UntouchedChange(cat: Catalogue, s: Server, t: Server, cs: seq<Change>, c: Change)
    requires Applied(cat, s, t, cs) && OwnReady(cat, s, c) && !Touches(cs, c.param)
    requires s.running.Keys <= t.running.Keys
    ensures OwnReady(cat, t, c)
    ensures c.param in s.running ==> UndoOf(t, c) == UndoOf(s, c)
  {
    FixTextUntouched(cs, c.param, Last(s.auto, c.param));
  }

  /** A completed step leaves a server as settled as it was, and every independent fix as ready: its
      rollback, derived from the source, is still the exact one. */
  lemma {:induction false} OthersStayReady(e: Engine, w: World, fix: Fix, other: Fix, p: Progress)
    requires ValidEngine(e) && Ready(e, w, fix) && Ready(e, w, other) && Independent(other, fix)
    requires NamesKnown(e, w) && Activates(e, w, fix, p)
    ensures ReloadSettled(e.cat, AfterApply(e, w, fix, p).server)
    ensures AllSettled(e.cat, w.server) ==> AllSettled(e.cat, AfterApply(e, w, fix, p).server)
    ensures Ready(e, AfterApply(e, w, fix, p), other)
  {
    StepSettles(e, w, fix, p);
    StaysCalm(e, w.server, AfterApply(e, w, fix, p).server, other);
    if !fix.OfObject? {
      SettingsStayReady(e, w, AfterApply(e, w, fix, p), fix, Changes(e, w, fix).value, other);
    } else if other.OfObject? {
      ObjectFixes.OtherStaysReady(w.objects, fix.target, other.target);
    }
  }

  lemma {:induction false} StaysCalm(e: Engine, s: Server, t: Server, fix: Fix)
    requires Calm(e, s, fix) && Settles(e, s, t)
    ensures Calm(e, t, fix)
  {
    if !AllSettled(e.cat, s) {
      assert fix.OfCatalog? ==> PreloadChange(t, fix.library) == PreloadChange(s, fix.library);
    }
  }

  lemma {:induction false} SettingsStayReady(e: Engine, w: World, after: World, fix: Fix, cs: seq<Change>, other: Fix)
    requires Ready(e, w, other) && Independent(other, fix) && !fix.OfObject? && Calm(e, after.server, other)
    requires Applied(e.cat, w.server, after.server, cs) && after.objects == w.objects
    requires w.server.running.Keys <= after.server.running.Keys
    requires forall c :: c in cs ==> c.param == PRELOAD || OwnParam(fix) == Some(c.param)
    ensures Ready(e, after, other)
  {
    if OwnParam(other).Some? {
      var c := if other.OfSetting? then other.change else other.extra.value;
      UntouchedChange(e.cat, w.server, after.server, cs, c);
    }
  }

  // -------------------------------------------------------------------------
  // The checks after each step, and what they add up to at the end
  // -------------------------------------------------------------------------

  /** is_regression (shared.py). */
  predicate IsRegression(before: Status, after: Status) {
    match before
    case Pass => after != Pass
    case NotApplicable => after != NotApplicable && after != Pass
    case _ => false
  }

  predicate NoRegression(e: Engine, before: World, after: World) {
    forall c | c in e.controls ::
      c in Findings(e, before) && c in Findings(e, after) ==>
        !IsRegression(Findings(e, before)[c], Findings(e, after)[c])
  }

  predicate NoneGapped(e: Engine, w: World) {
    forall c | c in e.controls :: c in Findings(e, w) && c !in e.catalogControls ==> Findings(e, w)[c] != Status.Gapped
  }

  /** predicate() of an object fix: the wanted state is visible. */
  predicate Holds(fix: Fix, w: World) {
    fix.OfObject? ==> ObjectFixes.Fixed(w.objects, fix.target)
  }

  predicate OthersUnchanged(key: string, before: ObjectFixes.Objects, after: ObjectFixes.Objects) {
    && (forall slot | slot in before.values && slot.0 != key ::
          slot in after.values && after.values[slot] == before.values[slot])
    && (forall k | k in before.lists && k != key :: k in after.lists && after.lists[k] == before.lists[k])
  }

  predicate EqualSignatures(e: Engine, u: World, w: World, names: seq<string>) {
    Sig(e.cat, w.server, names) == Sig(e.cat, u.server, names)
  }

  function Params(cs: Option<seq<Change>>): (params: set<string>) {
    if cs.None? then {} else set c | c in cs.value :: c.param
  }

  /** catalog_regressions: no other catalog check that reads a changed setting stopped passing. */
  predicate NoCatalogRegression(e: Engine, before: World, after: World, changed: set<string>, control: string) {
    forall c | c in e.catalogControls && c != control && !(e.inputs(c) !! changed) ::
      Proof(e, before, c) ==> Proof(e, after, c)
  }

  /** The gate a step must pass; `done` are the fixes applied so far, this one included. */
  predicate Gate(e: Engine, done: seq<Fix>, before: World, after: World)
    requires done != []
  {
    var fix := done[|done| - 1];
    && NoRegression(e, before, after)
    && match fix
       case OfSetting(_, control, change, _) =>
         && control in Findings(e, after) && Findings(e, after)[control] == Pass
         && NoCatalogRegression(e, before, after, {change.param}, control)
         && after.objects == before.objects
       case OfCatalog(_, control, _, _) =>
         && (forall f :: f in done && f.OfCatalog? ==> Proof(e, after, f.control))
         && NoCatalogRegression(e, before, after, Params(Changes(e, before, fix)), control)
         && NoneGapped(e, after) && after.objects == before.objects
       case OfObject(_, target) =>
         && (forall f :: f in done ==> Holds(f, after))
         && NoneGapped(e, after) && OthersUnchanged(target.key, before.objects, after.objects)
         && EqualSignatures(e, before, after, e.names)
  }

  datatype Step = Step(id: string, before: World, after: World)

  ghost predicate StepPassed(e: Engine, fixes: seq<Fix>, steps: seq<Step>, i: nat)
    requires i < |steps| <= |fixes|
  {
    && Gate(e, fixes[..i + 1], steps[i].before, steps[i].after)
    && Moves(fixes[i], steps[i].before, steps[i].after)
    && (i > 0 ==> steps[i].before == steps[i - 1].after)
    && steps[i].id == fixes[i].id
  }

  /** The recorded steps of the first fixes: each starts where the previous one ended, moved only
      what its fix changes, and passed its gate. */
  ghost predicate Passed(e: Engine, fixes: seq<Fix>, steps: seq<Step>) {
    && |steps| <= |fixes|
    && forall i {:trigger StepPassed(e, fixes, steps, i)} :: 0 <= i < |steps| ==> StepPassed(e, fixes, steps, i)
  }

  lemma {:induction false} NeverWorse(e: Engine, fixes: seq<Fix>, steps: seq<Step>, i: nat, j: nat, c: string)
    requires ValidEngine(e) && Passed(e, fixes, steps) && i <= j < |steps| && c in e.controls
    ensures c in Findings(e, steps[i].before) && c in Findings(e, steps[i].after) && c in Findings(e, steps[j].after)
    ensures !IsRegression(Findings(e, steps[i].before)[c], Findings(e, steps[j].after)[c])
    ensures !IsRegression(Findings(e, steps[i].after)[c], Findings(e, steps[j].after)[c])
    decreases j - i
  {
    assert StepPassed(e, fixes, steps, j);
    if i < j {
      NeverWorse(e, fixes, steps, i, j - 1, c);
    }
  }

  lemma {:induction false} StillHolds(e: Engine, fixes: seq<Fix>, steps: seq<Step>, i: nat, j: nat)
    requires Passed(e, fixes, steps) && i <= j < |steps| && fixes[i].OfObject?
    ensures Holds(fixes[i], steps[j].after)
    decreases j - i
  {
    var done := fixes[..j + 1];
    assert StepPassed(e, fixes, steps, j);
    assert done[i] == fixes[i] && done[|done| - 1] == fixes[j];
    if i < j {
      StillHolds(e, fixes, steps, i, j - 1);
    }
  }

  /** The check of an applied catalog fix still passes at every later step: a catalog step evaluates it
      again, a setting step that changes one of its inputs compares it with the step before, and every other
      step leaves its inputs alone. */
  lemma {:induction false} CheckStillPasses(e: Engine, fixes: seq<Fix>, steps: seq<Step>, i: nat, j: nat)
    requires ValidEngine(e) && Passed(e, fixes, steps) && i <= j < |steps| && fixes[i].OfCatalog?
    requires fixes[i].control in e.catalogControls
    requires fixes[j].OfSetting? ==> fixes[j].control in e.controls
    requires forall k :: i <= k < j && fixes[k].OfSetting? ==> fixes[k].control in e.controls
    ensures Proof(e, steps[j].after, fixes[i].control)
    decreases j - i
  {
    var done := fixes[..j + 1];
    assert StepPassed(e, fixes, steps, j);
    assert done[i] == fixes[i] && done[|done| - 1] == fixes[j];
    if !fixes[j].OfCatalog? {
      CheckStillPasses(e, fixes, steps, i, j - 1);
      var changed := if fixes[j].OfSetting? then {fixes[j].change.param} else {};
      if e.inputs(fixes[i].control) !! changed {
        InputsUnmoved(e, steps[j].before, steps[j].after, fixes[i].control, changed);
      }
    }
  }

  lemma {:induction false} InputsUnmoved(e: Engine, before: World, after: World, control: string, changed: set<string>)
    requires OnlyMoves(before.server, after.server, changed) && e.inputs(control) !! changed
    ensures Proof(e, after, control) == Proof(e, before, control)
  {
    assert InputRows(e, after, control) == InputRows(e, before, control);
  }

  /** What a finished batch owes one of its fixes. */
  ghost predicate Achieved(e: Engine, fix: Fix, last: World) {
    match fix
    case OfSetting(_, control, _, _) => control in Findings(e, last) && Findings(e, last)[control] == Pass
    case OfCatalog(_, control, _, _) => Proof(e, last, control)
    case OfObject(_, target) => ObjectFixes.Fixed(last.objects, target)
  }

  ghost predicate NotWorse(e: Engine, before: World, after: World) {
    forall c :: c in e.controls ==>
      && c in Findings(e, before) && c in Findings(e, after)
      && !IsRegression(Findings(e, before)[c], Findings(e, after)[c])
  }

  ghost predicate KnownControl(e: Engine, fix: Fix) {
    match fix
    case OfSetting(_, control, _, _) => control in e.controls
    case OfCatalog(_, control, _, _) => control in e.catalogControls
    case OfObject(_, _) => true
  }

  /** The last collection of a batch all of whose steps passed: every setting fix's control is at PASS, every
      catalog fix's check passes, every object fix holds, and no control is worse than it was at the
      baseline, although each step compared only with the one before it. */
  lemma {:induction false} EndState(e: Engine, fixes: seq<Fix>, steps: seq<Step>)
    requires ValidEngine(e) && Passed(e, fixes, steps) && |steps| == |fixes| > 0
    requires forall f :: f in fixes ==> KnownControl(e, f)
    ensures var last := steps[|steps| - 1].after;
            && (forall f :: f in fixes ==> Achieved(e, f, last))
            && NotWorse(e, steps[0].before, last)
  {
    forall i | 0 <= i < |fixes| ensures Achieved(e, fixes[i], steps[|steps| - 1].after) {
      FixAchieved(e, fixes, steps, i);
    }
    forall c | c in e.controls
      ensures c in Findings(e, steps[0].before) && c in Findings(e, steps[|steps| - 1].after)
      ensures !IsRegression(Findings(e, steps[0].before)[c], Findings(e, steps[|steps| - 1].after)[c])
    {
      NeverWorse(e, fixes, steps, 0, |steps| - 1, c);
    }
  }

  lemma {:induction false} StaysAtPass(e: Engine, fixes: seq<Fix>, steps: seq<Step>, i: nat, j: nat)
    requires ValidEngine(e) && Passed(e, fixes, steps) && i <= j < |steps|
    requires fixes[i].OfSetting? && fixes[i].control in e.controls
    ensures fixes[i].control in Findings(e, steps[j].after) && Findings(e, steps[j].after)[fixes[i].control] == Pass
  {
    assert StepPassed(e, fixes, steps, i);
    assert fixes[..i + 1][i] == fixes[i];
    NeverWorse(e, fixes, steps, i, j, fixes[i].control);
  }

  lemma {:induction false} FixAchieved(e: Engine, fixes: seq<Fix>, steps: seq<Step>, i: nat)
    requires ValidEngine(e) && Passed(e, fixes, steps) && |steps| == |fixes| && i < |fixes|
    requires forall f :: f in fixes ==> KnownControl(e, f)
    ensures Achieved(e, fixes[i], steps[|steps| - 1].after)
  {
    forall k | 0 <= k < |fixes| ensures KnownControl(e, fixes[k]) {
      assert fixes[k] in fixes;
    }
    if fixes[i].OfSetting? {
      StaysAtPass(e, fixes, steps, i, |steps| - 1);
    } else if fixes[i].OfCatalog? {
      CheckStillPasses(e, fixes, steps, i, |steps| - 1);
    } else {
      StillHolds(e, fixes, steps, i, |steps| - 1);
    }
  }
}
