/** The batch loop itself: the forward pass that stops at the first failing step and the reverse pass
    that undoes every fix that was started (run_batch in services/sandbox_poc/batch.py). Which runtime
    call fails, and how far it got, is an input. */
module BatchRun {
  import opened Wrappers
  import opened Evidence
  import opened Postgres
  import opened Provenance
  import opened SettingFix
  import opened Batch
  import opened Rehearsal
  import ObjectFixes

  /** The combined sandbox: its server and the object stand-in. */
  class Sandbox {
    const runtime: DisposablePostgres
    var objects: ObjectFixes.Objects

    constructor (runtime: DisposablePostgres, objects: ObjectFixes.Objects)
      ensures this.runtime == runtime && this.objects == objects
    {
      this.runtime := runtime;
      this.objects := objects;
    }

    function View(): (w: World)
      reads this, runtime
    {
      World(runtime.View(), objects)
    }

    /** Runs a script as far as it gets and, if all of it ran, possibly activates it. */
    method Drive(script: seq<Statement>, expected: map<string, string>, p: Progress) returns (active: bool)
      modifies this, runtime
      ensures objects == old(objects)
      ensures var s := old(runtime.View());
              var part := Run(runtime.cat, s, script[..Executed(script, p)]);
              && runtime.View() == (if p.stops.None? && p.activates then Activated(runtime.cat, part) else part)
              && (active <==> && p.stops.None? && p.activates && !Refuses(runtime.cat, part)
                              && Effective(runtime.cat, runtime.View(), expected))
    {
      RunSql(runtime, script, Executed(script, p));
      if p.stops.Some? || !p.activates {
        return false;
      }
      var outcome := runtime.Activate(expected);
      return outcome == Active;
    }

    method Transaction(after: Option<ObjectFixes.Objects>, p: Progress) returns (done: bool)
      modifies this
      ensures objects == Committed(old(objects), after, p) && (done <==> p.stops.None? && after.Some?)
    {
      objects := Committed(objects, after, p);
      done := p.stops.None? && after.Some?;
    }
  }

  /** The apply part of one step. The rollback of a catalog fix is recorded before its SQL runs. */
  method Apply(sb: Sandbox, e: Engine, fix: Fix, previous: World, pending: map<string, seq<Statement>>, p: Progress)
    returns (done: bool, recorded: map<string, seq<Statement>>)
    requires ValidEngine(e) && e.cat == sb.runtime.cat && sb.View() == previous
    requires Ready(e, previous, fix)
    requires forall n :: n in e.names ==> n in previous.server.running
    modifies sb, sb.runtime
    ensures sb.View() == AfterApply(e, previous, fix, p)
    ensures done <==> Activates(e, previous, fix, p)
    ensures recorded == Recording(e, previous, fix, pending)
  {
    recorded := pending;
    if fix.OfObject? {
      done := sb.Transaction(ObjectFixes.Apply(sb.objects, fix.target), p);
      return;
    }
    var cs := Changes(e, previous, fix);
    if cs.None? {
      return false, recorded;
    }
    UndoRecordIsExact(e, previous, fix);
    if fix.OfCatalog? {
      recorded := recorded[fix.id := CatalogUndo(previous.server, cs.value)];
    }
    WholeScript(ApplyScript(cs.value));
    done := sb.Drive(ApplyScript(cs.value), Expectation(e, previous, cs.value), p);
  }

  lemma {:induction false} WholeScript(script: seq<Statement>)
    ensures script[..|script|] == script
  {
  }

  /** A catalog fix is recorded exactly when it could be derived, and then with its exact rollback. */
  ghost predicate Records(e: Engine, w: World, fix: Fix) {
    fix.OfCatalog? && Changes(e, w, fix).Some? && Derivable(w.server, Changes(e, w, fix).value)
  }

  ghost function Recording(e: Engine, w: World, fix: Fix, pending: map<string, seq<Statement>>)
    : (recorded: map<string, seq<Statement>>)
  {
    if Records(e, w, fix) then pending[fix.id := UndoScript(w.server, Changes(e, w, fix).value)] else pending
  }

  // -------------------------------------------------------------------------
  // Undoing one fix
  // -------------------------------------------------------------------------

  function UndoSql(fix: Fix, pending: map<string, seq<Statement>>): (script: seq<Statement>)
    requires fix.OfCatalog? ==> fix.id in pending
  {
    match fix
    case OfSetting(_, _, _, rollback) => RenderAction(rollback)
    case OfCatalog(id, _, _, _) => pending[id]
    case OfObject(_, _) => []
  }

  /** The settings a catalog fix is compared on: the plan's and every changed one. */
  function CatalogNames(e: Engine, fix: Fix): (names: seq<string>)
    requires fix.OfCatalog?
  {
    e.names + (if fix.library.Some? then [PRELOAD] else []) + if fix.extra.Some? then [fix.extra.value.param] else []
  }

  /** The exact-rollback gate: signature, findings, objects and, for a catalog fix, the signature of its own
      settings, also those without a row, and its check. */
  predicate Restored(e: Engine, fix: Fix, expected: World, w: World) {
    && EqualSignatures(e, expected, w, e.names)
    && Findings(e, w) == Findings(e, expected)
    && w.objects == expected.objects
    && (fix.OfCatalog? ==>
          && EqualSignatures(e, expected, w, CatalogNames(e, fix))
          && Proof(e, w, fix.control) == Proof(e, expected, fix.control))
  }

  method Undo(sb: Sandbox, e: Engine, fix: Fix, expected: World, pending: map<string, seq<Statement>>, p: Progress)
    returns (verified: bool)
    requires e.cat == sb.runtime.cat && (fix.OfCatalog? ==> fix.id in pending)
    requires forall n :: n in e.names ==> n in expected.server.running
    modifies sb, sb.runtime
    ensures fix.OfObject? ==>
              var undone := Some(ObjectFixes.Undo(old(sb.objects), fix.target));
              && sb.View() == old(sb.View()).(objects := Committed(old(sb.objects), undone, p))
              && (verified <==> p.stops.None? && p.healthy && Restored(e, fix, expected, sb.View()))
    ensures !fix.OfObject? ==>
              var script := UndoSql(fix, pending);
              && sb.View() == old(sb.View()).(server := Driven(e, old(sb.runtime.View()), script, p))
              && (verified <==>
                    && p.stops.None? && p.activates && p.healthy
                    && !Refuses(e.cat, Run(e.cat, old(sb.runtime.View()), script))
                    && Effective(e.cat, sb.View().server, Expectation(e, expected, []))
                    && Restored(e, fix, expected, sb.View()))
  {
    var done: bool;
    if fix.OfObject? {
      done := sb.Transaction(Some(ObjectFixes.Undo(sb.objects, fix.target)), p);
    } else {
      var script := UndoSql(fix, pending);
      assert script[..|script|] == script;
      done := sb.Drive(script, Expectation(e, expected, []), p);
    }
    verified := done && p.healthy && Restored(e, fix, expected, sb.View());
  }

  /** The fix was started in `before`, drove the world to `after`, and its rollback is on record
      unless nothing of it ran. */
  ghost predicate Undoable(
    e: Engine, fix: Fix, before: World, after: World, pending: map<string, seq<Statement>>)
  {
    && Ready(e, before, fix) && Reached(e, before, after, fix)
    && (forall n :: n in e.names ==> n in before.server.running)
    && (fix.OfCatalog? ==> (fix.id in pending <==> Records(e, before, fix)))
    && (Records(e, before, fix) ==> pending[fix.id] == UndoScript(before.server, Changes(e, before, fix).value))
  }

  lemma {:induction false} SameIsRestored(e: Engine, fix: Fix, before: World, w: World)
    requires NoneWaiting(e.cat, before.server) && SameWorld(before, w)
    requires forall n :: n in e.names ==> n in before.server.running
    ensures Restored(e, fix, before, w) && Effective(e.cat, w.server, Expectation(e, before, []))
  {
    forall n ensures Resolve(e.cat, w.server, n) == Resolve(e.cat, before.server, n) {
      SameResolution(e.cat, w.server, before.server, n);
    }
    SigDependsOn(e.cat, before.server, w.server, e.names);
    if fix.OfCatalog? {
      SigDependsOn(e.cat, before.server, w.server, CatalogNames(e, fix));
    }
  }

  /** A rollback that is not interrupted passes its gate and restores the world before the fix. */
  lemma {:induction false} UndoVerifies(
    e: Engine, fix: Fix, before: World, after: World, w: World, pending: map<string, seq<Statement>>)
    requires ValidEngine(e) && Undoable(e, fix, before, after, pending) && SameWorld(after, w)
    requires fix.OfCatalog? ==> fix.id in pending
    ensures var script := UndoSql(fix, pending);
            var undone := AfterRollback(e, w, fix, script);
            && (!fix.OfObject? ==> !Refuses(e.cat, Run(e.cat, w.server, script)))
            && SameWorld(before, undone)
            && Restored(e, fix, before, undone)
            && Effective(e.cat, undone.server, Expectation(e, before, []))
  {
    ReachedSame(e, before, after, w, fix);
    if fix.OfObject? {
      UndoRestoresObjects(e, before, w, fix);
    } else {
      UndoRecordIsExact(e, before, fix);
      UndoRestores(e, before, w, fix);
    }
    SameIsRestored(e, fix, before, AfterRollback(e, w, fix, UndoSql(fix, pending)));
  }

  // -------------------------------------------------------------------------
  // The journal the forward pass leaves
  // -------------------------------------------------------------------------

  /** worlds[k] is the world fix k was started in. */
  ghost predicate AllUndoable(
    e: Engine, fixes: seq<Fix>, n: nat, pending: map<string, seq<Statement>>, worlds: seq<World>)
    requires n <= |fixes| && |worlds| == n + 1
  {
    forall i :: 0 <= i < n ==> Undoable(e, fixes[i], worlds[i], worlds[i + 1], pending)
  }

  ghost predicate Trail(steps: seq<Step>, worlds: seq<World>) {
    && |steps| < |worlds|
    && forall i :: 0 <= i < |steps| ==> steps[i].before == worlds[i] && steps[i].after == worlds[i + 1]
  }

  /** The last of `worlds` is the current one. */
  ghost predicate Journal(
    e: Engine, fixes: seq<Fix>, steps: seq<Step>, applied: seq<Fix>, pending: map<string, seq<Statement>>,
    worlds: seq<World>)
  {
    && |applied| <= |fixes| && applied == fixes[..|applied|]
    && |worlds| == |applied| + 1
    && |steps| <= |applied| <= |steps| + 1
    && Passed(e, fixes, steps) && Trail(steps, worlds)
    && AllUndoable(e, fixes, |applied|, pending, worlds)
  }

  /** The snapshot the reverse pass compares with for the fix at a position. */
  function Expected(steps: seq<Step>, baseline: World, idx: nat): (w: World) {
    if idx < |steps| then steps[idx].before
    else if steps != [] then steps[|steps| - 1].after
    else baseline
  }

  /** Whatever step failed, it is the world just before that fix. */
  lemma {:induction false} ExpectedIsBefore(
    e: Engine, fixes: seq<Fix>, steps: seq<Step>, applied: seq<Fix>, pending: map<string, seq<Statement>>,
    worlds: seq<World>, idx: nat)
    requires Journal(e, fixes, steps, applied, pending, worlds) && idx < |applied|
    ensures Expected(steps, worlds[0], idx) == worlds[idx]
  {
  }

  /** All fixes not yet started are ready in the current world. */
  ghost predicate RestReady(e: Engine, fixes: seq<Fix>, started: nat, w: World) {
    && ReloadSettled(e.cat, w.server)
    && (forall n :: n in e.names ==> n in w.server.running)
    && forall k :: started <= k < |fixes| ==> Ready(e, w, fixes[k])
  }

  lemma {:induction false} StartedIsUndoable(
    e: Engine, fix: Fix, previous: World, p: Progress,
    pending: map<string, seq<Statement>>, recorded: map<string, seq<Statement>>)
    requires ValidEngine(e) && Ready(e, previous, fix)
    requires forall n :: n in e.names ==> n in previous.server.running
    requires fix.id !in pending
    requires recorded == Recording(e, previous, fix, pending)
    ensures Undoable(e, fix, previous, AfterApply(e, previous, fix, p), recorded)
  {
    ApplyReached(e, previous, fix, p);
  }

  lemma {:induction false} RestStaysReady(e: Engine, fixes: seq<Fix>, i: nat, w: World, p: Progress)
    requires ValidEngine(e) && AllIndependent(fixes) && i < |fixes| && RestReady(e, fixes, i, w)
    requires Activates(e, w, fixes[i], p)
    ensures RestReady(e, fixes, i + 1, AfterApply(e, w, fixes[i], p))
    ensures Moves(fixes[i], w, AfterApply(e, w, fixes[i], p))
  {
    StepSettles(e, w, fixes[i], p);
    forall k | i < k < |fixes| ensures Ready(e, AfterApply(e, w, fixes[i], p), fixes[k]) {
      OthersStayReady(e, w, fixes[i], fixes[k], p);
    }
  }

  /** Starting the next fix, whether or not the step completes, leaves every started fix undoable. */
  lemma {:induction false} AllStayUndoable(
    e: Engine, fixes: seq<Fix>, n: nat, pending: map<string, seq<Statement>>, worlds: seq<World>, p: Progress)
    requires ValidEngine(e) && AllIndependent(fixes) && n < |fixes| && |worlds| == n + 1
    requires AllUndoable(e, fixes, n, pending, worlds) && RestReady(e, fixes, n, worlds[n])
    requires fixes[n].id !in pending
    ensures AllUndoable(e, fixes, n + 1, Recording(e, worlds[n], fixes[n], pending),
                        worlds + [AfterApply(e, worlds[n], fixes[n], p)])
  {
    var recorded := Recording(e, worlds[n], fixes[n], pending);
    StartedIsUndoable(e, fixes[n], worlds[n], p, pending, recorded);
    var more := worlds + [AfterApply(e, worlds[n], fixes[n], p)];
    forall i | 0 <= i < n ensures Undoable(e, fixes[i], more[i], more[i + 1], recorded) {
      assert Independent(fixes[i], fixes[n]);
      assert Undoable(e, fixes[i], worlds[i], worlds[i + 1], pending);
      RecordKept(e, fixes[i], fixes[n], worlds[i], worlds[i + 1], pending, recorded);
    }
  }

  lemma {:induction false} PassedGrows(e: Engine, fixes: seq<Fix>, steps: seq<Step>, step: Step)
    requires Passed(e, fixes, steps) && |steps| < |fixes|
    requires Gate(e, fixes[..|steps| + 1], step.before, step.after) && step.id == fixes[|steps|].id
    requires Moves(fixes[|steps|], step.before, step.after)
    requires steps != [] ==> step.before == steps[|steps| - 1].after
    ensures Passed(e, fixes, steps + [step])
  {
    var more := steps + [step];
    forall i {:trigger StepPassed(e, fixes, more, i)} | 0 <= i < |more| ensures StepPassed(e, fixes, more, i) {
      if i < |steps| {
        assert StepPassed(e, fixes, steps, i);
      }
    }
  }

  lemma {:induction false} RecordKept(
    e: Engine, fix: Fix, other: Fix, before: World, after: World,
    pending: map<string, seq<Statement>>, recorded: map<string, seq<Statement>>)
    requires Undoable(e, fix, before, after, pending) && fix.id != other.id
    requires forall id :: id != other.id ==> (id in recorded <==> id in pending)
    requires forall id :: id != other.id && id in pending ==> recorded[id] == pending[id]
    ensures Undoable(e, fix, before, after, recorded)
  {
  }

  ghost predicate Unrecorded(fixes: seq<Fix>, started: nat, pending: map<string, seq<Statement>>) {
    forall k :: started <= k < |fixes| ==> fixes[k].id !in pending
  }

  lemma {:induction false} JournalStarts(
    e: Engine, fixes: seq<Fix>, steps: seq<Step>, applied: seq<Fix>, pending: map<string, seq<Statement>>,
    worlds: seq<World>, p: Progress, recorded: map<string, seq<Statement>>, w: World)
    requires ValidEngine(e) && AllIndependent(fixes)
    requires Journal(e, fixes, steps, applied, pending, worlds) && |steps| == |applied| < |fixes|
    requires RestReady(e, fixes, |applied|, worlds[|applied|]) && Unrecorded(fixes, |applied|, pending)
    requires recorded == Recording(e, worlds[|applied|], fixes[|applied|], pending)
    requires w == AfterApply(e, worlds[|applied|], fixes[|applied|], p)
    ensures Journal(e, fixes, steps, applied + [fixes[|applied|]], recorded, worlds + [w])
    ensures Unrecorded(fixes, |applied| + 1, recorded)
  {
    var n := |applied|;
    AllStayUndoable(e, fixes, n, pending, worlds, p);
    StaysUnrecorded(e, fixes, n, worlds[n], pending);
    assert applied + [fixes[n]] == fixes[..n + 1];
    assert Trail(steps, worlds + [w]);
  }

  lemma {:induction false} StaysUnrecorded(
    e: Engine, fixes: seq<Fix>, n: nat, w: World, pending: map<string, seq<Statement>>)
    requires AllIndependent(fixes) && n < |fixes| && Unrecorded(fixes, n, pending)
    ensures Unrecorded(fixes, n + 1, Recording(e, w, fixes[n], pending))
  {
    forall k | n < k < |fixes| ensures fixes[k].id !in Recording(e, w, fixes[n], pending) {
      assert Independent(fixes[n], fixes[k]);
    }
  }

  lemma {:induction false} JournalSteps(
    e: Engine, fixes: seq<Fix>, steps: seq<Step>, applied: seq<Fix>, pending: map<string, seq<Statement>>,
    worlds: seq<World>)
    requires Journal(e, fixes, steps, applied, pending, worlds) && |applied| == |steps| + 1
    requires Gate(e, applied, worlds[|steps|], worlds[|applied|])
    requires Moves(fixes[|steps|], worlds[|steps|], worlds[|applied|])
    ensures var step := Step(fixes[|steps|].id, worlds[|steps|], worlds[|applied|]);
            Journal(e, fixes, steps + [step], applied, pending, worlds)
  {
    var step := Step(fixes[|steps|].id, worlds[|steps|], worlds[|applied|]);
    if steps != [] {
      assert steps[|steps| - 1].after == worlds[|steps|];
    }
    PassedGrows(e, fixes, steps, step);
    TrailGrows(steps, worlds, step);
  }

  lemma {:induction false} TrailGrows(steps: seq<Step>, worlds: seq<World>, step: Step)
    requires Trail(steps, worlds) && |steps| + 1 < |worlds|
    requires step.before == worlds[|steps|] && step.after == worlds[|steps| + 1]
    ensures Trail(steps + [step], worlds)
  {
  }

  // -------------------------------------------------------------------------
  // The two passes
  // -------------------------------------------------------------------------

  /** The forward pass: applies fixes in order until a step fails. */
  method ForwardPass(sb: Sandbox, e: Engine, fixes: seq<Fix>, progress: seq<Progress>)
    returns (finished: bool, steps: seq<Step>, applied: seq<Fix>, pending: map<string, seq<Statement>>,
             ghost worlds: seq<World>)
    requires ValidEngine(e) && e.cat == sb.runtime.cat && |progress| == |fixes|
    requires AllIndependent(fixes) && RestReady(e, fixes, 0, sb.View())
    modifies sb, sb.runtime
    ensures Journal(e, fixes, steps, applied, pending, worlds)
    ensures worlds[0] == old(sb.View()) && worlds[|applied|] == sb.View()
    ensures finished <==> |steps| == |fixes|
  {
    steps, applied, pending, worlds := [], [], map[], [sb.View()];
    var previous := sb.View();
    while |applied| < |fixes|
      invariant Journal(e, fixes, steps, applied, pending, worlds)
      invariant |steps| == |applied| && worlds[0] == old(sb.View())
      invariant worlds[|applied|] == sb.View() == previous
      invariant RestReady(e, fixes, |applied|, previous) && Unrecorded(fixes, |applied|, pending)
      decreases |fixes| - |applied|
    {
      var fix, p := fixes[|applied|], progress[|applied|];
      ghost var started := applied;
      assert Ready(e, previous, fix);
      var done, recorded := Apply(sb, e, fix, previous, pending, p);
      JournalStarts(e, fixes, steps, applied, pending, worlds, p, recorded, sb.View());
      applied, pending, worlds := applied + [fix], recorded, worlds + [sb.View()];
      if !done || !p.healthy || !Gate(e, applied, previous, sb.View()) {
        return false, steps, applied, pending, worlds;
      }
      RestStaysReady(e, fixes, |started|, previous, p);
      JournalSteps(e, fixes, steps, applied, pending, worlds);
      steps := steps + [Step(fix.id, previous, sb.View())];
      previous := sb.View();
    }
    finished := true;
  }

  /** results.index: distinct fixes have distinct ids, so it is the fix's own position. */
  method IndexOf(fixes: seq<Fix>, fix: Fix) returns (idx: nat)
    requires fix in fixes
    ensures idx < |fixes| && fixes[idx] == fix && fix !in fixes[..idx]
  {
    idx := 0;
    while fixes[idx] != fix
      invariant idx < |fixes| && fix !in fixes[..idx]
      decreases |fixes| - idx
    {
      assert fix in fixes[..idx + 1] + fixes[idx + 1..];
      idx := idx + 1;
    }
  }

  lemma {:induction false} DistinctFixes(fixes: seq<Fix>, i: nat, j: nat)
    requires AllIndependent(fixes) && i < |fixes| && j < |fixes|
    ensures i != j ==> fixes[i] != fixes[j]
  {
    assert i != j ==> Independent(fixes[i], fixes[j]);
  }

  /** The fixes whose rollback ran, last applied first. */
  function UndoneIds(applied: seq<Fix>, pending: map<string, seq<Statement>>): (ids: seq<string>) {
    if applied == [] then []
    else
      (if applied[0].OfCatalog? && applied[0].id !in pending then UndoneIds(applied[1..], pending)
       else UndoneIds(applied[1..], pending) + [applied[0].id])
  }

  lemma {:induction false} SkippedIsSame(
    e: Engine, fix: Fix, before: World, after: World, w: World, pending: map<string, seq<Statement>>)
    requires ValidEngine(e) && Undoable(e, fix, before, after, pending) && SameWorld(after, w)
    requires fix.OfCatalog? && fix.id !in pending
    ensures SameWorld(before, w)
  {
    if Changes(e, before, fix).Some? {
      UndoRecordIsExact(e, before, fix);
      assert false;
    }
  }

  /** One iteration of the reverse loop that runs a rollback. */
  method UndoNext(sb: Sandbox, e: Engine, fix: Fix, expected: World, pending: map<string, seq<Statement>>, p: Progress,
                  ghost after: World)
    returns (verified: bool)
    requires ValidEngine(e) && e.cat == sb.runtime.cat
    requires Undoable(e, fix, expected, after, pending) && SameWorld(after, sb.View())
    requires fix.OfCatalog? ==> fix.id in pending
    modifies sb, sb.runtime
    ensures verified ==> SameWorld(expected, sb.View())
    ensures p == CLEAN ==> verified
  {
    ghost var w := sb.View();
    verified := Undo(sb, e, fix, expected, pending, p);
    UndoVerifies(e, fix, expected, after, w, pending);
    if p.stops.None? {
      RollbackRan(e, w, fix, UndoSql(fix, pending), p);
    }
  }

  /** What a rollback that is not cut short leaves is the completed rollback. */
  lemma {:induction false} RollbackRan(e: Engine, w: World, fix: Fix, script: seq<Statement>, p: Progress)
    requires p.stops.None?
    ensures fix.OfObject? ==>
              var after := Some(ObjectFixes.Undo(w.objects, fix.target));
              w.(objects := Committed(w.objects, after, p)) == AfterRollback(e, w, fix, script)
    ensures !fix.OfObject? && p.activates ==>
              w.(server := Driven(e, w.server, script, p)) == AfterRollback(e, w, fix, script)
  {
    WholeScript(script);
  }

  /** The reverse pass: undoes every started fix, last one first, and stops at the first failure. */
  method ReversePass(
      sb: Sandbox, e: Engine, fixes: seq<Fix>, baseline: World, steps: seq<Step>, applied: seq<Fix>,
      pending: map<string, seq<Statement>>, undo: seq<Progress>, ghost worlds: seq<World>)
    returns (completed: bool, undone: seq<string>)
    requires ValidEngine(e) && e.cat == sb.runtime.cat && |undo| == |fixes| && AllIndependent(fixes)
    requires Journal(e, fixes, steps, applied, pending, worlds)
    requires worlds[0] == baseline && SameWorld(worlds[|applied|], sb.View())
    modifies sb, sb.runtime
    ensures completed ==> SameWorld(baseline, sb.View()) && undone == UndoneIds(applied, pending)
    ensures (forall k :: 0 <= k < |applied| ==> undo[k] == CLEAN) ==> completed
  {
    undone := [];
    var k: nat := |applied|;
    assert applied[|applied|..] == [];
    while k > 0
      invariant k <= |applied|
      invariant SameWorld(worlds[k], sb.View())
      invariant undone == UndoneIds(applied[k..], pending)
    {
      k := k - 1;
      var fix := applied[k];
      assert fix == fixes[k] && fix in fixes;
      var idx := IndexOf(fixes, fix);
      DistinctFixes(fixes, idx, k);
      assert applied[k..][1..] == applied[k + 1..];
      ExpectedIsBefore(e, fixes, steps, applied, pending, worlds, idx);
      assert Undoable(e, fix, worlds[k], worlds[k + 1], pending);
      if fix.OfCatalog? && fix.id !in pending {
        SkippedIsSame(e, fix, worlds[k], worlds[k + 1], sb.View(), pending);
      } else {
        var verified := UndoNext(sb, e, fix, Expected(steps, baseline, idx), pending, undo[idx], worlds[k + 1]);
        if !verified {
          return false, undone;
        }
        undone := undone + [fix.id];
      }
    }
    completed := true;
  }

  // -------------------------------------------------------------------------
  // The whole batch
  // -------------------------------------------------------------------------

  datatype BatchStatus = Verified | Failed | CleanupFailed

  datatype Record = Record(
    status: BatchStatus, steps: seq<Step>, undone: seq<string>, rollbackError: bool, notStarted: bool)

  /** A baseline the fixes can start from: as an exact reconstruction leaves it, and fully settled if one of
      the fixes may restart the server. */
  ghost predicate Prepared(e: Engine, s: Server, fixes: seq<Fix>) {
    && (forall f :: f in fixes ==> Calm(e, s, f)) && ReloadSettled(e.cat, s)
    && forall n :: n in e.names ==> n in s.running && (Settled(e.cat, s, n) ==> CanonicalText(s, n))
  }

  /** The combined sandbox of any accepted source, once its reconstruction passed the signature comparison, is
      such a baseline if and only if no fix may restart it or the source's compared settings fixed at server
      start ran what their files say. */
  lemma {:induction false} ReconstructedIsPrepared(e: Engine, image: seq<Line>, src: Server, fixes: seq<Fix>)
    requires ValidCatalogue(e.cat) && ValidServer(e.cat, src) && Accepts(Collect(e.cat, src), e.names)
    requires (forall n :: n in e.names ==> n in src.running) && Exact(e.cat, image, src, e.names)
    ensures var s := Rebuilt(e.cat, image, src, e.names).value;
            Prepared(e, s, fixes)
            <==> ((exists f :: f in fixes && MayRestart(e, s, f)) ==> SettledIn(e.cat, src, e.names, true))
  {
    AcceptedIsReady(e.cat, src, e.names);
    ExactReconstructionIsSettled(e.cat, image, src, e.names);
    PreparedIff(e, Rebuilt(e.cat, image, src, e.names).value, fixes);
  }

  lemma {:induction false} PreparedIff(e: Engine, s: Server, fixes: seq<Fix>)
    requires ReloadSettled(e.cat, s)
    requires forall n :: n in e.names ==> n in s.running && (Settled(e.cat, s, n) ==> CanonicalText(s, n))
    ensures Prepared(e, s, fixes) <==> ((exists f :: f in fixes && MayRestart(e, s, f)) ==> AllSettled(e.cat, s))
  {
  }

  /** The individual runs decide it: once one rehearsal that restarts the server was exact, the sandbox is fully
      settled, so every fix may follow. */
  lemma {:induction false} VerifiedRunSettles(
    e: Engine, image: seq<Line>, src: Server, fixes: seq<Fix>, fix: seq<Change>, k: nat, activated: bool)
    requires ValidCatalogue(e.cat) && ValidServer(e.cat, src) && Accepts(Collect(e.cat, src), e.names)
    requires DistinctParams(fix) && Derivable(src, fix) && k <= |ApplyScript(fix)|
    requires forall c :: c in fix ==> c.param in e.names
    requires (forall n :: n in e.names ==> n in src.running) && Exact(e.cat, image, src, e.names)
    requires var s := Rebuilt(e.cat, image, src, e.names).value;
             && Derivable(s, fix) && Restarts(e.cat, src, fix, k, activated)
             && Sig(e.cat, Rehearsed(e.cat, s, fix, k, activated), e.names) == Sig(e.cat, src, e.names)
    ensures NoOldRow(e, src) && Prepared(e, Rebuilt(e.cat, image, src, e.names).value, fixes)
  {
    EndToEnd(e.cat, image, src, e.names, fix, k, activated);
    ReconstructedIsPrepared(e, image, src, fixes);
  }

  lemma {:induction false} WholeRestarts(cat: Catalogue, s: Server, cs: seq<Change>)
    requires exists c :: c in cs && NeedsRestart(cat, s, c)
    ensures Restarts(cat, s, cs, |ApplyScript(cs)|, true)
  {
    assert Begun(cs, |ApplyScript(cs)|) == cs;
  }

  lemma {:induction false} RestartShows(cat: Catalogue, s: Server, names: seq<string>, cs: seq<Change>, n: string)
    requires ValidCatalogue(cat) && NoneWaiting(cat, s) && AllAllowed(cat, cs) && DistinctParams(cs) && Derivable(s, cs)
    requires forall c :: c in cs ==> c.param in names
    requires exists c :: c in cs && NeedsRestart(cat, s, c)
    requires n in names && n in s.running && !Settled(cat, s, n)
    ensures Sig(cat, Rehearsed(cat, s, cs, |ApplyScript(cs)|, true), names) != Sig(cat, s, names)
  {
    WholeRestarts(cat, s, cs);
    assert !RowsKept(cat, s, names, true);
    RehearsalExactIff(cat, s, names, cs, |ApplyScript(cs)|, true);
  }

  /** The condition is needed: while a compared setting has an old row, a fix that restarts the server is not
      undone exactly, even when nothing interrupts it. Its own run may have compared fewer settings than the
      batch does. */
  lemma {:induction false} OldRowShows(e: Engine, fix: Fix, w: World, cs: seq<Change>, n: string)
    requires ValidCatalogue(e.cat) && NoneWaiting(e.cat, w.server) && !fix.OfObject? && Changes(e, w, fix) == Some(cs)
    requires AllAllowed(e.cat, cs) && DistinctParams(cs) && Derivable(w.server, cs)
    requires forall c :: c in cs ==> c.param in e.names
    requires exists c :: c in cs && NeedsRestart(e.cat, w.server, c)
    requires n in e.names && n in w.server.running && !Settled(e.cat, w.server, n)
    ensures var after := AfterApply(e, w, fix, CLEAN);
            !Restored(e, fix, w, AfterRollback(e, after, fix, UndoScript(w.server, cs)))
  {
    FullyDriven(e, w.server, cs, CLEAN);
    WholeScript(ApplyScript(cs));
    RestartShows(e.cat, w.server, e.names, cs, n);
  }

  lemma {:induction false} PreparedReload(e: Engine, s: Server, fixes: seq<Fix>)
    requires ReloadSettled(e.cat, s)
    requires forall n :: n in e.names ==> n in s.running && (Settled(e.cat, s, n) ==> CanonicalText(s, n))
    requires forall f :: f in fixes ==> f.OfObject? || (f.OfSetting? && !e.cat.AtStart(f.change.param))
    ensures Prepared(e, s, fixes)
  {
  }

  /** A batch of fixes that never restart starts from any accepted source that is reproduced. */
  lemma {:induction false} ReloadBatch(e: Engine, image: seq<Line>, src: Server, fixes: seq<Fix>)
    requires ValidCatalogue(e.cat) && ValidServer(e.cat, src) && Accepts(Collect(e.cat, src), e.names)
    requires (forall n :: n in e.names ==> n in src.running) && Exact(e.cat, image, src, e.names)
    requires forall f :: f in fixes ==> f.OfObject? || (f.OfSetting? && !e.cat.AtStart(f.change.param))
    ensures Prepared(e, Rebuilt(e.cat, image, src, e.names).value, fixes)
    ensures AllSettled(e.cat, Rebuilt(e.cat, image, src, e.names).value) <==> SettledIn(e.cat, src, e.names, true)
  {
    AcceptedIsReady(e.cat, src, e.names);
    ExactReconstructionIsSettled(e.cat, image, src, e.names);
    PreparedReload(e, Rebuilt(e.cat, image, src, e.names).value, fixes);
  }

  lemma {:induction false} BuildLists()
    ensures ListsLoad(BUILD) && BUILD.context(AUDIT_LOG) == Evidence.Reloadable && !BUILD.AtStart(CONNECTIONS)
  {
  }

  /** Such a source need not be settled: one is Rehearsal.UNLOADED, whose row of listen_addresses is not what
      its files say. */
  lemma {:induction false} UnloadedLineBatch(e: Engine, fixes: seq<Fix>)
    requires e.cat == BUILD && e.names == BOTH
    requires forall f :: f in fixes ==> f.OfObject? || (f.OfSetting? && f.change.param == CONNECTIONS)
    ensures ValidCatalogue(e.cat) && ListsLoad(e.cat) && e.cat.context(AUDIT_LOG) == Evidence.Reloadable
    ensures forall n :: n in e.names ==> n in UNLOADED.running
    ensures Exact(e.cat, IMAGE, UNLOADED, e.names)
    ensures var s := Rebuilt(e.cat, IMAGE, UNLOADED, e.names).value;
            Prepared(e, s, fixes) && !AllSettled(e.cat, s)
  {
    UnloadedLineIsReproduced();
    BuildLists();
    ReloadBatch(e, IMAGE, UNLOADED, fixes);
  }

  /** A reviewed change of a source setting to another value. */
  ghost predicate OfferedChange(e: Engine, source: Snapshot, c: Change) {
    && c.param != PRELOAD && c.text.Some? && Allowed(e.cat, c.param)
    && c.param in e.names && c.param in Rows(source.settings)
    && (e.cat.AtStart(c.param) ==> e.cat.canon(c.param, c.text.value) != Rows(source.settings)[c.param].fields.setting)
  }

  /** _absent: the source has neither a row nor a line for the setting. */
  ghost predicate Absent(source: Snapshot, n: string) {
    && n !in Rows(source.settings)
    && source.files.Some? && forall r :: r in source.files.value ==> r.name != n
  }

  /** A fix as its own run left it: its rollback was derived from the source's evidence, before the combined
      sandbox existed. The setting of a library that is not loaded yet is absent from that evidence. */
  ghost predicate Offered(e: Engine, source: Snapshot, objects: ObjectFixes.Evidence, fix: Fix) {
    match fix
    case OfSetting(_, control, change, rollback) =>
      && control in e.controls && OfferedChange(e, source, change)
      && var row := Rows(source.settings)[change.param].fields;
         DeriveRollback(Prior(row.setting, row.sourcefile), ActionFor(change.param, change.text)) == Ok(rollback)
    case OfCatalog(_, control, library, extra) =>
      && control in e.catalogControls && (library.Some? ==> library.value in {"pgaudit", "passwordcheck"})
      && (extra.Some? ==>
            || OfferedChange(e, source, extra.value)
            || (extra.value.param == AUDIT_LOG && extra.value.text.Some? && Absent(source, AUDIT_LOG)))
    case OfObject(_, target) => ObjectFixes.Proposed(objects, target)
  }

  /** The combined sandbox reproduces the source: its signature, its findings, a failing check and the
      settings of every catalog fix, and for every object fix the recorded value or access list, not yet the
      wanted one. */
  predicate Reproduces(
    e: Engine, source: Snapshot, objects: ObjectFixes.Evidence, findings: map<string, Status>, fixes: seq<Fix>,
    w: World)
  {
    && (forall n | n in e.names :: n in w.server.running)
    && CatalogSignature(source, e.names) == Some(Sig(e.cat, w.server, e.names))
    && Findings(e, w) == findings
    && forall f | f in fixes ::
         && (f.OfCatalog? ==>
               && !Proof(e, w, f.control)
               && CatalogSignature(source, CatalogNames(e, f)) == Some(Sig(e.cat, w.server, CatalogNames(e, f))))
         && (f.OfObject? ==> ObjectFixes.PriorHolds(objects, w.objects, f.target) && !Holds(f, w))
  }

  lemma {:induction false} SourceRow(e: Engine, source: Snapshot, s: Server, n: string)
    requires CatalogSignature(source, e.names) == Some(Sig(e.cat, s, e.names))
    requires n in e.names && n in s.running
    ensures n in Rows(source.settings) && Rows(source.settings)[n].fields == CollectedFields(e.cat, s, n)
  {
    var sig := Sig(e.cat, s, e.names);
    assert n in sig.settings && sig.settings[n] == CollectedFields(e.cat, s, n);
  }

  lemma {:induction false} OfferedIsReady(e: Engine, source: Snapshot, s: Server, fixes: seq<Fix>, c: Change)
    requires Prepared(e, s, fixes) && CatalogSignature(source, e.names) == Some(Sig(e.cat, s, e.names))
    requires OfferedChange(e, source, c) && (e.cat.AtStart(c.param) ==> AllSettled(e.cat, s))
    ensures OwnReady(e.cat, s, c)
    ensures Rows(source.settings)[c.param].fields == CollectedFields(e.cat, s, c.param)
  {
    SourceRow(e, source, s, c.param);
    assert Settled(e.cat, s, c.param) && ValidRow(e.cat, c.param, s.running[c.param]);
  }

  /** A setting absent from the source is absent from a sandbox with the same signature. */
  lemma {:induction false} AbsentStaysAbsent(e: Engine, source: Snapshot, s: Server, names: seq<string>, n: string)
    requires NoneWaiting(e.cat, s) && n in names && Absent(source, n)
    requires CatalogSignature(source, names) == Some(Sig(e.cat, s, names))
    ensures n !in s.running && Last(s.auto, n).None?
  {
    var sig := Sig(e.cat, s, names);
    assert n in s.running <==> n in sig.settings;
    if Last(s.auto, n).Some? {
      var x := FileSig(n, Last(s.auto, n).value, Auto, true, false);
      KeptOrDescribed(e.cat, s, names, x);
      SignatureKept(FileRows(e.cat, s), names, x);
      SignatureKept(source.files.value, names, x);
    }
  }

  lemma {:induction false} ReproducedIsReady(
    e: Engine, source: Snapshot, objects: ObjectFixes.Evidence, findings: map<string, Status>, fixes: seq<Fix>,
    w: World, fix: Fix)
    requires ValidEngine(e) && Prepared(e, w.server, fixes) && ObjectFixes.RealLists(objects)
    requires Reproduces(e, source, objects, findings, fixes, w) && fix in fixes && Offered(e, source, objects, fix)
    ensures Ready(e, w, fix)
  {
    if fix.OfSetting? {
      OfferedIsReady(e, source, w.server, fixes, fix.change);
    } else if fix.OfCatalog? && fix.extra.Some? {
      if OfferedChange(e, source, fix.extra.value) {
        OfferedIsReady(e, source, w.server, fixes, fix.extra.value);
      } else {
        AbsentStaysAbsent(e, source, w.server, CatalogNames(e, fix), AUDIT_LOG);
      }
    } else if fix.OfObject? {
      ObjectFixes.ProposedIsReady(objects, w.objects, fix.target);
    }
  }

  lemma {:induction false} AllReady(
    e: Engine, source: Snapshot, objects: ObjectFixes.Evidence, findings: map<string, Status>, fixes: seq<Fix>,
    w: World)
    requires ValidEngine(e) && Prepared(e, w.server, fixes) && ObjectFixes.RealLists(objects)
    requires Reproduces(e, source, objects, findings, fixes, w)
    requires forall f :: f in fixes ==> Offered(e, source, objects, f)
    ensures RestReady(e, fixes, 0, w)
  {
    forall k | 0 <= k < |fixes| ensures Ready(e, w, fixes[k]) {
      assert fixes[k] in fixes;
      ReproducedIsReady(e, source, objects, findings, fixes, w, fixes[k]);
    }
  }

  /** run_batch from the reconstructed sandbox on. */
  method RunBatch(
      sb: Sandbox, e: Engine, source: Snapshot, objects: ObjectFixes.Evidence, findings: map<string, Status>,
      fixes: seq<Fix>, progress: seq<Progress>, undo: seq<Progress>, closes: bool)
    returns (r: Record)
    requires ValidEngine(e) && e.cat == sb.runtime.cat && |progress| == |undo| == |fixes| > 0
    requires AllIndependent(fixes) && ObjectFixes.RealLists(objects)
    requires forall f :: f in fixes ==> Offered(e, source, objects, f)
    requires Reproduces(e, source, objects, findings, fixes, sb.View()) ==> Prepared(e, sb.runtime.View(), fixes)
    modifies sb, sb.runtime
    ensures r.status == CleanupFailed <==> !closes
    ensures r.status == Verified ==>
              && closes && !r.notStarted && !r.rollbackError
              && |r.steps| == |fixes| && Passed(e, fixes, r.steps) && r.steps[0].before == old(sb.View())
              && (forall f :: f in fixes ==> Achieved(e, f, r.steps[|fixes| - 1].after))
              && NotWorse(e, old(sb.View()), r.steps[|fixes| - 1].after)
    ensures !r.notStarted && !r.rollbackError ==> SameWorld(old(sb.View()), sb.View())
    ensures (forall k :: 0 <= k < |undo| ==> undo[k] == CLEAN) ==> !r.rollbackError
    ensures r.notStarted ==> r.steps == [] && r.undone == [] && sb.View() == old(sb.View())
    ensures r.notStarted <==> !Reproduces(e, source, objects, findings, fixes, old(sb.View()))
  {
    var before := sb.View();
    if !Reproduces(e, source, objects, findings, fixes, before) {
      return Record(if closes then Failed else CleanupFailed, [], [], false, true);
    }
    AllReady(e, source, objects, findings, fixes, before);
    var finished, steps, applied, pending, worlds := ForwardPass(sb, e, fixes, progress);
    CurrentIsSame(e, fixes, steps, applied, pending, worlds);
    var completed, undone := ReversePass(sb, e, fixes, before, steps, applied, pending, undo, worlds);
    if finished {
      OfferedControls(e, source, objects, fixes);
      EndState(e, fixes, steps);
    }
    r := Record(if !closes then CleanupFailed else if finished && completed then Verified else Failed,
                steps, undone, !completed, false);
  }

  /** Every compared setting fixed at server start ran what its files say. */
  ghost predicate NoOldRow(e: Engine, s: Server) {
    forall n :: n in e.names && n in s.running && e.cat.AtStart(n) ==> Settled(e.cat, s, n)
  }

  /** A fix may restart the reproduced sandbox only if it may restart the source. */
  lemma {:induction false} RestartsAlike(
    e: Engine, src: Server, objects: ObjectFixes.Evidence, findings: map<string, Status>, fixes: seq<Fix>, w: World,
    fix: Fix)
    requires ValidServer(e.cat, src) && fix in fixes
    requires Reproduces(e, Collect(e.cat, src), objects, findings, fixes, w)
    ensures MayRestart(e, w.server, fix) ==> MayRestart(e, src, fix)
  {
    if fix.OfCatalog? && fix.library.Some? {
      SameListRow(e.cat, src, w.server, CatalogNames(e, fix));
    }
  }

  lemma {:induction false} SameListRow(cat: Catalogue, src: Server, s: Server, names: seq<string>)
    requires ValidServer(cat, src) && PRELOAD in names
    requires CatalogSignature(Collect(cat, src), names) == Some(Sig(cat, s, names))
    ensures PRELOAD in s.running && s.running[PRELOAD] == src.running[PRELOAD]
    ensures forall library :: PreloadChange(s, library) == PreloadChange(src, library)
  {
    SignatureOfCollected(cat, src, names);
    SameRows(cat, s, src, names, PRELOAD);
  }

  /** A reconstructed sandbox that passes the batch's comparison is a baseline the fixes can start from. */
  lemma {:induction false} RebuiltIsPrepared(
    e: Engine, image: seq<Line>, src: Server, objects: ObjectFixes.Evidence, findings: map<string, Status>,
    fixes: seq<Fix>, w: World)
    requires ValidEngine(e) && ValidServer(e.cat, src) && Accepts(Collect(e.cat, src), e.names)
    requires forall n :: n in e.names ==> n in src.running
    requires Rebuilt(e.cat, image, src, e.names) == Ok(w.server)
    requires Reproduces(e, Collect(e.cat, src), objects, findings, fixes, w)
    requires forall f :: f in fixes && MayRestart(e, src, f) ==> NoOldRow(e, src)
    ensures Exact(e.cat, image, src, e.names) && Prepared(e, w.server, fixes)
  {
    SignatureOfCollected(e.cat, src, e.names);
    ReconstructedIsPrepared(e, image, src, fixes);
    if f :| f in fixes && MayRestart(e, w.server, f) {
      RestartsAlike(e, src, objects, findings, fixes, w, f);
    }
  }

  /** The server is the sandbox as it was rebuilt from the source, with the source's signature. */
  ghost predicate AsRebuilt(e: Engine, image: seq<Line>, src: Server, s: Server) {
    && (forall n :: n in e.names ==> n in src.running) && Exact(e.cat, image, src, e.names)
    && SameServer(Rebuilt(e.cat, image, src, e.names).value, s)
  }

  /** What a batch owes the source: VERIFIED only from an exact reconstruction, with every fix achieved and no
      control worse, and a sandbox that is as it was rebuilt unless a rollback failed. */
  ghost predicate Concludes(
    e: Engine, image: seq<Line>, src: Server, fixes: seq<Fix>, objects: ObjectFixes.Objects, end: World, r: Record)
  {
    && (r.status == Verified ==>
          && !r.notStarted && !r.rollbackError && |r.steps| == |fixes| > 0 && Passed(e, fixes, r.steps)
          && (forall f :: f in fixes ==> Achieved(e, f, r.steps[|fixes| - 1].after))
          && NotWorse(e, r.steps[0].before, r.steps[|fixes| - 1].after)
          && AsRebuilt(e, image, src, r.steps[0].before.server))
    && (!r.notStarted && !r.rollbackError ==> AsRebuilt(e, image, src, end.server) && end.objects == objects)
  }

  /** The plan of the source's evidence and its reconstruction in a fresh sandbox. */
  method Rebuild(sb: Sandbox, e: Engine, ghost image: seq<Line>, ghost src: Server, source: Snapshot)
    returns (rebuilt: Result<bool, Refusal>)
    requires ValidCatalogue(e.cat) && e.cat == sb.runtime.cat && ValidServer(e.cat, src)
    requires source == Collect(e.cat, src) && sb.runtime.View() == Fresh(e.cat, image)
    modifies sb.runtime
    ensures rebuilt.Ok? <==> Accepts(source, e.names)
    ensures rebuilt.Ok? ==> forall n :: n in e.names ==> n in src.running
    ensures rebuilt.Ok? && rebuilt.value ==> Rebuilt(e.cat, image, src, e.names) == Ok(sb.runtime.View())
    ensures rebuilt.Ok? && !rebuilt.value ==> Rebuilt(e.cat, image, src, e.names).Err?
  {
    var plan := ReconstructionPlan(source, e.names);
    if plan.Err? {
      return Err(plan.error);
    }
    AcceptedIsReady(e.cat, src, e.names);
    var failure := Reconstruct(sb.runtime, plan.value);
    return Ok(failure.None?);
  }

  lemma {:induction false} BaselineFromSource(
    e: Engine, image: seq<Line>, src: Server, objects: ObjectFixes.Evidence, findings: map<string, Status>,
    fixes: seq<Fix>, w: World)
    requires ValidEngine(e) && ValidServer(e.cat, src) && Accepts(Collect(e.cat, src), e.names)
    requires forall n :: n in e.names ==> n in src.running
    requires Rebuilt(e.cat, image, src, e.names) == Ok(w.server)
    requires forall f :: f in fixes && MayRestart(e, src, f) ==> NoOldRow(e, src)
    ensures Reproduces(e, Collect(e.cat, src), objects, findings, fixes, w) ==>
              Prepared(e, w.server, fixes) && AsRebuilt(e, image, src, w.server)
  {
    if Reproduces(e, Collect(e.cat, src), objects, findings, fixes, w) {
      RebuiltIsPrepared(e, image, src, objects, findings, fixes, w);
    }
  }

  lemma {:induction false} RebuiltConcludes(
    e: Engine, image: seq<Line>, src: Server, fixes: seq<Fix>, before: World, end: World, r: Record)
    requires !r.notStarted ==> AsRebuilt(e, image, src, before.server)
    requires !r.notStarted && !r.rollbackError ==> SameWorld(before, end)
    requires r.status == Verified ==>
               && !r.notStarted && !r.rollbackError && |r.steps| == |fixes| > 0 && Passed(e, fixes, r.steps)
               && r.steps[0].before == before
               && (forall f :: f in fixes ==> Achieved(e, f, r.steps[|fixes| - 1].after))
               && NotWorse(e, before, r.steps[|fixes| - 1].after)
    ensures Concludes(e, image, src, fixes, before.objects, end, r)
  {
  }

  /** The batch in a sandbox that was rebuilt. */
  method RunRebuilt(
      sb: Sandbox, e: Engine, ghost image: seq<Line>, ghost src: Server, source: Snapshot,
      objects: ObjectFixes.Evidence, findings: map<string, Status>, fixes: seq<Fix>, progress: seq<Progress>,
      undo: seq<Progress>, closes: bool)
    returns (r: Record)
    requires ValidEngine(e) && e.cat == sb.runtime.cat && |progress| == |undo| == |fixes| > 0
    requires ValidServer(e.cat, src) && source == Collect(e.cat, src) && Accepts(source, e.names)
    requires forall n :: n in e.names ==> n in src.running
    requires Rebuilt(e.cat, image, src, e.names) == Ok(sb.runtime.View())
    requires AllIndependent(fixes) && ObjectFixes.RealLists(objects)
    requires forall f :: f in fixes ==> Offered(e, source, objects, f)
    requires forall f :: f in fixes && MayRestart(e, src, f) ==> NoOldRow(e, src)
    modifies sb, sb.runtime
    ensures r.status == CleanupFailed <==> !closes
    ensures Concludes(e, image, src, fixes, old(sb.objects), sb.View(), r)
    ensures (forall k :: 0 <= k < |undo| ==> undo[k] == CLEAN) ==> !r.rollbackError
  {
    ghost var before := sb.View();
    BaselineFromSource(e, image, src, objects, findings, fixes, before);
    r := RunBatch(sb, e, source, objects, findings, fixes, progress, undo, closes);
    RebuiltConcludes(e, image, src, fixes, before, sb.View(), r);
  }

  /** run_batch from the source's evidence to the end: the plan, the reconstruction in a fresh sandbox, the
      comparison, and both passes. A fix that may restart the server needs a source without old rows
      (OldRowShows). */
  method RunFromEvidence(
      sb: Sandbox, e: Engine, ghost image: seq<Line>, ghost src: Server, source: Snapshot,
      objects: ObjectFixes.Evidence, findings: map<string, Status>, fixes: seq<Fix>, progress: seq<Progress>,
      undo: seq<Progress>, closes: bool)
    returns (r: Result<Record, Refusal>)
    requires ValidEngine(e) && e.cat == sb.runtime.cat && |progress| == |undo| == |fixes| > 0
    requires ValidServer(e.cat, src) && source == Collect(e.cat, src) && sb.runtime.View() == Fresh(e.cat, image)
    requires AllIndependent(fixes) && ObjectFixes.RealLists(objects)
    requires forall f :: f in fixes ==> Offered(e, source, objects, f)
    requires forall f :: f in fixes && MayRestart(e, src, f) ==> NoOldRow(e, src)
    modifies sb, sb.runtime
    ensures r.Ok? <==> Accepts(source, e.names)
    ensures r.Ok? ==> (r.value.status == CleanupFailed <==> !closes)
    ensures r.Ok? ==> Concludes(e, image, src, fixes, old(sb.objects), sb.View(), r.value)
    ensures r.Ok? && (forall k :: 0 <= k < |undo| ==> undo[k] == CLEAN) ==> !r.value.rollbackError
  {
    var rebuilt := Rebuild(sb, e, image, src, source);
    if rebuilt.Err? {
      return Err(rebuilt.error);
    }
    var record := Record(if closes then Failed else CleanupFailed, [], [], false, true);
    if rebuilt.value {
      record := RunRebuilt(sb, e, image, src, source, objects, findings, fixes, progress, undo, closes);
    }
    return Ok(record);
  }

  lemma {:induction false} CurrentIsSame(
    e: Engine, fixes: seq<Fix>, steps: seq<Step>, applied: seq<Fix>, pending: map<string, seq<Statement>>,
    worlds: seq<World>)
    requires Journal(e, fixes, steps, applied, pending, worlds) && UniqueNames(worlds[0].server.auto)
    ensures SameWorld(worlds[|applied|], worlds[|applied|])
  {
    if |applied| > 0 {
      assert Undoable(e, fixes[|applied| - 1], worlds[|applied| - 1], worlds[|applied|], pending);
    }
  }

  lemma {:induction false} OfferedControls(
    e: Engine, source: Snapshot, objects: ObjectFixes.Evidence, fixes: seq<Fix>)
    requires forall f :: f in fixes ==> Offered(e, source, objects, f)
    ensures forall f :: f in fixes ==> KnownControl(e, f)
  {
    forall f | f in fixes ensures KnownControl(e, f) {
      assert Offered(e, source, objects, f);
    }
  }
}
