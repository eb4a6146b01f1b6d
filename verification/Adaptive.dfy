/** The adaptive loop: test a template in a sandbox of its own, let a reviser choose another approved one,
    test again (the attempt/revise graph of RemediationLoop in services/sandbox_poc/workflow.py). */
module Adaptive {
  import opened Wrappers
  import AttemptLoop

  const RECURSION_LIMIT := 12

  /** A template with the identity of the SQL it renders, comments and white space removed. */
  datatype Template = Template(name: string, sql: string)

  datatype Decision = ManualReview | TryCandidate(id: nat) | RaisesError

  /** The status of the last attempt, or a manual review that a revision asked for. */
  datatype Status = Reported(status: AttemptLoop.Status) | NeedsReview

  /** The surroundings: `attempt(k, t)` is what the k-th attempt, with template t, reports, `decide` is the
      reviser seeing the candidate numbers on offer, `refresh` re-reads a template from the registry, and
      `valid` says whether its action and the resulting fix unit are accepted. */
  datatype Oracle = Oracle(
    attempt: (nat, Template) -> AttemptLoop.Attempt,
    decide: (nat, set<nat>) -> Decision,
    refresh: Template -> Option<Template>,
    valid: Template -> bool)

  ghost predicate Distinct(tested: seq<Template>) {
    forall i, j :: 0 <= i < j < |tested| ==> tested[i].sql != tested[j].sql
  }

  /** A template the DBA supplied: the initial one or a refreshed alternative. */
  ghost predicate Supplied(initial: Template, alternatives: seq<Template>, o: Oracle, t: Template) {
    t == initial || exists a :: a in alternatives && o.refresh(a) == Some(t)
  }

  // -------------------------------------------------------------------------
  // What a run reports
  // -------------------------------------------------------------------------

  /** The status, the templates tested in order, and the template the run reports. */
  datatype Outcome = Outcome(status: Status, tested: seq<Template>, current: Template)

  function Identities(tested: seq<Template>): (used: set<string>) {
    set t | t in tested :: t.sql
  }

  /** The alternatives whose SQL has not been tested yet, by number. */
  function Untested(alternatives: seq<Template>, tested: seq<Template>): (ids: set<nat>) {
    set i: nat | i < |alternatives| && alternatives[i].sql !in Identities(tested)
  }

  /** The alternative a decision leads to, unless the revision ends before choosing one. */
  function Chosen(o: Oracle, alternatives: seq<Template>, tested: seq<Template>): (t: Option<Template>) {
    match o.decide(|tested|, Untested(alternatives, tested))
    case ManualReview => None
    case RaisesError => None
    case TryCandidate(id) =>
      if id !in Untested(alternatives, tested) then None
      else
        match o.refresh(alternatives[id])
        case Some(t) => if t.sql in Identities(tested) then None else Some(t)
        case None => None
  }

  predicate Ends(o: Oracle, max: nat, tested: seq<Template>)
    requires tested != []
  {
    var a := o.attempt(|tested| - 1, tested[|tested| - 1]);
    a.status == AttemptLoop.Verified || a.terminal || |tested| >= max
  }

  /** The run once the last of `tested` has been tested. */
  function Continue(o: Oracle, alternatives: seq<Template>, max: nat, tested: seq<Template>): (r: Outcome)
    requires tested != []
    decreases max - |tested|
  {
    var last := tested[|tested| - 1];
    if Ends(o, max, tested) then
      Outcome(Reported(o.attempt(|tested| - 1, last).status), tested, last)
    else
      match Chosen(o, alternatives, tested)
      case None => Outcome(NeedsReview, tested, last)
      case Some(t) =>
        if o.valid(t) then Continue(o, alternatives, max, tested + [t]) else Outcome(NeedsReview, tested, t)
  }

  predicate ReportsTested(o: Oracle, initial: Template, alternatives: seq<Template>, max: nat) {
    var r := Continue(o, alternatives, max, [initial]);
    r.current in r.tested
  }

  /** No alternative that passes both checks against the initial SQL refreshes to a template whose action
      or fix unit is refused, unless the first test already ends the run. */
  predicate EveryChoiceValid(o: Oracle, initial: Template, alternatives: seq<Template>, max: nat) {
    || Ends(o, max, [initial])
    || forall a | a in alternatives ::
         a.sql == initial.sql || o.refresh(a).None? || o.refresh(a).value.sql == initial.sql
           || o.valid(o.refresh(a).value)
  }

  /** The template a run reports was tested, whatever the reviser answers, if and only if every alternative
      that can be chosen after the first test refreshes to a valid template. */
  lemma {:induction false} ReportedIsTestedIff(o: Oracle, initial: Template, alternatives: seq<Template>, max: nat)
    ensures (forall decide: (nat, set<nat>) -> Decision ::
                ReportsTested(o.(decide := decide), initial, alternatives, max))
        <==> EveryChoiceValid(o, initial, alternatives, max)
  {
    if EveryChoiceValid(o, initial, alternatives, max) {
      forall decide: (nat, set<nat>) -> Decision
        ensures ReportsTested(o.(decide := decide), initial, alternatives, max)
      {
        ValidChoicesAreTested(o.(decide := decide), initial, alternatives, max, [initial]);
      }
    } else {
      var a :| a in alternatives && a.sql != initial.sql && o.refresh(a).Some?
               && o.refresh(a).value.sql != initial.sql && !o.valid(o.refresh(a).value);
      var i: nat :| i < |alternatives| && alternatives[i] == a;
      var decide: (nat, set<nat>) -> Decision := (k, ids) => TryCandidate(i);
      RefusedChoice(o.(decide := decide), initial, alternatives, max, i);
      assert !ReportsTested(o.(decide := decide), initial, alternatives, max);
    }
  }

  lemma {:induction false} ValidChoicesAreTested(
    o: Oracle, initial: Template, alternatives: seq<Template>, max: nat, tested: seq<Template>)
    requires tested != [] && tested[0] == initial && EveryChoiceValid(o, initial, alternatives, max)
    requires |tested| > 1 ==> !Ends(o, max, [initial])
    ensures var r := Continue(o, alternatives, max, tested);
            r.current in r.tested
    decreases max - |tested|
  {
    if !Ends(o, max, tested) && Chosen(o, alternatives, tested).Some? {
      var t := Chosen(o, alternatives, tested).value;
      assert initial in tested && initial.sql in Identities(tested);
      assert |tested| == 1 ==> tested == [initial];
      assert o.valid(t);
      ValidChoicesAreTested(o, initial, alternatives, max, tested + [t]);
    }
  }

  /** A run whose first revision chooses an alternative that is then refused reports that alternative. */
  lemma {:induction false} RefusedChoice(o: Oracle, initial: Template, alternatives: seq<Template>, max: nat, i: nat)
    requires !Ends(o, max, [initial]) && i < |alternatives| && alternatives[i].sql != initial.sql
    requires o.refresh(alternatives[i]).Some? && o.refresh(alternatives[i]).value.sql != initial.sql
    requires !o.valid(o.refresh(alternatives[i]).value)
    requires o.decide(1, Untested(alternatives, [initial])) == TryCandidate(i)
    ensures Continue(o, alternatives, max, [initial])
         == Outcome(NeedsReview, [initial], o.refresh(alternatives[i]).value)
  {
    assert Identities([initial]) == {initial.sql};
    assert i in Untested(alternatives, [initial]);
  }

  /** A concrete run that reports a template it never tested: the only alternative is chosen after a failed
      test and its action is then refused. */
  lemma {:induction false} UntestedReportExample(initial: Template, other: Template, max: nat)
    requires initial == Template("initial", "ALTER SYSTEM SET a = 1")
    requires other == Template("other", "ALTER SYSTEM SET b = 1")
    requires max > 1
    ensures var failed := AttemptLoop.Attempt(AttemptLoop.Failed, false);
            var o := Oracle((k, t) => failed, (k, ids) => TryCandidate(0), t => Some(t), t => false);
            Continue(o, [other], max, [initial]) == Outcome(NeedsReview, [initial], other) && other !in [initial]
  {
    var failed := AttemptLoop.Attempt(AttemptLoop.Failed, false);
    var o := Oracle((k, t) => failed, (k, ids) => TryCandidate(0), t => Some(t), t => false);
    assert initial.sql[17] != other.sql[17];
    RefusedChoice(o, initial, [other], max, 0);
  }

  /** No SQL is tested twice, only supplied templates are tested, every test but the last failed in a way a
      retry may help, and the status is the last test's, unless it asks for a review. */
  ghost predicate SoundOutcome(o: Oracle, initial: Template, alternatives: seq<Template>, max: nat, r: Outcome) {
    && SoundSoFar(o, initial, alternatives, r.tested) && |r.tested| <= max
    && r.status == if Ends(o, max, r.tested) then Reported(o.attempt(|r.tested| - 1, r.tested[|r.tested| - 1]).status)
                   else NeedsReview
  }

  ghost predicate Retried(o: Oracle, k: nat, t: Template) {
    o.attempt(k, t).status != AttemptLoop.Verified && !o.attempt(k, t).terminal
  }

  /** The templates tested so far are different, supplied and, except the last, have failed. */
  ghost predicate SoundSoFar(o: Oracle, initial: Template, alternatives: seq<Template>, tested: seq<Template>) {
    && tested != [] && tested[0] == initial && Distinct(tested)
    && (forall t :: t in tested ==> Supplied(initial, alternatives, o, t))
    && (forall k :: 0 <= k < |tested| - 1 ==> Retried(o, k, tested[k]))
  }

  lemma {:induction false} OutcomeIsSound(
    o: Oracle, initial: Template, alternatives: seq<Template>, max: nat, tested: seq<Template>)
    requires SoundSoFar(o, initial, alternatives, tested) && |tested| <= max
    ensures SoundOutcome(o, initial, alternatives, max, Continue(o, alternatives, max, tested))
    decreases max - |tested|
  {
    var next := Chosen(o, alternatives, tested);
    if !Ends(o, max, tested) && next.Some? && o.valid(next.value) {
      ChosenIsNew(o, alternatives, tested, next.value);
      OutcomeIsSound(o, initial, alternatives, max, tested + [next.value]);
    }
  }

  lemma {:induction false} ChosenIsNew(o: Oracle, alternatives: seq<Template>, tested: seq<Template>, t: Template)
    requires Chosen(o, alternatives, tested) == Some(t)
    ensures forall i :: 0 <= i < |tested| ==> tested[i].sql != t.sql
    ensures exists a :: a in alternatives && o.refresh(a) == Some(t)
  {
    forall i | 0 <= i < |tested| ensures tested[i].sql != t.sql {
      assert tested[i] in tested;
    }
  }

  // -------------------------------------------------------------------------
  // The graph, with a sandbox for every attempt
  // -------------------------------------------------------------------------

  ghost predicate AllRetried(results: seq<AttemptLoop.Attempt>) {
    forall k :: 0 <= k < |results| ==> results[k].status == AttemptLoop.Failed && !results[k].terminal
  }

  /** The surroundings in which the attempts report these results. */
  function Answering(o: Oracle, results: seq<AttemptLoop.Attempt>): (answering: Oracle) {
    var none := AttemptLoop.Attempt(AttemptLoop.Failed, true);
    o.(attempt := (k: nat, t: Template) => if k < |results| then results[k] else none)
  }

  /** Each template after the first was chosen after the ones before it had been tested. */
  ghost predicate Follows(o: Oracle, alternatives: seq<Template>, tested: seq<Template>) {
    forall k :: 0 < k < |tested| ==> Chosen(o, alternatives, tested[..k]) == Some(tested[k]) && o.valid(tested[k])
  }

  lemma {:induction false} ContinueStep(
    o: Oracle, alternatives: seq<Template>, max: nat, tested: seq<Template>, t: Template)
    requires tested != [] && !Ends(o, max, tested) && Chosen(o, alternatives, tested) == Some(t) && o.valid(t)
    ensures Continue(o, alternatives, max, tested) == Continue(o, alternatives, max, tested + [t])
  {
  }

  lemma {:induction false} OneMoreFollows(o: Oracle, alternatives: seq<Template>, tested: seq<Template>, t: Template)
    requires Follows(o, alternatives, tested) && Chosen(o, alternatives, tested) == Some(t) && o.valid(t)
    ensures Follows(o, alternatives, tested + [t])
  {
    var more := tested + [t];
    forall k | 0 < k < |more| ensures Chosen(o, alternatives, more[..k]) == Some(more[k]) && o.valid(more[k]) {
      assert more[..k] == tested[..k];
      assert tested[..|tested|] == tested;
    }
  }

  lemma {:induction false} ChosenSame(
    o: Oracle, alternatives: seq<Template>, results: seq<AttemptLoop.Attempt>, tested: seq<Template>)
    ensures Chosen(Answering(o, results), alternatives, tested) == Chosen(o, alternatives, tested)
  {
  }

  lemma {:induction false} NextIsContinue(
    o: Oracle, alternatives: seq<Template>, max: nat, tested: seq<Template>, results: seq<AttemptLoop.Attempt>, k: nat)
    requires 0 < k < |tested| == |results| <= max && Follows(o, alternatives, tested)
    requires AllRetried(results[..|results| - 1])
    ensures var answering := Answering(o, results);
            Continue(answering, alternatives, max, tested[..k])
              == Continue(answering, alternatives, max, tested[..k + 1])
  {
    var answering := Answering(o, results);
    assert results[..|results| - 1][k - 1] == results[k - 1];
    assert answering.attempt(k - 1, tested[..k][k - 1]) == results[k - 1];
    ChosenSame(o, alternatives, results, tested[..k]);
    ContinueStep(answering, alternatives, max, tested[..k], tested[k]);
    assert tested[..k] + [tested[k]] == tested[..k + 1];
  }

  /** The run of the graph is the one the results of its attempts lead to. */
  lemma {:induction false} RunIsContinue(
    o: Oracle, alternatives: seq<Template>, max: nat, tested: seq<Template>, results: seq<AttemptLoop.Attempt>, k: nat)
    requires 0 < k <= |tested| == |results| <= max && Follows(o, alternatives, tested)
    requires AllRetried(results[..|results| - 1])
    ensures var answering := Answering(o, results);
            Continue(answering, alternatives, max, tested[..k]) == Continue(answering, alternatives, max, tested)
    decreases |tested| - k
  {
    if k == |tested| {
      assert tested[..k] == tested;
    } else {
      NextIsContinue(o, alternatives, max, tested, results, k);
      RunIsContinue(o, alternatives, max, tested, results, k + 1);
    }
  }

  class Loop {
    const oracle: Oracle
    const initial: Template
    const alternatives: seq<Template>
    const runner: AttemptLoop.Runner
    const shape: AttemptLoop.Shape
    var current: Template
    var used: set<string>
    var tested: seq<Template>
    var results: seq<AttemptLoop.Attempt>
    var nodes: nat

    constructor (
      oracle: Oracle, initial: Template, alternatives: seq<Template>, runner: AttemptLoop.Runner,
      shape: AttemptLoop.Shape)
      ensures this.oracle == oracle && this.initial == initial && this.alternatives == alternatives
      ensures this.runner == runner && this.shape == shape
      ensures current == initial && used == {} && tested == [] && results == [] && nodes == 0
    {
      this.oracle, this.initial, this.alternatives := oracle, initial, alternatives;
      this.runner, this.shape := runner, shape;
      current, used, tested, results, nodes := initial, {}, [], [], 0;
    }

    /** used_sql holds exactly the identities tested so far, each with its result. */
    ghost predicate Valid()
      reads this
    {
      used == Identities(tested) && |results| == |tested|
    }

    /** One sandbox existed at a time, and every attempt obeyed the laws. */
    ghost predicate Safe(attempts: seq<seq<AttemptLoop.Event>>)
      reads this, runner
    {
      && AttemptLoop.OneAtATime(runner.trace) && |attempts| == |results|
      && forall i :: 0 <= i < |results| ==> AttemptLoop.Lawful(shape, attempts[i], results[i])
    }

    /** An attempt in a sandbox of its own, which is created before the try block. */
    method RunAttempt()
      returns (a: Result<AttemptLoop.Attempt, AttemptLoop.Error>, ghost events: seq<AttemptLoop.Event>)
      requires AttemptLoop.ValidShape(shape)
      requires AttemptLoop.OneAtATime(runner.trace) && AttemptLoop.Alive(runner.trace) == {}
      modifies runner
      ensures AttemptLoop.OneAtATime(runner.trace)
      ensures a.Err? ==> AttemptLoop.Alive(runner.trace) == {}
      ensures a.Ok? ==> AttemptLoop.Lawful(shape, events, a.value)
      ensures a.Ok? ==> (AttemptLoop.Alive(runner.trace) == {} <==> a.value.status != AttemptLoop.CleanupFailed)
    {
      events := [];
      ghost var before := runner.trace;
      var created := runner.Perform(|results|, AttemptLoop.Create);
      AttemptLoop.OneMoreCreate(before, runner.trace[|before|]);
      if created.Some? {
        return Err(created.value), events;
      }
      ghost var ready := runner.trace;
      var attempt;
      attempt, events := runner.RunAttempt(shape, |results|);
      AttemptLoop.OneMoreAttempt(ready, events);
      a := Ok(attempt);
    }

    /** The test node. An exception from creating the sandbox leaves the graph. */
    method Test(ghost attempts: seq<seq<AttemptLoop.Event>>)
      returns (a: Result<AttemptLoop.Attempt, AttemptLoop.Error>, ghost more: seq<seq<AttemptLoop.Event>>)
      requires Valid() && AttemptLoop.ValidShape(shape)
      requires Safe(attempts) && AttemptLoop.Alive(runner.trace) == {}
      modifies this`used, this`tested, this`results, this`nodes, runner
      ensures Valid() && nodes == old(nodes) + 1 && Safe(more)
      ensures a.Err? ==> AttemptLoop.Alive(runner.trace) == {} && tested == old(tested) && results == old(results)
      ensures a.Ok? ==> tested == old(tested) + [current] && results == old(results) + [a.value]
      ensures a.Ok? ==> (AttemptLoop.Alive(runner.trace) == {} <==> a.value.status != AttemptLoop.CleanupFailed)
      ensures a.Ok? && a.value.status == AttemptLoop.CleanupFailed ==> a.value.terminal
    {
      nodes := nodes + 1;
      ghost var events;
      a, events := RunAttempt();
      if a.Err? {
        return a, attempts;
      }
      used := used + {current.sql};
      tested := tested + [current];
      results := results + [a.value];
      more := attempts + [events];
    }

    /** The alternatives whose SQL has not been tested yet, by number. */
    method Available() returns (ids: set<nat>)
      requires Valid()
      ensures ids == Untested(alternatives, tested)
    {
      ids := {};
      for i := 0 to |alternatives|
        invariant forall j: nat :: j in ids <==> j < i && alternatives[j].sql !in used
      {
        if alternatives[i].sql !in used {
          ids := ids + {i};
        }
      }
    }

    /** The revise node: any exception ends the run with a manual review, but the chosen template has
        already become the current one when its action or fix unit turns out to be invalid. */
    method Revise() returns (done: bool)
      requires Valid()
      modifies this`current, this`nodes
      ensures Valid() && nodes == old(nodes) + 1
      ensures var chosen := Chosen(oracle, alternatives, tested);
              && current == (if chosen.Some? then chosen.value else old(current))
              && (done <==> chosen.None? || !oracle.valid(chosen.value))
    {
      nodes := nodes + 1;
      var available := Available();
      match oracle.decide(|tested|, available) {
        case ManualReview => return true;
        case RaisesError => return true;
        case TryCandidate(id) =>
          if id !in available {
            return true;
          }
          var candidate := oracle.refresh(alternatives[id]);
          if candidate.None? || candidate.value.sql in used {
            return true;
          }
          current := candidate.value;
          return !oracle.valid(current);
      }
    }

    /** The graph: whatever the reviser answers and whichever runtime calls fail, one sandbox exists at a time
        and none is left unless the run ends CLEANUP_FAILED; no SQL is tested twice, only supplied templates
        are tested, and the recursion limit is never reached. */
    method Run(max: nat) returns (r: Result<Status, AttemptLoop.Error>, ghost attempts: seq<seq<AttemptLoop.Event>>)
      requires 1 <= max <= 3 && Valid() && current == initial && tested == [] && nodes == 0
      requires AttemptLoop.ValidShape(shape) && runner.trace == []
      modifies this, runner
      ensures Safe(attempts)
      ensures r.Err? ==> AttemptLoop.Alive(runner.trace) == {}
      ensures r.Ok? ==>
                (AttemptLoop.Alive(runner.trace) == {} <==> r.value != Reported(AttemptLoop.CleanupFailed))
      ensures r.Ok? ==> Reports(oracle, initial, alternatives, max, results, Outcome(r.value, tested, current))
      ensures nodes <= 2 * max - 1 < RECURSION_LIMIT
    {
      attempts := [];
      while true
        invariant Valid() && |tested| < max && nodes == 2 * |tested|
        invariant Safe(attempts) && AttemptLoop.Alive(runner.trace) == {} && AllRetried(results)
        invariant (tested + [current])[0] == initial && Follows(oracle, alternatives, tested + [current])
        decreases max - |tested|
      {
        var a;
        a, attempts := Test(attempts);
        if a.Err? {
          return Err(a.error), attempts;
        }
        if a.value.status == AttemptLoop.Verified || a.value.terminal || |tested| >= max {
          ReportsLast(oracle, initial, alternatives, max, tested, results);
          return Ok(Reported(a.value.status)), attempts;
        }
        var done := Revise();
        if done {
          ReportsReview(oracle, initial, alternatives, max, tested, results);
          return Ok(NeedsReview), attempts;
        }
        OneMoreFollows(oracle, alternatives, tested, current);
      }
    }
  }

  /** The outcome of a run whose attempts had these results. */
  ghost predicate Reports(
    o: Oracle, initial: Template, alternatives: seq<Template>, max: nat, results: seq<AttemptLoop.Attempt>, r: Outcome)
  {
    && r == Continue(Answering(o, results), alternatives, max, [initial])
    && SoundOutcome(Answering(o, results), initial, alternatives, max, r)
  }

  /** The tests so far and their results, all but the last of which may be retried. */
  ghost predicate TestedAs(
    o: Oracle, initial: Template, alternatives: seq<Template>, max: nat, tested: seq<Template>,
    results: seq<AttemptLoop.Attempt>)
  {
    && tested != [] && |tested| == |results| <= max && tested[0] == initial && Follows(o, alternatives, tested)
    && AllRetried(results[..|results| - 1])
  }

  lemma {:induction false} ReportsLast(
    o: Oracle, initial: Template, alternatives: seq<Template>, max: nat, tested: seq<Template>,
    results: seq<AttemptLoop.Attempt>)
    requires TestedAs(o, initial, alternatives, max, tested, results)
    requires var a := results[|results| - 1]; a.status == AttemptLoop.Verified || a.terminal || |tested| >= max
    ensures Reports(o, initial, alternatives, max, results,
                    Outcome(Reported(results[|results| - 1].status), tested, tested[|tested| - 1]))
  {
    RunReports(o, initial, alternatives, max, tested, results);
  }

  lemma {:induction false} ReportsReview(
    o: Oracle, initial: Template, alternatives: seq<Template>, max: nat, tested: seq<Template>,
    results: seq<AttemptLoop.Attempt>)
    requires TestedAs(o, initial, alternatives, max, tested, results) && AllRetried(results) && |tested| < max
    requires var chosen := Chosen(o, alternatives, tested); chosen.None? || !o.valid(chosen.value)
    ensures var chosen := Chosen(o, alternatives, tested);
            Reports(o, initial, alternatives, max, results,
                    Outcome(NeedsReview, tested, if chosen.Some? then chosen.value else tested[|tested| - 1]))
  {
    RunReports(o, initial, alternatives, max, tested, results);
  }

  lemma {:induction false} RunReports(
    o: Oracle, initial: Template, alternatives: seq<Template>, max: nat, tested: seq<Template>,
    results: seq<AttemptLoop.Attempt>)
    requires TestedAs(o, initial, alternatives, max, tested, results)
    ensures var answering := Answering(o, results);
            && Reports(o, initial, alternatives, max, results, Continue(answering, alternatives, max, tested))
            && Chosen(answering, alternatives, tested) == Chosen(o, alternatives, tested)
  {
    var answering := Answering(o, results);
    ChosenSame(o, alternatives, results, tested);
    RunIsContinue(o, alternatives, max, tested, results, 1);
    assert tested[..1] == [initial];
    assert Distinct([initial]) && Supplied(initial, alternatives, answering, initial);
    OutcomeIsSound(answering, initial, alternatives, max, [initial]);
  }
}
