/** The attempt loops around one disposable sandbox, with every runtime call allowed to raise
    (RemediationLoop and ObjectRemediationLoop in services/sandbox_poc/workflow.py, CatalogFixLoop in
    services/sandbox_poc/catalog_fixes.py). */
module AttemptLoop {
  import opened Wrappers

  /** SandboxStartError, ContractError and any other exception. */
  datatype Error = StartError | ContractViolation | OtherError

  datatype Outcome = Fine | Raises(error: Error)

  datatype Call = Create | Start | Reproduce | Apply | Rollback | Close

  datatype Event = Event(sandbox: nat, call: Call, outcome: Outcome)

  /** How many runtime calls each phase makes, and whether the loop treats a failed server start
      specially (the setting and catalog loops do, the object loop does not). */
  datatype Shape = Shape(reproduce: nat, apply: nat, rollback: nat, startAware: bool)

  datatype Status = Verified | Failed | CleanupFailed

  datatype Attempt = Attempt(status: Status, terminal: bool)

  // -------------------------------------------------------------------------
  // Laws of one attempt, stated on its events alone
  // -------------------------------------------------------------------------

  predicate Occurs(events: seq<Event>, call: Call) {
    exists i :: 0 <= i < |events| && events[i].call == call
  }

  predicate OccursRaising(events: seq<Event>, call: Call, error: Error) {
    exists i :: 0 <= i < |events| && events[i].call == call && events[i].outcome == Raises(error)
  }

  function Count(events: seq<Event>, call: Call): (n: nat) {
    if events == [] then 0 else Count(events[..|events| - 1], call) + if events[|events| - 1].call == call then 1 else 0
  }

  /** The exception in flight after the events: a later one replaces an earlier one. */
  function InFlight(events: seq<Event>): (error: Option<Error>) {
    if events == [] then None
    else if events[|events| - 1].outcome.Raises? then Some(events[|events| - 1].outcome.error)
    else InFlight(events[..|events| - 1])
  }

  /** The sandbox is started first and closed once, last, whatever happened in between. */
  predicate ClosedOnce(events: seq<Event>) {
    && |events| >= 2 && events[0].call == Start
    && events[|events| - 1].call == Close
    && forall i :: 0 < i < |events| - 1 ==> events[i].call in {Reproduce, Apply, Rollback}
  }

  /** Rollback runs exactly when apply was entered and the server did not fail to restart in it. */
  predicate RollbackRule(shape: Shape, events: seq<Event>) {
    Occurs(events, Rollback) <==>
      Occurs(events, Apply) && !(shape.startAware && OccursRaising(events, Apply, StartError))
  }

  predicate Complete(shape: Shape, events: seq<Event>) {
    && (forall i :: 0 <= i < |events| ==> events[i].outcome == Fine)
    && Count(events, Reproduce) == shape.reproduce
    && Count(events, Apply) == shape.apply
    && Count(events, Rollback) == shape.rollback
  }

  /** The outcome of an attempt, read off its events. */
  predicate Judged(shape: Shape, events: seq<Event>, a: Attempt)
    requires events != []
  {
    var end := |events| - 1;
    var raised := InFlight(events[..end]);
    && (a.status == CleanupFailed <==> events[end].outcome.Raises?)
    && (a.status == Verified <==> Complete(shape, events))
    && (a.terminal <==>
          || events[end].outcome.Raises?
          || raised == Some(ContractViolation)
          || (shape.startAware && raised == Some(StartError)))
  }

  predicate ValidShape(shape: Shape) {
    shape.apply > 0 && shape.rollback > 0
  }

  predicate Lawful(shape: Shape, events: seq<Event>, a: Attempt) {
    && ClosedOnce(events) && RollbackRule(shape, events) && Judged(shape, events, a)
    && forall i :: 0 <= i < |events| ==> events[i].sandbox == events[0].sandbox
  }

  // -------------------------------------------------------------------------
  // Sandboxes that exist
  // -------------------------------------------------------------------------

  /** Sandboxes started and not confirmed removed; a start that raises may still have created one. */
  function Alive(events: seq<Event>): (ids: set<nat>) {
    if events == [] then {}
    else
      var last := events[|events| - 1];
      var before := Alive(events[..|events| - 1]);
      if last.call == Start then before + {last.sandbox}
      else if last.call == Close && last.outcome == Fine then before - {last.sandbox}
      else before
  }

  lemma {:induction false} AliveDuring(trace: seq<Event>, events: seq<Event>, k: nat)
    requires Alive(trace) == {} && ClosedOnce(events) && 0 < k <= |events|
    requires forall i :: 0 <= i < |events| ==> events[i].sandbox == events[0].sandbox
    ensures Alive(trace + events[..k])
         == if k == |events| && events[k - 1].outcome == Fine then {} else {events[0].sandbox}
  {
    var part := trace + events[..k];
    assert part[..|part| - 1] == trace + events[..k - 1];
    if k > 1 {
      AliveDuring(trace, events, k - 1);
    } else {
      assert trace + events[..0] == trace;
    }
  }

  /** At no moment do two sandboxes exist. */
  predicate OneAtATime(trace: seq<Event>) {
    forall k :: 0 <= k <= |trace| ==> |Alive(trace[..k])| <= 1
  }

  lemma {:induction false} OneMoreAttempt(trace: seq<Event>, events: seq<Event>)
    requires Alive(trace) == {} && OneAtATime(trace) && ClosedOnce(events)
    requires forall i :: 0 <= i < |events| ==> events[i].sandbox == events[0].sandbox
    ensures OneAtATime(trace + events)
    ensures Alive(trace + events) == if events[|events| - 1].outcome == Fine then {} else {events[0].sandbox}
  {
    forall k | 0 <= k <= |trace + events| ensures |Alive((trace + events)[..k])| <= 1 {
      AliveAt(trace, events, k);
    }
    AliveDuring(trace, events, |events|);
    assert events[..|events|] == events;
  }

  lemma {:induction false} AliveAt(trace: seq<Event>, events: seq<Event>, k: nat)
    requires Alive(trace) == {} && OneAtATime(trace) && ClosedOnce(events) && k <= |trace| + |events|
    requires forall i :: 0 <= i < |events| ==> events[i].sandbox == events[0].sandbox
    ensures |Alive((trace + events)[..k])| <= 1
  {
    if k <= |trace| {
      assert (trace + events)[..k] == trace[..k];
    } else {
      assert (trace + events)[..k] == trace + events[..k - |trace|];
      AliveDuring(trace, events, k - |trace|);
    }
  }

  lemma {:induction false} OneMoreCreate(trace: seq<Event>, e: Event)
    requires OneAtATime(trace) && e.call == Create
    ensures OneAtATime(trace + [e]) && Alive(trace + [e]) == Alive(trace)
  {
    assert (trace + [e])[..|trace|] == trace;
    forall k | 0 <= k <= |trace| + 1 ensures |Alive((trace + [e])[..k])| <= 1 {
      if k <= |trace| {
        assert (trace + [e])[..k] == trace[..k];
      } else {
        assert (trace + [e])[..k] == trace + [e];
        assert trace[..|trace|] == trace;
      }
    }
  }

  // -------------------------------------------------------------------------
  // Phases
  // -------------------------------------------------------------------------

  /** A phase of n calls that stops at the first exception. */
  predicate Phase(events: seq<Event>, id: nat, call: Call, n: nat, raised: Option<Error>) {
    && |events| <= n
    && (forall i :: 0 <= i < |events| ==> events[i].sandbox == id && events[i].call == call)
    && (forall i :: 0 <= i < |events| - 1 ==> events[i].outcome == Fine)
    && match raised
       case None => |events| == n && (n > 0 ==> events[n - 1].outcome == Fine)
       case Some(e) => events != [] && events[|events| - 1].outcome == Raises(e)
  }

  lemma {:induction false} InFlightConcat(a: seq<Event>, b: seq<Event>)
    ensures InFlight(a + b) == if InFlight(b).Some? then InFlight(b) else InFlight(a)
  {
    if b == [] {
      assert a + b == a;
    } else {
      assert (a + b)[..|a + b| - 1] == a + b[..|b| - 1];
      InFlightConcat(a, b[..|b| - 1]);
    }
  }

  lemma {:induction false} CountConcat(a: seq<Event>, b: seq<Event>, call: Call)
    ensures Count(a + b, call) == Count(a, call) + Count(b, call)
  {
    if b == [] {
      assert a + b == a;
    } else {
      assert (a + b)[..|a + b| - 1] == a + b[..|b| - 1];
      CountConcat(a, b[..|b| - 1], call);
    }
  }

  lemma {:induction false} PhaseCounts(events: seq<Event>, call: Call, other: Call)
    requires forall i :: 0 <= i < |events| ==> events[i].call == call
    ensures Count(events, other) == if other == call then |events| else 0
  {
    if events != [] {
      PhaseCounts(events[..|events| - 1], call, other);
    }
  }

  lemma {:induction false} PhaseInFlight(events: seq<Event>)
    requires forall i :: 0 <= i < |events| ==> events[i].outcome == Fine
    ensures InFlight(events) == None
  {
    if events != [] {
      PhaseInFlight(events[..|events| - 1]);
    }
  }

  lemma {:induction false} InFlightOfPhase(events: seq<Event>, id: nat, call: Call, n: nat, raised: Option<Error>)
    requires Phase(events, id, call, n, raised)
    ensures InFlight(events) == raised
  {
    if raised.None? {
      PhaseInFlight(events);
    }
  }

  // -------------------------------------------------------------------------
  // The loop
  // -------------------------------------------------------------------------

  /** The calls one phase made and the exception that ended it; a phase that was not entered made none. */
  datatype Part = Part(events: seq<Event>, raised: Option<Error>)

  const NOT_ENTERED := Part([], None)

  ghost predicate Ran(part: Part, id: nat, call: Call, n: nat) {
    Phase(part.events, id, call, n, part.raised)
  }

  datatype Phases = Phases(start: Part, reproduce: Part, apply: Part, rollback: Part)
  {
    function Events(): (events: seq<Event>) {
      start.events + reproduce.events + apply.events + rollback.events
    }

    /** The exception that leaves the outer try block. */
    function Flight(): (error: Option<Error>) {
      if rollback.raised.Some? then rollback.raised
      else if apply.raised.Some? then apply.raised
      else if reproduce.raised.Some? then reproduce.raised
      else start.raised
    }

    predicate Reproduces() {
      start.raised.None?
    }

    predicate Applies() {
      start.raised.None? && reproduce.raised.None?
    }

    predicate RollsBack(shape: Shape) {
      Applies() && !(shape.startAware && apply.raised == Some(StartError))
    }
  }

  /** The nesting of the try statements: each phase is entered only if the one before it raised
      nothing, except rollback, which sits in a finally clause. */
  ghost predicate Nested(shape: Shape, p: Phases, id: nat) {
    && Ran(p.start, id, Start, 1) && |p.start.events| == 1
    && (if p.Reproduces() then Ran(p.reproduce, id, Reproduce, shape.reproduce) else p.reproduce == NOT_ENTERED)
    && (if p.Applies() then Ran(p.apply, id, Apply, shape.apply) else p.apply == NOT_ENTERED)
    && (if p.RollsBack(shape) then Ran(p.rollback, id, Rollback, shape.rollback) else p.rollback == NOT_ENTERED)
  }

  lemma {:induction false} NestedInFlight(shape: Shape, p: Phases, id: nat)
    requires Nested(shape, p, id)
    ensures InFlight(p.Events()) == p.Flight()
  {
    InFlightConcat(p.start.events + p.reproduce.events + p.apply.events, p.rollback.events);
    InFlightConcat(p.start.events + p.reproduce.events, p.apply.events);
    InFlightConcat(p.start.events, p.reproduce.events);
    PartInFlight(p.start, id, Start, 1);
    PartInFlight(p.reproduce, id, Reproduce, shape.reproduce);
    PartInFlight(p.apply, id, Apply, shape.apply);
    PartInFlight(p.rollback, id, Rollback, shape.rollback);
  }

  lemma {:induction false} PartInFlight(part: Part, id: nat, call: Call, n: nat)
    requires Ran(part, id, call, n) || part == NOT_ENTERED
    ensures InFlight(part.events) == part.raised
  {
    if Ran(part, id, call, n) {
      InFlightOfPhase(part.events, id, call, n, part.raised);
    }
  }

  lemma {:induction false} NestedCounts(shape: Shape, p: Phases, id: nat)
    requires Nested(shape, p, id)
    ensures Count(p.Events(), Reproduce) == |p.reproduce.events|
    ensures Count(p.Events(), Apply) == |p.apply.events|
    ensures Count(p.Events(), Rollback) == |p.rollback.events|
  {
    forall call ensures Count(p.Events(), call) == (if call == Start then 1 else 0)
                          + (if call == Reproduce then |p.reproduce.events| else 0)
                          + (if call == Apply then |p.apply.events| else 0)
                          + (if call == Rollback then |p.rollback.events| else 0)
    {
      CountConcat(p.start.events + p.reproduce.events + p.apply.events, p.rollback.events, call);
      CountConcat(p.start.events + p.reproduce.events, p.apply.events, call);
      CountConcat(p.start.events, p.reproduce.events, call);
      PhaseCounts(p.start.events, Start, call);
      PhaseCounts(p.reproduce.events, Reproduce, call);
      PhaseCounts(p.apply.events, Apply, call);
      PhaseCounts(p.rollback.events, Rollback, call);
    }
  }

  lemma {:induction false} OccursConcat(a: seq<Event>, b: seq<Event>, call: Call)
    ensures Occurs(a + b, call) <==> Occurs(a, call) || Occurs(b, call)
  {
    assert forall i :: 0 <= i < |a| ==> (a + b)[i] == a[i];
    assert forall i :: 0 <= i < |b| ==> (a + b)[|a| + i] == b[i];
  }

  lemma {:induction false} OccursRaisingConcat(a: seq<Event>, b: seq<Event>, call: Call, error: Error)
    ensures OccursRaising(a + b, call, error) <==> OccursRaising(a, call, error) || OccursRaising(b, call, error)
  {
    assert forall i :: 0 <= i < |a| ==> (a + b)[i] == a[i];
    assert forall i :: 0 <= i < |b| ==> (a + b)[|a| + i] == b[i];
  }

  lemma {:induction false} PartOccurs(part: Part, id: nat, call: Call, n: nat, other: Call)
    requires Ran(part, id, call, n) || part == NOT_ENTERED
    ensures Occurs(part.events, other) <==> other == call && part.events != []
    ensures OccursRaising(part.events, other, StartError) <==> other == call && part.raised == Some(StartError)
  {
  }

  lemma {:induction false} NestedOccurs(shape: Shape, p: Phases, id: nat, closing: Event)
    requires Nested(shape, p, id) && closing.call == Close
    ensures Occurs(p.Events() + [closing], Rollback) <==> p.rollback.events != []
    ensures Occurs(p.Events() + [closing], Apply) <==> p.apply.events != []
    ensures OccursRaising(p.Events() + [closing], Apply, StartError) <==> p.apply.raised == Some(StartError)
  {
    forall call | call in {Apply, Rollback}
      ensures Occurs(p.Events() + [closing], call) <==>
                (call == Apply && p.apply.events != []) || (call == Rollback && p.rollback.events != [])
      ensures OccursRaising(p.Events() + [closing], call, StartError) <==>
                || (call == Apply && p.apply.raised == Some(StartError))
                || (call == Rollback && p.rollback.raised == Some(StartError))
    {
      OccursConcat(p.Events(), [closing], call);
      OccursConcat(p.start.events + p.reproduce.events + p.apply.events, p.rollback.events, call);
      OccursConcat(p.start.events + p.reproduce.events, p.apply.events, call);
      OccursConcat(p.start.events, p.reproduce.events, call);
      OccursRaisingConcat(p.Events(), [closing], call, StartError);
      OccursRaisingConcat(p.start.events + p.reproduce.events + p.apply.events, p.rollback.events, call, StartError);
      OccursRaisingConcat(p.start.events + p.reproduce.events, p.apply.events, call, StartError);
      OccursRaisingConcat(p.start.events, p.reproduce.events, call, StartError);
      PartOccurs(p.start, id, Start, 1, call);
      PartOccurs(p.reproduce, id, Reproduce, shape.reproduce, call);
      PartOccurs(p.apply, id, Apply, shape.apply, call);
      PartOccurs(p.rollback, id, Rollback, shape.rollback, call);
    }
  }

  /** All events fine and every phase at full length is the same as no exception at all. */
  lemma {:induction false} NestedComplete(shape: Shape, p: Phases, id: nat, closing: Event)
    requires ValidShape(shape) && Nested(shape, p, id) && closing.call == Close
    ensures Complete(shape, p.Events() + [closing]) <==> p.Flight().None? && closing.outcome == Fine
  {
    var events := p.Events() + [closing];
    NestedCounts(shape, p, id);
    NestedInFlight(shape, p, id);
    forall call | call in {Reproduce, Apply, Rollback} ensures Count(events, call) == Count(p.Events(), call) {
      assert events[..|p.Events()|] == p.Events();
    }
    if Complete(shape, events) {
      forall i | 0 <= i < |p.Events()| ensures p.Events()[i].outcome == Fine {
        assert events[i] == p.Events()[i];
      }
      PhaseInFlight(p.Events());
      assert events[|p.Events()|] == closing;
    } else if p.Flight().None? && closing.outcome == Fine {
      AllFine(shape, p, id);
    }
  }

  lemma {:induction false} AllFine(shape: Shape, p: Phases, id: nat)
    requires Nested(shape, p, id) && p.Flight().None?
    ensures forall i :: 0 <= i < |p.Events()| ==> p.Events()[i].outcome == Fine
    ensures |p.reproduce.events| == shape.reproduce && |p.apply.events| == shape.apply
    ensures |p.rollback.events| == shape.rollback
  {
    forall e | e in p.Events() ensures e.outcome == Fine {
      assert e in p.start.events || e in p.reproduce.events || e in p.apply.events || e in p.rollback.events;
    }
  }

  /** The nested try statements give exactly the laws stated on the events. */
  lemma {:induction false} NestedIsLawful(shape: Shape, p: Phases, id: nat, closing: Event, a: Attempt)
    requires ValidShape(shape) && Nested(shape, p, id) && closing.call == Close && closing.sandbox == id
    requires a.status
          == if closing.outcome.Raises? then CleanupFailed else if p.Flight().None? then Verified else Failed
    requires a.terminal <==>
               || closing.outcome.Raises?
               || p.Flight() == Some(ContractViolation)
               || (shape.startAware && p.Flight() == Some(StartError))
    ensures Lawful(shape, p.Events() + [closing], a)
    ensures (p.Events() + [closing])[0].sandbox == id
  {
    var events := p.Events() + [closing];
    NestedOccurs(shape, p, id, closing);
    NestedInFlight(shape, p, id);
    NestedComplete(shape, p, id, closing);
    assert events[..|events| - 1] == p.Events();
    EventsOfPhases(shape, p, id);
    assert RollbackRule(shape, events);
  }

  lemma {:induction false} EventsOfPhases(shape: Shape, p: Phases, id: nat)
    requires Nested(shape, p, id)
    ensures p.Events() != [] && p.Events()[0].call == Start
    ensures forall i :: 0 <= i < |p.Events()| ==> p.Events()[i].sandbox == id
    ensures forall i :: 0 < i < |p.Events()| ==> p.Events()[i].call in {Reproduce, Apply, Rollback}
  {
    var later := p.reproduce.events + p.apply.events + p.rollback.events;
    assert p.Events() == p.start.events + later;
    forall e | e in later ensures e.sandbox == id && e.call in {Reproduce, Apply, Rollback} {
      assert e in p.reproduce.events || e in p.apply.events || e in p.rollback.events;
    }
    forall i | 0 < i < |p.Events()| ensures p.Events()[i] == later[i - 1] {
    }
  }

  class Runner {
    const outcomes: nat -> Outcome
    var trace: seq<Event>

    constructor (outcomes: nat -> Outcome)
      ensures this.outcomes == outcomes && trace == []
    {
      this.outcomes := outcomes;
      trace := [];
    }

    method Perform(id: nat, call: Call) returns (raised: Option<Error>)
      modifies this
      ensures trace == old(trace) + [Event(id, call, if raised.None? then Fine else Raises(raised.value))]
      ensures trace[|old(trace)|].outcome == outcomes(|old(trace)|)
    {
      var outcome := outcomes(|trace|);
      trace := trace + [Event(id, call, outcome)];
      raised := if outcome.Fine? then None else Some(outcome.error);
    }

    method PerformAll(id: nat, call: Call, n: nat) returns (raised: Option<Error>, ghost events: seq<Event>)
      modifies this
      ensures trace == old(trace) + events && Phase(events, id, call, n, raised)
    {
      events, raised := [], None;
      var i := 0;
      while i < n
        invariant i <= n && |events| == i && raised.None?
        invariant trace == old(trace) + events && Phase(events, id, call, i, None)
      {
        raised := Perform(id, call);
        events := events + [trace[|old(trace)| + i]];
        if raised.Some? {
          return;
        }
        i := i + 1;
      }
    }

    /** The inner try: apply, with rollback in its finally clause. An exception raised there replaces
        the one in flight. */
    method TryApply(shape: Shape, id: nat) returns (raised: Option<Error>, ghost apply: Part, ghost rollback: Part)
      modifies this
      ensures trace == old(trace) + apply.events + rollback.events
      ensures Ran(apply, id, Apply, shape.apply)
      ensures if shape.startAware && apply.raised == Some(StartError) then rollback == NOT_ENTERED
              else Ran(rollback, id, Rollback, shape.rollback)
      ensures raised == if rollback.raised.Some? then rollback.raised else apply.raised
    {
      ghost var part: seq<Event>;
      raised, part := PerformAll(id, Apply, shape.apply);
      apply, rollback := Part(part, raised), NOT_ENTERED;
      if !(shape.startAware && raised == Some(StartError)) {
        var later;
        later, part := PerformAll(id, Rollback, shape.rollback);
        rollback := Part(part, later);
        raised := if later.Some? then later else raised;
      }
    }

    /** The outer try block: start, reproduce the source, then the inner try. */
    method TryAll(shape: Shape, id: nat) returns (raised: Option<Error>, ghost p: Phases)
      modifies this
      ensures trace == old(trace) + p.Events()
      ensures Nested(shape, p, id) && raised == p.Flight()
    {
      raised := Perform(id, Start);
      p := Phases(Part([trace[|old(trace)|]], raised), NOT_ENTERED, NOT_ENTERED, NOT_ENTERED);
      if raised.None? {
        ghost var part;
        raised, part := PerformAll(id, Reproduce, shape.reproduce);
        p := p.(reproduce := Part(part, raised));
      }
      if raised.None? {
        ghost var apply, rollback;
        raised, apply, rollback := TryApply(shape, id);
        p := p.(apply := apply, rollback := rollback);
      }
    }

    /** One attempt. Its own finally clause closes the sandbox whatever happened. */
    method RunAttempt(shape: Shape, id: nat) returns (a: Attempt, ghost events: seq<Event>)
      requires ValidShape(shape)
      modifies this
      ensures trace == old(trace) + events
      ensures Lawful(shape, events, a) && events[0].sandbox == id
    {
      ghost var p;
      var raised;
      raised, p := TryAll(shape, id);
      a := Attempt(if raised.None? then Verified else Failed,
                   raised == Some(ContractViolation) || (shape.startAware && raised == Some(StartError)));
      var closing := Perform(id, Close);
      events := p.Events() + [trace[|old(trace)| + |p.Events()|]];
      if closing.Some? {
        a := Attempt(CleanupFailed, true);
      }
      NestedIsLawful(shape, p, id, events[|p.Events()|], a);
    }

    /** The whole run: attempts until one is verified, one is terminal, or the limit is reached. The
        runtime is created outside the try block, so an exception there leaves the run. */
    method RunAll(shape: Shape, max: nat) returns (r: Result<seq<Attempt>, Error>, ghost attempts: seq<seq<Event>>)
      requires ValidShape(shape) && 1 <= max <= 3 && trace == []
      modifies this
      ensures OneAtATime(trace)
      ensures |attempts| <= max
      ensures r.Err? ==> Alive(trace) == {}
      ensures r.Ok? ==>
                && 1 <= |r.value| == |attempts|
                && (forall i :: 0 <= i < |attempts| ==> Lawful(shape, attempts[i], r.value[i]))
                && (forall i :: 0 <= i < |attempts| - 1 ==> r.value[i].status == Failed && !r.value[i].terminal)
                && (|attempts| < max ==> r.value[|attempts| - 1].terminal || r.value[|attempts| - 1].status == Verified)
                && (Alive(trace) == {} <==> r.value[|attempts| - 1].status != CleanupFailed)
    {
      var results: seq<Attempt> := [];
      attempts := [];
      while true
        invariant OneAtATime(trace) && Alive(trace) == {}
        invariant |results| == |attempts| < max
        invariant forall i :: 0 <= i < |attempts| ==> Lawful(shape, attempts[i], results[i])
        invariant forall i :: 0 <= i < |attempts| ==> results[i].status == Failed && !results[i].terminal
        decreases max - |attempts|
      {
        ghost var before := trace;
        var created := Perform(|results|, Create);
        OneMoreCreate(before, trace[|before|]);
        if created.Some? {
          return Err(created.value), attempts;
        }
        ghost var ready := trace;
        ghost var events;
        var a;
        a, events := RunAttempt(shape, |results|);
        OneMoreAttempt(ready, events);
        results, attempts := results + [a], attempts + [events];
        if a.terminal || a.status == Verified || |results| >= max {
          return Ok(results), attempts;
        }
      }
    }
  }
}
