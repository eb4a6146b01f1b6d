/** The store of prepared handoffs and the threads that run them (HandoffStore in
    services/sandbox_poc/upstream.py, run_handoff in services/sandbox_poc/router.py). Every method holds
    the store's lock, so a run is a sequence of whole operations in any interleaving. */
module Handoffs {
  import opened Wrappers

  datatype Status = Prepared | Running | Finished | Rejected

  datatype Item = Item(handoff: string, snapshot: string, status: Status, result: Option<string>)

  /** An ordered dictionary: `order` lists the keys, oldest first. */
  datatype Store = Store(order: seq<string>, items: map<string, Item>)

  ghost predicate ValidStore(s: Store) {
    && (forall i, j :: 0 <= i < j < |s.order| ==> s.order[i] != s.order[j])
    && (forall k :: k in s.order <==> k in s.items)
  }

  predicate IsRunning(s: Store, key: string) {
    key in s.items && s.items[key].status == Running
  }

  /** The oldest entry that is not running. */
  function Removable(s: Store, i: nat): (k: Option<nat>)
    requires i <= |s.order|
    ensures k.Some? ==> i <= k.value < |s.order| && !IsRunning(s, s.order[k.value])
                        && forall j :: i <= j < k.value ==> IsRunning(s, s.order[j])
    ensures k.None? ==> forall j :: i <= j < |s.order| ==> IsRunning(s, s.order[j])
    decreases |s.order| - i
  {
    if i == |s.order| then None
    else if IsRunning(s, s.order[i]) then Removable(s, i + 1)
    else Some(i)
  }

  function Evicted(s: Store, k: nat): (t: Store)
    requires k < |s.order|
  {
    Store(s.order[..k] + s.order[k + 1..], s.items - {s.order[k]})
  }

  /** put; None when every slot is running. */
  function PutIn(s: Store, limit: nat, key: string, handoff: string, snapshot: string): (r: Option<Store>) {
    var item := Item(handoff, snapshot, Prepared, None);
    if |s.order| < limit then Some(Store(s.order + [key], s.items[key := item]))
    else
      match Removable(s, 0)
      case None => None
      case Some(k) =>
        var t := Evicted(s, k);
        Some(Store(t.order + [key], t.items[key := item]))
  }

  /** begin: the handoff for the one caller that may run it, None for every other caller. */
  function BeginIn(s: Store, key: string): (r: (Store, Option<string>))
    requires key in s.items
  {
    var item := s.items[key];
    if item.status != Prepared then (s, None)
    else (s.(items := s.items[key := item.(status := Running)]), Some(item.handoff))
  }

  function FinishIn(s: Store, key: string, result: string): (t: Store)
    requires key in s.items
  {
    s.(items := s.items[key := s.items[key].(status := Finished, result := Some(result))])
  }

  function FailIn(s: Store, key: string): (t: Store)
    requires key in s.items
  {
    s.(items := s.items[key := s.items[key].(status := Rejected)])
  }

  class HandoffStore {
    const limit: nat
    var order: seq<string>
    var items: map<string, Item>

    constructor (limit: nat := 8)
      ensures this.limit == limit && View() == Store([], map[])
    {
      this.limit := limit;
      order, items := [], map[];
    }

    function View(): (s: Store)
      reads this
    {
      Store(order, items)
    }

    /** A new handle; the key is a fresh random one. */
    method Put(key: string, handoff: string, snapshot: string) returns (stored: bool)
      requires ValidStore(View()) && key !in items
      modifies this
      ensures ValidStore(View())
      ensures stored <==> PutIn(old(View()), limit, key, handoff, snapshot).Some?
      ensures View() == if stored then PutIn(old(View()), limit, key, handoff, snapshot).value else old(View())
    {
      if |order| >= limit {
        var i := 0;
        while i < |order| && IsRunning(View(), order[i])
          invariant i <= |order| && Removable(View(), i) == Removable(View(), 0)
        {
          i := i + 1;
        }
        if i == |order| {
          return false;
        }
        ghost var s := View();
        items := items - {order[i]};
        order := order[..i] + order[i + 1..];
        EvictedValid(s, i);
      }
      items := items[key := Item(handoff, snapshot, Prepared, None)];
      order := order + [key];
      stored := true;
    }

    method Begin(key: string) returns (r: Result<Option<string>, string>)
      modifies this
      ensures r.Err? <==> key !in old(items)
      ensures r.Err? ==> View() == old(View())
      ensures r.Ok? ==> (View(), r.value) == BeginIn(old(View()), key)
    {
      if key !in items {
        return Err(key);
      }
      var item := items[key];
      if item.status != Prepared {
        return Ok(None);
      }
      items := items[key := item.(status := Running)];
      r := Ok(Some(item.handoff));
    }

    method Finish(key: string, result: string)
      requires key in items
      modifies this
      ensures View() == FinishIn(old(View()), key, result)
    {
      items := items[key := items[key].(status := Finished, result := Some(result))];
    }

    method Fail(key: string)
      requires key in items
      modifies this
      ensures View() == FailIn(old(View()), key)
    {
      items := items[key := items[key].(status := Rejected)];
    }
  }

  lemma {:induction false} EvictedValid(s: Store, k: nat)
    requires ValidStore(s) && k < |s.order|
    ensures ValidStore(Evicted(s, k))
  {
    var t := Evicted(s, k);
    forall key ensures key in t.order <==> key in t.items {
      if key in s.order {
        var i :| 0 <= i < |s.order| && s.order[i] == key;
        if i < k {
          assert t.order[i] == key;
        } else if i > k {
          assert t.order[i - 1] == key;
        }
      }
    }
  }

  // -------------------------------------------------------------------------
  // Runs
  // -------------------------------------------------------------------------

  /** One operation of some thread; `ok` tells a run that finished from one that raised. */
  datatype Event =
    | Prepare(key: string, handoff: string, snapshot: string)
    | Start(key: string)
    | End(key: string, ok: bool, result: string)

  /** The store, the keys some thread is executing, and the keys ever issued and ever executed. */
  datatype System = System(store: Store, active: set<string>, issued: set<string>, executed: set<string>)

  const INITIAL := System(Store([], map[]), {}, {}, {})

  /** Keys are fresh, and a thread ends only a run it was given. */
  ghost predicate Enabled(x: System, e: Event) {
    match e
    case Prepare(key, _, _) => key !in x.issued
    case Start(_) => true
    case End(key, _, _) => key in x.active
  }

  /** Whether a Start hands the key to its thread. */
  predicate Given(x: System, key: string) {
    key in x.store.items && BeginIn(x.store, key).1.Some?
  }

  /** A finish or fail whose key is missing would raise; here it leaves the store alone. */
  function Next(x: System, limit: nat, e: Event): (y: System) {
    match e
    case Prepare(key, handoff, snapshot) =>
      var r := PutIn(x.store, limit, key, handoff, snapshot);
      System(if r.Some? then r.value else x.store, x.active, x.issued + {key}, x.executed)
    case Start(key) =>
      if !Given(x, key) then x
      else System(BeginIn(x.store, key).0, x.active + {key}, x.issued, x.executed + {key})
    case End(key, ok, result) =>
      if key !in x.store.items then x
      else
        var store := if ok then FinishIn(x.store, key, result) else FailIn(x.store, key);
        System(store, x.active - {key}, x.issued, x.executed)
  }

  /** What every reachable state keeps: the limit, and that exactly the executing keys are running. */
  ghost predicate Invariant(x: System, limit: nat) {
    && ValidStore(x.store) && |x.store.order| <= limit
    && (forall k :: k in x.store.items ==> k in x.issued)
    && (forall k :: k in x.active <==> IsRunning(x.store, k))
    && (forall k :: k in x.store.items ==> (x.store.items[k].status == Prepared <==> k !in x.executed))
    && x.executed <= x.issued
  }

  /** The moves a status can make. */
  predicate Moves(a: Status, b: Status) {
    a == b || (a == Prepared && b == Running) || (a == Running && (b == Finished || b == Rejected))
  }

  /** What storing a new handle does to the others: at most one is dropped, and never a running one. */
  lemma {:induction false} PutFacts(s: Store, limit: nat, key: string, handoff: string, snapshot: string)
    requires ValidStore(s) && |s.order| <= limit && key !in s.items
    requires PutIn(s, limit, key, handoff, snapshot).Some?
    ensures var t := PutIn(s, limit, key, handoff, snapshot).value;
            && ValidStore(t) && |t.order| <= limit
            && key in t.items && t.items[key] == Item(handoff, snapshot, Prepared, None)
            && (forall k :: k in t.items && k != key ==> k in s.items && t.items[k] == s.items[k])
            && (forall k :: IsRunning(s, k) ==> k in t.items)
  {
    if |s.order| >= limit {
      var i := Removable(s, 0).value;
      EvictedValid(s, i);
      AppendedValid(Evicted(s, i), key, Item(handoff, snapshot, Prepared, None));
    } else {
      AppendedValid(s, key, Item(handoff, snapshot, Prepared, None));
    }
  }

  lemma {:induction false} AppendedValid(s: Store, key: string, item: Item)
    requires ValidStore(s) && key !in s.items
    ensures ValidStore(Store(s.order + [key], s.items[key := item]))
  {
  }

  /** One step moves each status along its path only and never drops a running key. */
  ghost predicate Advances(x: System, y: System, e: Event) {
    && (forall k :: k in x.store.items && k in y.store.items ==>
          Moves(x.store.items[k].status, y.store.items[k].status))
    && (forall k :: IsRunning(x.store, k) ==> k in y.store.items)
    && x.executed <= y.executed && x.issued <= y.issued
    && match e
       case Prepare(_, _, _) => y.executed == x.executed && y.active == x.active
       case Start(key) =>
         && (Given(x, key) ==> key !in x.executed && key in y.executed && IsRunning(y.store, key))
         && (!Given(x, key) ==> y == x)
       case End(key, ok, _) =>
         key in x.store.items && key in y.store.items && y.store.items[key].status == if ok then Finished else Rejected
  }

  lemma {:induction false} PrepareStep(x: System, limit: nat, key: string, handoff: string, snapshot: string)
    requires Invariant(x, limit) && key !in x.issued
    ensures Invariant(Next(x, limit, Prepare(key, handoff, snapshot)), limit)
    ensures Advances(x, Next(x, limit, Prepare(key, handoff, snapshot)), Prepare(key, handoff, snapshot))
  {
    if PutIn(x.store, limit, key, handoff, snapshot).Some? {
      PutFacts(x.store, limit, key, handoff, snapshot);
    }
  }

  /** One operation keeps the invariant, never misses the key of a finish or fail, and hands a key out
      only if it never was before. */
  lemma {:induction false} OneStep(x: System, limit: nat, e: Event)
    requires Invariant(x, limit) && Enabled(x, e)
    ensures Invariant(Next(x, limit, e), limit)
    ensures Advances(x, Next(x, limit, e), e)
  {
    match e
    case Prepare(key, handoff, snapshot) => PrepareStep(x, limit, key, handoff, snapshot);
    case Start(key) => StartStep(x, limit, key);
    case End(key, ok, result) => EndStep(x, limit, key, ok, result);
  }

  lemma {:induction false} StartStep(x: System, limit: nat, key: string)
    requires Invariant(x, limit)
    ensures Invariant(Next(x, limit, Start(key)), limit) && Advances(x, Next(x, limit, Start(key)), Start(key))
  {
  }

  lemma {:induction false} EndStep(x: System, limit: nat, key: string, ok: bool, result: string)
    requires Invariant(x, limit) && key in x.active
    ensures Invariant(Next(x, limit, End(key, ok, result)), limit)
    ensures Advances(x, Next(x, limit, End(key, ok, result)), End(key, ok, result))
  {
    assert IsRunning(x.store, key);
  }

  function After(x: System, limit: nat, run: seq<Event>): (y: System) {
    if run == [] then x else Next(After(x, limit, run[..|run| - 1]), limit, run[|run| - 1])
  }

  ghost predicate Run(limit: nat, run: seq<Event>) {
    forall i :: 0 <= i < |run| ==> Enabled(After(INITIAL, limit, run[..i]), run[i])
  }

  lemma {:induction false} RunPrefix(limit: nat, run: seq<Event>, n: nat)
    requires Run(limit, run) && n <= |run|
    ensures Run(limit, run[..n])
  {
    forall i | 0 <= i < n ensures Enabled(After(INITIAL, limit, run[..n][..i]), run[..n][i]) {
      assert run[..n][..i] == run[..i];
    }
  }

  /** In every interleaving the store stays within its limit and every running key stays in it. */
  lemma {:induction false} AlwaysInvariant(limit: nat, run: seq<Event>)
    requires Run(limit, run)
    ensures Invariant(After(INITIAL, limit, run), limit)
  {
    if run != [] {
      var n := |run| - 1;
      RunPrefix(limit, run, n);
      AlwaysInvariant(limit, run[..n]);
      assert run[..n] == run[..|run| - 1];
      OneStep(After(INITIAL, limit, run[..n]), limit, run[n]);
    }
  }

  lemma {:induction false} StepOfRun(limit: nat, run: seq<Event>, n: nat)
    requires Run(limit, run) && n < |run|
    ensures Invariant(After(INITIAL, limit, run[..n]), limit)
    ensures After(INITIAL, limit, run[..n + 1]) == Next(After(INITIAL, limit, run[..n]), limit, run[n])
    ensures Advances(After(INITIAL, limit, run[..n]), After(INITIAL, limit, run[..n + 1]), run[n])
  {
    RunPrefix(limit, run, n);
    AlwaysInvariant(limit, run[..n]);
    assert run[..n + 1][..n] == run[..n];
    OneStep(After(INITIAL, limit, run[..n]), limit, run[n]);
  }

  lemma {:induction false} StepKeepsExecuted(limit: nat, run: seq<Event>, n: nat)
    requires Run(limit, run) && n < |run|
    ensures After(INITIAL, limit, run[..n]).executed <= After(INITIAL, limit, run[..n + 1]).executed
  {
    StepOfRun(limit, run, n);
  }

  lemma {:induction false} ExecutedGrows(limit: nat, run: seq<Event>, i: nat, j: nat)
    requires Run(limit, run) && i <= j <= |run|
    ensures After(INITIAL, limit, run[..i]).executed <= After(INITIAL, limit, run[..j]).executed
    decreases j - i
  {
    if i < j {
      var k := j - 1;
      ExecutedGrows(limit, run, i, k);
      StepKeepsExecuted(limit, run, k);
    }
  }

  /** No key is handed to two runners, whatever the interleaving. */
  lemma {:induction false} AtMostOnce(limit: nat, run: seq<Event>, i: nat, j: nat)
    requires Run(limit, run) && i < j < |run|
    requires run[i].Start? && run[j].Start? && run[i].key == run[j].key
    requires Given(After(INITIAL, limit, run[..i]), run[i].key)
    ensures !Given(After(INITIAL, limit, run[..j]), run[j].key)
  {
    StepOfRun(limit, run, i);
    ExecutedGrows(limit, run, i + 1, j);
    StepOfRun(limit, run, j);
  }
}
