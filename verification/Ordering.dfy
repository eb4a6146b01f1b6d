/** The recommended order of a batch: prerequisites first, then lowest risk, then fix id
    (recommend_order in services/sandbox_poc/planning.py), and the check of an order chosen by the DBA
    (services/sandbox_poc/batch.py). */
module Ordering {
  import opened Wrappers
  import opened Text

  const CHAINABLE := {"shared_preload_libraries"}

  /** The part of a risk review that ordering reads; `change` identifies an object change. */
  datatype Review = Review(
    id: string, risk: string, deps: seq<string>, setting: Option<string>, settings: seq<string>,
    catalog: bool, change: string)

  datatype Failure = DuplicateFixes | SameSetting | SameObjectChange | NotReady | NotAPermutation | DependencyViolated

  function Rank(risk: string): (r: nat) {
    if risk == "low" then 0 else if risk == "medium" then 1 else if risk == "high" then 2 else 3
  }

  // -------------------------------------------------------------------------
  // The order among ready fixes
  // -------------------------------------------------------------------------

  /** (rank, fix id), compared as a pair. */
  predicate Before(f: Review, g: Review) {
    Rank(f.risk) < Rank(g.risk) || (Rank(f.risk) == Rank(g.risk) && LessText(f.id, g.id))
  }

  lemma {:induction false} BeforeTotal(f: Review, g: Review)
    ensures f.id != g.id ==> Before(f, g) || Before(g, f)
    ensures !(Before(f, g) && Before(g, f))
  {
    LessTextTotal(f.id, g.id);
  }

  lemma {:induction false} BeforeTransitive(f: Review, g: Review, h: Review)
    requires Before(f, g) && Before(g, h)
    ensures Before(f, h)
  {
    if LessText(f.id, g.id) && LessText(g.id, h.id) {
      LessTextTransitive(f.id, g.id, h.id);
    }
  }

  // -------------------------------------------------------------------------
  // Orders
  // -------------------------------------------------------------------------

  function Ids(fixes: seq<Review>): (ids: set<string>) {
    set f | f in fixes :: f.id
  }

  predicate IsReady(f: Review, done: seq<Review>) {
    forall d | d in f.deps :: d in Ids(done)
  }

  predicate DistinctIds(fixes: seq<Review>) {
    forall i, j | 0 <= i < j < |fixes| :: fixes[i].id != fixes[j].id
  }

  /** Every prerequisite comes earlier. */
  predicate Respects(order: seq<Review>) {
    forall i | 0 <= i < |order| :: IsReady(order[i], order[..i])
  }

  ghost predicate Permutes(a: seq<Review>, b: seq<Review>) {
    multiset(a) == multiset(b)
  }

  /** At every position the least ready fix is taken. */
  ghost predicate Greedy(order: seq<Review>) {
    && Respects(order)
    && forall i, j :: 0 <= i < j < |order| && IsReady(order[j], order[..i]) ==> Before(order[i], order[j])
  }

  /** There is only one greedy order of a collection of fixes. */
  lemma {:induction false} GreedyUnique(a: seq<Review>, b: seq<Review>)
    requires Permutes(a, b) && Greedy(a) && Greedy(b) && DistinctIds(a)
    ensures a == b
  {
    SameLength(a, b);
    if a != b {
      assert a[..|a|] == a && b[..|b|] == b;
      var k := FirstDifference(a, b, |a|);
      SameChoice(a, b, k);
    }
  }

  lemma {:induction false} SameLength(a: seq<Review>, b: seq<Review>)
    requires Permutes(a, b)
    ensures |a| == |b|
  {
    assert |multiset(a)| == |a| && |multiset(b)| == |b|;
  }

  lemma {:induction false} FirstDifference(a: seq<Review>, b: seq<Review>, n: nat) returns (k: nat)
    requires n <= |a| == |b| && a[..n] != b[..n]
    ensures k < n && a[..k] == b[..k] && a[k] != b[k]
  {
    k := n - 1;
    if a[..k] != b[..k] {
      k := FirstDifference(a, b, k);
    } else {
      assert a[..n] == a[..k] + [a[k]] && b[..n] == b[..k] + [b[k]];
    }
  }

  lemma {:induction false} SameChoice(a: seq<Review>, b: seq<Review>, k: nat)
    requires Permutes(a, b) && Greedy(a) && Greedy(b) && DistinctIds(a) && k < |a| == |b| && a[..k] == b[..k]
    ensures a[k] == b[k]
  {
    TakesLeast(a, b, k);
    SameIds(a, b);
    TakesLeast(b, a, k);
    BeforeTotal(a[k], b[k]);
  }

  lemma {:induction false} TakesLeast(a: seq<Review>, b: seq<Review>, k: nat)
    requires Permutes(a, b) && Greedy(a) && Respects(b) && DistinctIds(a) && k < |a| == |b| && a[..k] == b[..k]
    ensures a[k] != b[k] ==> Before(a[k], b[k])
  {
    if a[k] != b[k] {
      var i := Later(a, b, k);
      assert IsReady(b[k], b[..k]);
    }
  }

  lemma {:induction false} SameIds(a: seq<Review>, b: seq<Review>)
    requires Permutes(a, b) && DistinctIds(a)
    ensures DistinctIds(b)
  {
    DistinctPermutation(a, b);
    forall i, j | 0 <= i < j < |b| ensures b[i].id != b[j].id {
      assert b[i] in multiset(b) && b[j] in multiset(b);
      assert b[i] in multiset(a) && b[j] in multiset(a);
    }
  }

  /** Where b's next fix stands in a. */
  lemma {:induction false} Later(a: seq<Review>, b: seq<Review>, k: nat) returns (i: nat)
    requires Permutes(a, b) && k < |a| == |b| && a[..k] == b[..k] && a[k] != b[k] && DistinctIds(a)
    ensures k < i < |a| && a[i] == b[k]
  {
    DistinctPermutation(a, b);
    assert b[k] in multiset(b) && b[k] in multiset(a);
    forall x | 0 <= x < k ensures a[x] == b[x] {
      assert a[..k][x] == b[..k][x];
    }
    i :| 0 <= i < |a| && a[i] == b[k];
  }

  lemma {:induction false} DistinctPermutation(a: seq<Review>, b: seq<Review>)
    requires Permutes(a, b) && DistinctIds(a)
    ensures forall i, j :: 0 <= i < j < |b| ==> b[i] != b[j]
  {
    forall i, j | 0 <= i < j < |b| ensures b[i] != b[j] {
      Twice(b, i, j);
      Once(a, b[i]);
    }
  }

  lemma {:induction false} Twice(b: seq<Review>, i: nat, j: nat)
    requires i < j < |b|
    ensures b[i] == b[j] ==> multiset(b)[b[i]] >= 2
  {
    assert b == b[..i] + [b[i]] + b[i + 1..j] + [b[j]] + b[j + 1..];
  }

  lemma {:induction false} Once(a: seq<Review>, x: Review)
    requires DistinctIds(a)
    ensures multiset(a)[x] <= 1
  {
    if a != [] {
      var rest := a[..|a| - 1];
      assert a == rest + [a[|a| - 1]];
      Once(rest, x);
      if a[|a| - 1] == x {
        assert x !in rest;
      }
    }
  }

  // -------------------------------------------------------------------------
  // What the checks before ordering establish
  // -------------------------------------------------------------------------

  predicate RepeatsNone(s: seq<string>) {
    forall i, j | 0 <= i < j < |s| :: s[i] != s[j]
  }

  /** The settings one fix changes, without the list that catalog fixes may extend in turn. */
  function Claims(f: Review): (settings: seq<string>) {
    if f.setting.None? then []
    else Unchained(if f.settings == [] then [f.setting.value] else f.settings, f.catalog)
  }

  function Unchained(settings: seq<string>, catalog: bool): (rest: seq<string>)
    ensures forall s :: s in rest <==> s in settings && !(s in CHAINABLE && catalog)
  {
    if settings == [] then []
    else (if settings[0] in CHAINABLE && catalog then [] else [settings[0]]) + Unchained(settings[1..], catalog)
  }

  function AllClaims(fixes: seq<Review>): (settings: seq<string>) {
    if fixes == [] then [] else Claims(fixes[0]) + AllClaims(fixes[1..])
  }

  function ObjectChanges(fixes: seq<Review>): (changes: seq<string>) {
    if fixes == [] then []
    else (if fixes[0].setting.None? then [fixes[0].change] else []) + ObjectChanges(fixes[1..])
  }

  lemma {:induction false} ClaimedLater(fixes: seq<Review>, k: nat, s: string)
    requires k < |fixes| && s in Claims(fixes[k])
    ensures s in AllClaims(fixes)
  {
    if k > 0 {
      ClaimedLater(fixes[1..], k - 1, s);
    }
  }

  lemma {:induction false} ClaimsSplit(fixes: seq<Review>, j: nat)
    requires j <= |fixes|
    ensures AllClaims(fixes) == AllClaims(fixes[..j]) + AllClaims(fixes[j..])
  {
    if j > 0 {
      ClaimsSplit(fixes[1..], j - 1);
      assert fixes[..j][1..] == fixes[1..][..j - 1] && fixes[1..][j - 1..] == fixes[j..];
    } else {
      assert fixes[..j] == [] && fixes[j..] == fixes;
    }
  }

  /** Once the combined list of settings has no repeats, no setting belongs to two fixes. */
  lemma {:induction false} ClaimedOnce(fixes: seq<Review>, i: nat, j: nat, s: string)
    requires RepeatsNone(AllClaims(fixes)) && i < j < |fixes| && s in Claims(fixes[i])
    ensures s !in Claims(fixes[j])
  {
    ClaimsSplit(fixes, j);
    ClaimedLater(fixes[..j], i, s);
    NotInBoth(AllClaims(fixes[..j]), AllClaims(fixes[j..]), s);
    NotClaimedLater(fixes[j..], 0, s);
  }

  lemma {:induction false} NotClaimedLater(fixes: seq<Review>, k: nat, s: string)
    requires k < |fixes| && s !in AllClaims(fixes)
    ensures s !in Claims(fixes[k])
  {
    if s in Claims(fixes[k]) {
      ClaimedLater(fixes, k, s);
    }
  }

  lemma {:induction false} NotInBoth(first: seq<string>, rest: seq<string>, s: string)
    requires RepeatsNone(first + rest) && s in first
    ensures s !in rest
  {
    var a :| 0 <= a < |first| && first[a] == s;
    forall b | 0 <= b < |rest| ensures rest[b] != s {
      NotBothListed(first, rest, a, b);
    }
  }

  lemma {:induction false} NotBothListed(first: seq<string>, rest: seq<string>, a: nat, b: nat)
    requires RepeatsNone(first + rest) && a < |first| && b < |rest|
    ensures first[a] != rest[b]
  {
    assert (first + rest)[a] == first[a] && (first + rest)[|first| + b] == rest[b];
  }

  // -------------------------------------------------------------------------
  // recommend_order
  // -------------------------------------------------------------------------

  /** The first fix of the ready ones in (rank, id) order. */
  method LeastReady(pending: seq<Review>, ordered: seq<Review>) returns (k: Option<nat>)
    requires DistinctIds(pending)
    ensures k.None? ==> forall f :: f in pending ==> !IsReady(f, ordered)
    ensures k.Some? ==>
              && k.value < |pending| && IsReady(pending[k.value], ordered)
              && forall j :: 0 <= j < |pending| && j != k.value && IsReady(pending[j], ordered) ==>
                Before(pending[k.value], pending[j])
  {
    k := None;
    for i := 0 to |pending|
      invariant k.None? ==> forall j :: 0 <= j < i ==> !IsReady(pending[j], ordered)
      invariant k.Some? ==>
                  && k.value < i && IsReady(pending[k.value], ordered)
                  && forall j :: 0 <= j < i && j != k.value && IsReady(pending[j], ordered) ==>
                    Before(pending[k.value], pending[j])
    {
      if IsReady(pending[i], ordered) && (k.None? || Before(pending[i], pending[k.value])) {
        if k.Some? {
          forall j | 0 <= j < i && j != k.value && IsReady(pending[j], ordered) ensures Before(pending[i], pending[j]) {
            BeforeTransitive(pending[i], pending[k.value], pending[j]);
          }
        }
        k := Some(i);
      } else if k.Some? {
        BeforeTotal(pending[k.value], pending[i]);
      }
    }
  }

  /** Each fix taken was the least of those still pending that were ready at that point. */
  ghost predicate GreedyAgainst(ordered: seq<Review>, pending: seq<Review>) {
    && Greedy(ordered)
    && forall i, f :: 0 <= i < |ordered| && f in pending && IsReady(f, ordered[..i]) ==> Before(ordered[i], f)
  }

  lemma {:induction false} TakeLeast(ordered: seq<Review>, pending: seq<Review>, k: nat)
    requires GreedyAgainst(ordered, pending) && k < |pending| && IsReady(pending[k], ordered)
    requires forall j :: 0 <= j < |pending| && j != k && IsReady(pending[j], ordered) ==> Before(pending[k], pending[j])
    ensures GreedyAgainst(ordered + [pending[k]], pending[..k] + pending[k + 1..])
  {
    var more := ordered + [pending[k]];
    var rest := pending[..k] + pending[k + 1..];
    forall i | 0 <= i <= |ordered| ensures more[..i] == ordered[..i] {
    }
    assert ordered[..|ordered|] == ordered;
    forall i, j | 0 <= i < j < |more| && IsReady(more[j], more[..i]) ensures Before(more[i], more[j]) {
      if j == |ordered| {
        assert pending[k] in pending;
      }
    }
    forall i, f | 0 <= i < |more| && f in rest && IsReady(f, more[..i]) ensures Before(more[i], f) {
      var j :| 0 <= j < |rest| && rest[j] == f;
      var at := if j < k then j else j + 1;
      assert pending[at] == f && at != k && f in pending;
      if i == |ordered| {
        assert more[..i] == ordered;
      }
    }
  }

  /** Where no pending fix is ready, no dependency-respecting order of all fixes exists. */
  lemma {:induction false} Stuck(fixes: seq<Review>, ordered: seq<Review>, pending: seq<Review>, p: seq<Review>)
    requires multiset(ordered) + multiset(pending) == multiset(fixes) && pending != []
    requires Permutes(p, fixes) && Respects(p)
    ensures exists f :: f in pending && IsReady(f, ordered)
  {
    assert pending[0] in multiset(pending) && pending[0] in multiset(p);
    assert p[..|p|] == p && pending[0] in p && pending[0] in pending;
    var m := FirstPending(p, pending, |p|);
    forall d | d in p[m].deps ensures d in Ids(ordered) {
      assert IsReady(p[m], p[..m]);
      var g :| g in p[..m] && g.id == d;
      assert g in multiset(p) && g in multiset(fixes) && g !in multiset(pending);
    }
    assert IsReady(p[m], ordered);
  }

  lemma {:induction false} NoOrder(fixes: seq<Review>, ordered: seq<Review>, pending: seq<Review>)
    requires multiset(ordered) + multiset(pending) == multiset(fixes) && pending != []
    requires forall f :: f in pending ==> !IsReady(f, ordered)
    ensures !exists p :: Permutes(p, fixes) && Respects(p)
  {
    forall p | Permutes(p, fixes) && Respects(p) ensures false {
      Stuck(fixes, ordered, pending, p);
    }
  }

  lemma {:induction false} FirstPending(p: seq<Review>, pending: seq<Review>, n: nat) returns (m: nat)
    requires n <= |p| && exists f :: f in p[..n] && f in pending
    ensures m < n && p[m] in pending && forall g :: g in p[..m] ==> g !in pending
  {
    if exists f :: f in p[..n - 1] && f in pending {
      m := FirstPending(p, pending, n - 1);
    } else {
      m := n - 1;
      assert p[..n] == p[..m] + [p[m]];
    }
  }

  lemma {:induction false} MoveOne(fixes: seq<Review>, ordered: seq<Review>, pending: seq<Review>, k: nat)
    requires k < |pending| && multiset(ordered) + multiset(pending) == multiset(fixes)
    ensures multiset(ordered + [pending[k]]) + multiset(pending[..k] + pending[k + 1..]) == multiset(fixes)
  {
    assert pending == pending[..k] + [pending[k]] + pending[k + 1..];
  }

  lemma {:induction false} RemoveOne(pending: seq<Review>, k: nat)
    requires k < |pending| && DistinctIds(pending)
    ensures DistinctIds(pending[..k] + pending[k + 1..])
  {
  }

  /** The loop's state: the fixes are split into those ordered greedily and those still pending. */
  ghost predicate Progress(fixes: seq<Review>, ordered: seq<Review>, pending: seq<Review>) {
    && multiset(ordered) + multiset(pending) == multiset(fixes)
    && DistinctIds(pending) && GreedyAgainst(ordered, pending)
  }

  lemma {:induction false} ProgressStep(fixes: seq<Review>, ordered: seq<Review>, pending: seq<Review>, k: nat)
    requires Progress(fixes, ordered, pending) && k < |pending| && IsReady(pending[k], ordered)
    requires forall j :: 0 <= j < |pending| && j != k && IsReady(pending[j], ordered) ==> Before(pending[k], pending[j])
    ensures Progress(fixes, ordered + [pending[k]], pending[..k] + pending[k + 1..])
  {
    TakeLeast(ordered, pending, k);
    MoveOne(fixes, ordered, pending, k);
    RemoveOne(pending, k);
  }

  /** recommend_order: a permutation with every prerequisite earlier that always takes the least ready
      fix; once the duplicate checks pass it fails exactly when no order respects the prerequisites. */
  method RecommendOrder(fixes: seq<Review>) returns (r: Result<seq<Review>, Failure>)
    ensures r == Err(DuplicateFixes) <==> !DistinctIds(fixes)
    ensures r == Err(SameSetting) <==> DistinctIds(fixes) && !RepeatsNone(AllClaims(fixes))
    ensures r == Err(SameObjectChange) <==>
              DistinctIds(fixes) && RepeatsNone(AllClaims(fixes)) && !RepeatsNone(ObjectChanges(fixes))
    ensures r.Ok? ==> Permutes(r.value, fixes) && Greedy(r.value)
    ensures r == Err(NotReady) ==> !exists p :: Permutes(p, fixes) && Respects(p)
    ensures r.Ok? || r.error in {DuplicateFixes, SameSetting, SameObjectChange, NotReady}
  {
    if !DistinctIds(fixes) {
      return Err(DuplicateFixes);
    }
    if !RepeatsNone(AllClaims(fixes)) {
      return Err(SameSetting);
    }
    if !RepeatsNone(ObjectChanges(fixes)) {
      return Err(SameObjectChange);
    }
    var ordered := OrderGreedily(fixes);
    r := if ordered.Some? then Ok(ordered.value) else Err(NotReady);
  }

  /** The loop: as long as fixes are pending, take the least ready one. */
  method OrderGreedily(fixes: seq<Review>) returns (r: Option<seq<Review>>)
    requires DistinctIds(fixes)
    ensures r.Some? ==> Permutes(r.value, fixes) && Greedy(r.value)
    ensures r.None? ==> !exists p :: Permutes(p, fixes) && Respects(p)
  {
    var ordered, pending := [], fixes;
    ProgressStarts(fixes);
    while pending != []
      invariant Progress(fixes, ordered, pending)
      decreases |pending|
    {
      var k := LeastReady(pending, ordered);
      if k.None? {
        NoOrder(fixes, ordered, pending);
        return None;
      }
      ProgressStep(fixes, ordered, pending, k.value);
      ordered := ordered + [pending[k.value]];
      pending := pending[..k.value] + pending[k.value + 1..];
    }
    ProgressEnds(fixes, ordered);
    r := Some(ordered);
  }

  lemma {:induction false} ProgressStarts(fixes: seq<Review>)
    requires DistinctIds(fixes)
    ensures Progress(fixes, [], fixes)
  {
  }

  lemma {:induction false} ProgressEnds(fixes: seq<Review>, ordered: seq<Review>)
    requires Progress(fixes, ordered, [])
    ensures Permutes(ordered, fixes) && Greedy(ordered)
  {
    assert multiset(ordered) + multiset([]) == multiset(ordered);
  }

  /** The recommendation does not depend on the order in which the fixes are given. */
  lemma {:induction false} InputOrderIrrelevant(fixes: seq<Review>, other: seq<Review>, a: seq<Review>, b: seq<Review>)
    requires Permutes(fixes, other) && DistinctIds(fixes)
    requires Permutes(a, fixes) && Greedy(a) && Permutes(b, other) && Greedy(b)
    ensures a == b
  {
    SameIds(fixes, a);
    GreedyUnique(a, b);
  }

  // -------------------------------------------------------------------------
  // An order chosen by the DBA
  // -------------------------------------------------------------------------

  function IdsOf(order: seq<Review>): (ids: seq<string>)
    ensures |ids| == |order| && forall i :: 0 <= i < |ids| ==> ids[i] == order[i].id
  {
    if order == [] then [] else IdsOf(order[..|order| - 1]) + [order[|order| - 1].id]
  }

  function ById(fixes: seq<Review>, id: string): (f: Review)
    requires id in Ids(fixes)
    ensures f in fixes && f.id == id
  {
    if fixes[0].id == id then fixes[0] else ById(fixes[1..], id)
  }

  lemma {:induction false} ByIdUnique(fixes: seq<Review>, f: Review)
    requires DistinctIds(fixes) && f in fixes
    ensures f.id in Ids(fixes) && ById(fixes, f.id) == f
  {
    var i :| 0 <= i < |fixes| && fixes[i] == f;
    var j :| 0 <= j < |fixes| && fixes[j] == ById(fixes, f.id);
    assert i < j ==> fixes[i].id != fixes[j].id;
    assert j < i ==> fixes[j].id != fixes[i].id;
  }

  function Texts(s: seq<string>): (all: set<string>) {
    set x | x in s
  }

  lemma {:induction false} CountTexts(s: seq<string>)
    ensures |Texts(s)| <= |s|
    ensures |Texts(s)| == |s| <==> RepeatsNone(s)
  {
    if s != [] {
      var n := |s| - 1;
      assert s == s[..n] + [s[n]];
      CountTexts(s[..n]);
      if s[n] in s[..n] {
        assert Texts(s) == Texts(s[..n]);
      } else {
        assert Texts(s) == Texts(s[..n]) + {s[n]};
        assert RepeatsNone(s) <==> RepeatsNone(s[..n]);
      }
    }
  }

  lemma {:induction false} IdsCount(fixes: seq<Review>)
    requires DistinctIds(fixes)
    ensures Texts(IdsOf(fixes)) == Ids(fixes) && |Ids(fixes)| == |fixes|
  {
    SameIdSets(fixes);
    CountTexts(IdsOf(fixes));
  }

  lemma {:induction false} SameIdSets(fixes: seq<Review>)
    ensures Texts(IdsOf(fixes)) == Ids(fixes)
  {
    forall x ensures x in Texts(IdsOf(fixes)) <==> x in Ids(fixes) {
      IdListed(fixes, x);
    }
  }

  lemma {:induction false} IdListed(fixes: seq<Review>, x: string)
    ensures x in IdsOf(fixes) <==> x in Ids(fixes)
  {
    if x in Ids(fixes) {
      var f :| f in fixes && f.id == x;
      var i :| 0 <= i < |fixes| && fixes[i] == f;
      assert IdsOf(fixes)[i] == x;
    }
  }

  /** Two collections without repeats that have the same members are permutations of each other. */
  lemma {:induction false} SameMembers(a: seq<Review>, b: seq<Review>)
    requires DistinctIds(a) && DistinctIds(b) && forall f :: f in a <==> f in b
    ensures Permutes(a, b)
  {
    forall x ensures multiset(a)[x] == multiset(b)[x] {
      Once(a, x);
      Once(b, x);
      assert x in multiset(a) <==> x in a;
      assert x in multiset(b) <==> x in b;
    }
  }

  /** The requested ids name every fix exactly once. */
  predicate NamesAll(fixes: seq<Review>, requested: seq<string>) {
    |requested| == |fixes| && Texts(requested) == Ids(fixes)
  }

  lemma {:induction false} NamedOrder(fixes: seq<Review>, requested: seq<string>, order: seq<Review>)
    requires DistinctIds(fixes) && IdsOf(order) == requested && forall f :: f in order ==> f in fixes
    ensures NamesAll(fixes, requested) <==> Permutes(order, fixes)
  {
    if NamesAll(fixes, requested) {
      IdsCount(fixes);
      CountTexts(requested);
      NamedIsPermutation(fixes, requested, order);
    }
    if Permutes(order, fixes) {
      PermutationNamesAll(fixes, requested, order);
    }
  }

  lemma {:induction false} PermutationNamesAll(fixes: seq<Review>, requested: seq<string>, order: seq<Review>)
    requires DistinctIds(fixes) && IdsOf(order) == requested && Permutes(order, fixes)
    ensures NamesAll(fixes, requested)
  {
    SameIds(fixes, order);
    SameLength(order, fixes);
    IdsCount(order);
    forall x ensures x in Ids(order) <==> x in Ids(fixes) {
      assert forall f :: f in order <==> f in multiset(order);
      assert forall f :: f in fixes <==> f in multiset(fixes);
    }
  }

  lemma {:induction false} NamedIsPermutation(fixes: seq<Review>, requested: seq<string>, order: seq<Review>)
    requires DistinctIds(fixes) && IdsOf(order) == requested && forall f :: f in order ==> f in fixes
    requires NamesAll(fixes, requested) && RepeatsNone(requested)
    ensures Permutes(order, fixes)
  {
    forall i, j | 0 <= i < j < |order| ensures order[i].id != order[j].id {
      assert requested[i] != requested[j];
    }
    forall f | f in fixes ensures f in order {
      assert f.id in Ids(fixes) && f.id in Texts(requested);
      var i :| 0 <= i < |requested| && requested[i] == f.id;
      ByIdUnique(fixes, f);
      ByIdUnique(fixes, order[i]);
    }
    SameMembers(order, fixes);
  }

  /** The requested-order check of run_batch: accepts exactly the permutations of the fixes in which every
      prerequisite comes earlier. */
  method CheckOrder(fixes: seq<Review>, requested: seq<string>) returns (r: Result<seq<Review>, Failure>)
    requires DistinctIds(fixes)
    ensures r.Ok? ==> Permutes(r.value, fixes) && Respects(r.value) && IdsOf(r.value) == requested
    ensures r.Err? ==> !exists p :: Permutes(p, fixes) && Respects(p) && IdsOf(p) == requested
    ensures r == Err(NotAPermutation) <==> !NamesAll(fixes, requested)
    ensures r.Ok? || r.error in {NotAPermutation, DependencyViolated}
  {
    if |requested| != |fixes| || Texts(requested) != Ids(fixes) {
      forall p | Permutes(p, fixes) && Respects(p) && IdsOf(p) == requested ensures false {
        PermutedMembers(fixes, p);
        NamedOrder(fixes, requested, p);
      }
      return Err(NotAPermutation);
    }
    var order: seq<Review> := [];
    var seen: set<string> := {};
    for i := 0 to |requested|
      invariant |order| == i && seen == Ids(order)
      invariant forall k :: 0 <= k < i ==> order[k].id == requested[k] && order[k] in fixes
      invariant Respects(order)
    {
      assert requested[i] in Texts(requested);
      var f := ById(fixes, requested[i]);
      if !(Texts(f.deps) <= seen) {
        forall p | Permutes(p, fixes) && Respects(p) && IdsOf(p) == requested ensures false {
          NextInOrder(fixes, requested, order, p);
        }
        return Err(DependencyViolated);
      }
      RespectsOneMore(order, f);
      seen := seen + {f.id};
      order := order + [f];
    }
    NamedOrder(fixes, requested, order);
    r := Ok(order);
  }

  /** Any permutation with these ids continues with the requested fix, ready exactly if it is ready here. */
  lemma {:induction false} NextInOrder(fixes: seq<Review>, requested: seq<string>, order: seq<Review>, p: seq<Review>)
    requires DistinctIds(fixes) && Permutes(p, fixes) && IdsOf(p) == requested && |order| < |requested|
    requires forall k :: 0 <= k < |order| ==> order[k].id == requested[k] && order[k] in fixes
    ensures requested[|order|] in Ids(fixes) && p[|order|] == ById(fixes, requested[|order|])
    ensures IsReady(p[|order|], p[..|order|]) ==> Texts(p[|order|].deps) <= Ids(order)
  {
    PrefixOf(fixes, requested, order, p);
    PermutedMembers(fixes, p);
    ByIdUnique(fixes, p[|order|]);
  }

  lemma {:induction false} RespectsOneMore(order: seq<Review>, f: Review)
    requires Respects(order) && Texts(f.deps) <= Ids(order)
    ensures Respects(order + [f]) && Ids(order + [f]) == Ids(order) + {f.id}
  {
    var more := order + [f];
    forall i | 0 <= i < |more| ensures IsReady(more[i], more[..i]) {
      if i < |order| {
        assert more[..i] == order[..i];
      } else {
        assert more[..i] == order;
        assert forall d :: d in f.deps ==> d in Texts(f.deps);
      }
    }
    assert Ids(more) == Ids(order) + {f.id} by {
      assert f in more;
      assert forall g :: g in order ==> g in more;
    }
  }

  lemma {:induction false} PermutedMembers(fixes: seq<Review>, p: seq<Review>)
    requires Permutes(p, fixes)
    ensures forall f :: f in p ==> f in fixes
  {
    forall f | f in p ensures f in fixes {
      assert f in multiset(p);
    }
  }

  lemma {:induction false} PrefixOf(fixes: seq<Review>, requested: seq<string>, order: seq<Review>, p: seq<Review>)
    requires DistinctIds(fixes) && Permutes(p, fixes) && IdsOf(p) == requested && |order| <= |requested|
    requires forall k :: 0 <= k < |order| ==> order[k].id == requested[k] && order[k] in fixes
    ensures p[..|order|] == order
  {
    PermutedMembers(fixes, p);
    forall k | 0 <= k < |order| ensures p[k] == order[k] {
      ByIdUnique(fixes, p[k]);
      ByIdUnique(fixes, order[k]);
    }
  }
}
