/** What the checks before a batch establish for the batch itself: the fixes that recommend_order and
    object_conflicts let through do not get in each other's way (services/sandbox_poc/planning.py,
    services/sandbox_poc/batch.py). */
module BatchPlanning {
  import opened Wrappers
  import Postgres
  import opened Batch
  import opened Ordering
  import ObjectFixes

  /** The reviewed value of a setting, where it comes from, or that only a catalog fix computes it. */
  datatype Policy = Reviewed(value: string) | FromProfile | Computed

  type Policies = map<string, Policy>

  datatype ScopeError = NoReviewedPolicy | NoProfileValue

  /** The part of fix_scope that decides which settings a plain fix may change; `profile` holds the values
      of the approved policy profile. */
  function FixScope(policies: Policies, profile: map<string, string>, setting: string)
    : (r: Result<string, ScopeError>)
  {
    if setting !in policies then Err(NoReviewedPolicy)
    else
      match policies[setting]
      case Computed => Err(NoReviewedPolicy)
      case Reviewed(value) => Ok(value)
      case FromProfile => if setting in profile then Ok(profile[setting]) else Err(NoProfileValue)
  }

  /** The reviewed policy table: the preload list is computed, and the catalog links name the other settings
      a catalog fix may change. */
  predicate ReviewedTable(policies: Policies) {
    Postgres.PRELOAD in policies && policies[Postgres.PRELOAD] == Computed
  }

  const LINKED := {AUDIT_LOG, "ssl_ciphers"}

  /** The risk review of a fix names its id and every setting it owns; a plain fix comes from fix_scope. */
  ghost predicate Reviews(policies: Policies, profile: map<string, string>, r: Review, fix: Fix) {
    && r.id == fix.id
    && (r.setting.None? <==> fix.OfObject?)
    && match fix
       case OfSetting(_, _, change, _) =>
         && r.settings == [] && r.setting == Some(change.param) && !r.catalog
         && FixScope(policies, profile, change.param).Ok?
       case OfCatalog(_, _, _, extra) =>
         r.catalog && (extra.Some? ==> extra.value.param in r.settings && extra.value.param in LINKED)
       case OfObject(_, _) => true
  }

  /** No fix owns the chainable list: fix_scope refuses a computed setting, and the catalog links add other
      settings only. */
  lemma {:induction false} OwnIsNotTheList(policies: Policies, profile: map<string, string>, r: Review, fix: Fix)
    requires ReviewedTable(policies) && Reviews(policies, profile, r, fix) && OwnParam(fix).Some?
    ensures OwnParam(fix).value != Postgres.PRELOAD && OwnParam(fix).value in Claims(r)
  {
  }

  /** Reviews that pass recommend_order's checks and object changes that pass object_conflicts belong to
      fixes that are independent of each other. */
  lemma {:induction false} ChecksMakeIndependent(
    policies: Policies, profile: map<string, string>, fixes: seq<Fix>, reviews: seq<Review>)
    requires ReviewedTable(policies) && |reviews| == |fixes|
    requires forall i :: 0 <= i < |fixes| ==> Reviews(policies, profile, reviews[i], fixes[i])
    requires DistinctIds(reviews) && RepeatsNone(AllClaims(reviews))
    requires forall i, j :: 0 <= i < j < |fixes| && fixes[i].OfObject? && fixes[j].OfObject? ==>
               ObjectFixes.Attributes(fixes[i].target) !! ObjectFixes.Attributes(fixes[j].target)
    ensures AllIndependent(fixes)
  {
    forall i, j | 0 <= i < |fixes| && 0 <= j < |fixes| && i != j ensures Independent(fixes[i], fixes[j]) {
      var a, b := if i < j then i else j, if i < j then j else i;
      assert reviews[a].id != reviews[b].id;
      OwnDiffer(policies, profile, fixes, reviews, a, b);
    }
  }

  lemma {:induction false} OwnDiffer(
    policies: Policies, profile: map<string, string>, fixes: seq<Fix>, reviews: seq<Review>, a: nat, b: nat)
    requires ReviewedTable(policies) && |reviews| == |fixes| && a < b < |fixes| && RepeatsNone(AllClaims(reviews))
    requires Reviews(policies, profile, reviews[a], fixes[a]) && Reviews(policies, profile, reviews[b], fixes[b])
    ensures OwnParam(fixes[a]).Some? ==> OwnParam(fixes[a]) != OwnParam(fixes[b])
  {
    if OwnParam(fixes[a]).Some? {
      OwnIsNotTheList(policies, profile, reviews[a], fixes[a]);
      ClaimedOnce(reviews, a, b, OwnParam(fixes[a]).value);
      if OwnParam(fixes[b]).Some? {
        OwnIsNotTheList(policies, profile, reviews[b], fixes[b]);
      }
    }
  }

  /** Reordering a batch keeps its fixes independent. */
  lemma {:induction false} OrderKeepsIndependent(fixes: seq<Fix>, order: seq<Fix>)
    requires AllIndependent(fixes) && multiset(order) == multiset(fixes)
    ensures AllIndependent(order)
  {
    forall i, j | 0 <= i < |order| && 0 <= j < |order| && i != j ensures Independent(order[i], order[j]) {
      assert order[i] in multiset(order) && order[j] in multiset(order);
      var a :| 0 <= a < |fixes| && fixes[a] == order[i];
      var b :| 0 <= b < |fixes| && fixes[b] == order[j];
      TwicePresent(order, i, j);
      PresentOnce(fixes, order[i]);
      assert a != b;
    }
  }

  lemma {:induction false} TwicePresent(order: seq<Fix>, i: nat, j: nat)
    requires i < |order| && j < |order| && i != j
    ensures order[i] == order[j] ==> multiset(order)[order[i]] >= 2
  {
    var a, b := if i < j then i else j, if i < j then j else i;
    assert order == order[..b] + order[b..];
    assert order[..b][a] in order[..b] && order[b..][0] in order[b..];
  }

  lemma {:induction false} PresentOnce(fixes: seq<Fix>, f: Fix)
    requires AllIndependent(fixes)
    ensures multiset(fixes)[f] <= 1
  {
    if fixes != [] {
      var n := |fixes| - 1;
      assert fixes == fixes[..n] + [fixes[n]];
      assert AllIndependent(fixes[..n]);
      PresentOnce(fixes[..n], f);
      forall k | 0 <= k < n ensures fixes[k] != fixes[n] {
        assert Independent(fixes[k], fixes[n]);
      }
      assert fixes[n] !in fixes[..n];
    }
  }
}
