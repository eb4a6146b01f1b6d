/** The two catalog fixes that extend shared_preload_libraries, CIS 3.2 (pgaudit, which also sets pgaudit.log)
    and CIS 5.6 (passwordcheck), in one sandbox and in both orders. pgaudit.log has no row until pgaudit is
    loaded (services/sandbox_poc/catalog_fixes.py, services/sandbox_poc/batch.py). */
module PreloadPair {
  import opened Wrappers
  import opened Postgres
  import opened SettingFix
  import opened NameLists
  import opened PreloadList
  import opened Batch

  // -------------------------------------------------------------------------
  // A step that nothing interrupts
  // -------------------------------------------------------------------------

  /** The server shows the written text again, as pg_settings or as SHOW prints it. */
  predicate ReadsBack(cat: Catalogue, c: Change) {
    c.text.Some? ==>
      var row := cat.canon(c.param, c.text.value);
      c.text.value in {row, cat.shown(c.param, row)}
  }

  lemma {:induction false} ExpectationAt(e: Engine, w: World, cs: seq<Change>, n: string)
    requires NamesKnown(e, w) && forall c :: c in cs ==> c.text.Some?
    requires n in Expectation(e, w, cs)
    ensures if Touches(cs, n) then FixText(cs, n, None) == Some(Expectation(e, w, cs)[n])
            else n in e.names && Expectation(e, w, cs)[n] == w.server.running[n].setting
  {
    if cs != [] {
      var rest, last := cs[..|cs| - 1], cs[|cs| - 1];
      assert cs == rest + [last];
      if n != last.param {
        ExpectationAt(e, w, rest, n);
      }
    }
  }

  lemma {:induction false} FixTextIn(cs: seq<Change>, n: string)
    requires Touches(cs, n)
    ensures forall text :: FixText(cs, n, text) == FixText(cs, n, None)
    ensures Change(n, FixText(cs, n, None)) in cs
  {
    var rest, last := cs[..|cs| - 1], cs[|cs| - 1];
    assert cs == rest + [last];
    if n != last.param {
      FixTextIn(rest, n);
    }
  }

  lemma {:induction false} CleanServer(e: Engine, w: World, fix: Fix, cs: seq<Change>)
    requires ValidEngine(e) && Ready(e, w, fix)
    requires fix.OfCatalog? && Changes(e, w, fix) == Some(cs)
    ensures AfterApply(e, w, fix, CLEAN) == w.(server := AfterAll(e.cat, w.server, cs))
    ensures !Refuses(e.cat, Run(e.cat, w.server, ApplyScript(cs)))
    ensures Applied(e.cat, w.server, AfterAll(e.cat, w.server, cs), cs) && DistinctParams(cs)
    ensures ReloadOnly(e.cat, cs) || AllSettled(e.cat, w.server)
    ensures w.server.running.Keys <= AfterAll(e.cat, w.server, cs).running.Keys
    ensures forall c :: c in cs ==> c.text.Some?
  {
    ChangesSound(e, w, fix);
    DerivedSettles(e, w.server, fix, cs);
    FullyDriven(e, w.server, cs, CLEAN);
  }

  /** A derived step that nothing interrupts runs to the end and shows what it expects. */
  lemma {:induction false} CleanStep(e: Engine, w: World, fix: Fix, cs: seq<Change>)
    requires ValidEngine(e) && Ready(e, w, fix) && NamesKnown(e, w)
    requires fix.OfCatalog? && Changes(e, w, fix) == Some(cs)
    requires forall c :: c in cs ==> ReadsBack(e.cat, c) && c.param in AfterAll(e.cat, w.server, cs).running
    ensures Activates(e, w, fix, CLEAN)
  {
    CleanServer(e, w, fix, cs);
    CleanEffective(e, w, fix, cs, AfterAll(e.cat, w.server, cs));
  }

  lemma {:induction false} CleanEffective(e: Engine, w: World, fix: Fix, cs: seq<Change>, t: Server)
    requires NamesKnown(e, w) && Applied(e.cat, w.server, t, cs) && w.server.running.Keys <= t.running.Keys
    requires ReloadOnly(e.cat, cs) || AllSettled(e.cat, t)
    requires forall c :: c in cs ==> c.text.Some? && ReadsBack(e.cat, c) && c.param in t.running
    ensures Effective(e.cat, t, Expectation(e, w, cs))
  {
    forall n | n in Expectation(e, w, cs)
      ensures n in t.running
      ensures Expectation(e, w, cs)[n] in {t.running[n].setting, e.cat.shown(n, t.running[n].setting)}
    {
      ExpectedShows(e, w, fix, cs, t, n);
    }
  }

  lemma {:induction false} ExpectedShows(e: Engine, w: World, fix: Fix, cs: seq<Change>, t: Server, n: string)
    requires NamesKnown(e, w) && Applied(e.cat, w.server, t, cs) && w.server.running.Keys <= t.running.Keys
    requires ReloadOnly(e.cat, cs) || AllSettled(e.cat, t)
    requires forall c :: c in cs ==> c.text.Some? && ReadsBack(e.cat, c) && c.param in t.running
    requires n in Expectation(e, w, cs)
    ensures n in t.running
    ensures Expectation(e, w, cs)[n] in {t.running[n].setting, e.cat.shown(n, t.running[n].setting)}
  {
    ExpectationAt(e, w, cs, n);
    if Touches(cs, n) {
      FixTextIn(cs, n);
      assert Settled(e.cat, t, n);
    }
  }

  // -------------------------------------------------------------------------
  // One link
  // -------------------------------------------------------------------------

  /** The server runs with this list, and `library` can be appended to it. */
  ghost predicate Appendable(s: Server, items: seq<string>, library: string) {
    && PRELOAD in s.running && Split(s.running[PRELOAD].setting) == Some(items)
    && (forall i :: i in items ==> !NamesLibrary(i, library)) && WritableList(items + [library])
    && PreloadRollback(PriorRow(s, PRELOAD)).Ok?
  }

  lemma {:induction false} AppendedChange(s: Server, items: seq<string>, library: string)
    requires Appendable(s, items, library)
    ensures PreloadChange(s, Some(library)) == Some([Change(PRELOAD, Some(ListText(items + [library])))])
  {
  }

  /** The list after a step, and whether the next library can be appended to it. */
  lemma {:induction false} ListAfter(e: Engine, s: Server, t: Server, cs: seq<Change>, items: seq<string>)
    requires ValidEngine(e) && AllSettled(e.cat, t) && Applied(e.cat, s, t, cs) && DistinctParams(cs)
    requires WritableList(items) && Change(PRELOAD, Some(ListText(items))) in cs
    ensures Split(t.running[PRELOAD].setting) == Some(items) && PreloadRollback(PriorRow(t, PRELOAD)).Ok?
  {
    FixTextOf(cs, Change(PRELOAD, Some(ListText(items))), Last(s.auto, PRELOAD));
    assert Settled(e.cat, t, PRELOAD);
    SplitOfText(items);
    RollbackOfWrittenText(items);
  }

  // -------------------------------------------------------------------------
  // The pair
  // -------------------------------------------------------------------------

  const LIBRARIES := ["pgaudit", "passwordcheck"]

  /** pgaudit.log is defined by pgaudit, and a list loads pgaudit exactly when one of its items names it. */
  ghost predicate AuditLibrary(cat: Catalogue) {
    && AUDIT_LOG in cat.names && cat.library(AUDIT_LOG) == Some("pgaudit")
    && forall list :: Split(list).Some? ==>
         (cat.loads(list, "pgaudit") <==> exists i :: i in Split(list).value && NamesLibrary(i, "pgaudit"))
  }

  ghost predicate IsPair(e: Engine, audit: Fix, password: Fix) {
    && audit.OfCatalog? && password.OfCatalog? && audit.id != password.id
    && audit.control in e.catalogControls && password.control in e.catalogControls
    && audit.library == Some("pgaudit") && password.library == Some("passwordcheck") && password.extra.None?
    && audit.extra.Some? && audit.extra.value.param == AUDIT_LOG && audit.extra.value.text.Some?
    && ReadsBack(e.cat, audit.extra.value)
    && forall rows, objects :: e.offers(audit.control, rows, objects) && e.offers(password.control, rows, objects)
  }

  /** A settled source whose list names neither library and can take both, with no line of pgaudit.log. */
  ghost predicate BeforeBoth(e: Engine, w: World, items: seq<string>) {
    && AllSettled(e.cat, w.server) && NamesKnown(e, w)
    && Split(w.server.running[PRELOAD].setting) == Some(items) && PreloadRollback(PriorRow(w.server, PRELOAD)).Ok?
    && (forall i :: i in items ==> !NamesLibrary(i, "pgaudit") && !NamesLibrary(i, "passwordcheck") && ValidItem(i))
    && (forall a, b :: 0 <= a < b < |items| ==> items[a] != items[b]) && |items| <= 30
    && !HasLine(w.server, AUDIT_LOG)
  }

  lemma {:induction false} LibrariesDiffer()
    ensures !NamesLibrary("pgaudit", "passwordcheck") && !NamesLibrary("passwordcheck", "pgaudit")
    ensures NamesLibrary("pgaudit", "pgaudit") && NamesLibrary("passwordcheck", "passwordcheck")
  {
    NoSlash("passwordcheck");
    LibraryNamesItself("pgaudit");
    LibraryNamesItself("passwordcheck");
    assert "passwordcheck"[|"passwordcheck"| - 3..] == "eck";
  }

  lemma {:induction false} LibrariesValid()
    ensures ValidItem("pgaudit") && ValidItem("passwordcheck")
  {
  }

  /** The row of pgaudit.log exists exactly while the list names pgaudit. */
  lemma {:induction false} AuditRow(e: Engine, s: Server, items: seq<string>)
    requires AuditLibrary(e.cat) && AllSettled(e.cat, s) && Split(s.running[PRELOAD].setting) == Some(items)
    ensures AUDIT_LOG in s.running <==> exists i :: i in items && NamesLibrary(i, "pgaudit")
  {
  }

  /** Where a step of the pair starts: `done` are the libraries appended so far. */
  ghost predicate Between(e: Engine, w: World, items: seq<string>, done: seq<string>) {
    && AllSettled(e.cat, w.server) && NamesKnown(e, w)
    && Split(w.server.running[PRELOAD].setting) == Some(items + done)
    && PreloadRollback(PriorRow(w.server, PRELOAD)).Ok?
    && ("pgaudit" !in done ==> !HasLine(w.server, AUDIT_LOG))
  }

  predicate NextLibrary(done: seq<string>, library: string) {
    library in LIBRARIES && (done == [] || (done == ["pgaudit"] && library == "passwordcheck")
                             || (done == ["passwordcheck"] && library == "pgaudit"))
  }

  lemma {:induction false} NextIsWritable(e: Engine, w: World, items: seq<string>, done: seq<string>, library: string)
    requires BeforeBoth(e, w, items) && NextLibrary(done, library)
    ensures WritableList(items + done + [library])
    ensures forall i :: i in items + done ==> !NamesLibrary(i, library)
  {
    LibrariesDiffer();
    LibrariesValid();
    NextIsNew(items, done, library);
  }

  lemma {:induction false} NextIsNew(items: seq<string>, done: seq<string>, library: string)
    requires NextLibrary(done, library) && library != "" && "pgaudit" !in items && "passwordcheck" !in items
    requires forall a, b :: 0 <= a < b < |items| ==> items[a] != items[b]
    ensures var all := items + done + [library]; forall a, b :: 0 <= a < b < |all| ==> all[a] != all[b]
  {
    assert |"pgaudit"| != |"passwordcheck"|;
    AppendedDiffer(items, done + [library]);
    assert items + done + [library] == items + (done + [library]);
  }

  lemma {:induction false} AppendedDiffer(items: seq<string>, more: seq<string>)
    requires forall a, b :: 0 <= a < b < |items| ==> items[a] != items[b]
    requires forall a, b :: 0 <= a < b < |more| ==> more[a] != more[b]
    requires forall i :: i in items ==> i !in more
    ensures forall a, b :: 0 <= a < b < |items + more| ==> (items + more)[a] != (items + more)[b]
  {
    forall a, b | 0 <= a < b < |items + more| ensures (items + more)[a] != (items + more)[b] {
      if a < |items| <= b {
        assert items[a] in items && more[b - |items|] in more;
      }
    }
  }

  /** While pgaudit is not appended, pgaudit.log has no row, so the fix that sets it changes it too. */
  lemma {:induction false} AuditUnlisted(e: Engine, start: World, w: World, items: seq<string>, done: seq<string>)
    requires AuditLibrary(e.cat) && BeforeBoth(e, start, items) && Between(e, w, items, done)
    requires done == [] || done == ["pgaudit"] || done == ["passwordcheck"]
    ensures AUDIT_LOG in w.server.running <==> done == ["pgaudit"]
  {
    LibrariesDiffer();
    AuditRow(e, w.server, items + done);
    if done == ["pgaudit"] {
      assert (items + done)[|items|] == "pgaudit";
    }
  }

  /** The changes a step of the pair derives: the longer list and, for CIS 3.2, the text of pgaudit.log. */
  function PairChanges(items: seq<string>, fix: Fix): (cs: seq<Change>)
    requires fix.OfCatalog?
  {
    [Change(PRELOAD, Some(ListText(items)))] + if fix.extra.Some? then [fix.extra.value] else []
  }

  lemma {:induction false} PairDerives(
    e: Engine, start: World, w: World, items: seq<string>, done: seq<string>, audit: Fix, password: Fix, fix: Fix)
    requires ValidEngine(e) && AuditLibrary(e.cat) && IsPair(e, audit, password) && fix in {audit, password}
    requires BeforeBoth(e, start, items) && Between(e, w, items, done) && NextLibrary(done, fix.library.value)
    ensures Ready(e, w, fix)
    ensures Changes(e, w, fix) == Some(PairChanges(items + done + [fix.library.value], fix))
    ensures WritableList(items + done + [fix.library.value])
  {
    NextIsWritable(e, start, items, done, fix.library.value);
    AppendedChange(w.server, items + done, fix.library.value);
    AuditUnlisted(e, start, w, items, done);
    if fix == audit {
      AuditChange(w.server, items + done + ["pgaudit"], audit);
    }
  }

  lemma {:induction false} AuditChange(s: Server, list: seq<string>, audit: Fix)
    requires audit.OfCatalog? && audit.library == Some("pgaudit")
    requires audit.extra.Some? && audit.extra.value.param == AUDIT_LOG
    requires AUDIT_LOG !in s.running && !HasLine(s, AUDIT_LOG)
    requires PreloadChange(s, audit.library) == Some([Change(PRELOAD, Some(ListText(list)))])
    ensures ExtraChange(s, audit.library, audit.extra) == Some([audit.extra.value])
  {
  }

  lemma {:induction false} PairLeaves(e: Engine, s: Server, t: Server, list: seq<string>, fix: Fix)
    requires ValidEngine(e) && AuditLibrary(e.cat) && fix.OfCatalog? && WritableList(list)
    requires AllSettled(e.cat, s) && Applied(e.cat, s, t, PairChanges(list, fix))
    requires DistinctParams(PairChanges(list, fix))
    ensures Split(t.running[PRELOAD].setting) == Some(list) && PreloadRollback(PriorRow(t, PRELOAD)).Ok?
    ensures AUDIT_LOG in t.running <==> exists i :: i in list && NamesLibrary(i, "pgaudit")
    ensures fix.extra.Some? && fix.extra.value.param == AUDIT_LOG ==> Last(t.auto, AUDIT_LOG) == fix.extra.value.text
    ensures fix.extra.None? ==> Last(t.auto, AUDIT_LOG) == Last(s.auto, AUDIT_LOG)
  {
    assert PairChanges(list, fix)[0] in PairChanges(list, fix);
    ListAfter(e, s, t, PairChanges(list, fix), list);
    AuditRow(e, t, list);
    PairTexts(list, fix, Last(s.auto, AUDIT_LOG));
  }

  lemma {:induction false} PairTexts(list: seq<string>, fix: Fix, text: Option<string>)
    requires fix.OfCatalog? && DistinctParams(PairChanges(list, fix))
    ensures fix.extra.Some? && fix.extra.value.param == AUDIT_LOG ==>
              FixText(PairChanges(list, fix), AUDIT_LOG, text) == fix.extra.value.text
    ensures fix.extra.None? ==> FixText(PairChanges(list, fix), AUDIT_LOG, text) == text
  {
    var cs := PairChanges(list, fix);
    if fix.extra.Some? {
      assert cs[1] in cs;
      FixTextOf(cs, cs[1], text);
    } else {
      FixTextUntouched(cs, AUDIT_LOG, text);
    }
  }

  /** One step of the pair. */
  lemma {:induction false} PairStep(
    e: Engine, start: World, w: World, items: seq<string>, done: seq<string>, audit: Fix, password: Fix, fix: Fix)
    requires ValidEngine(e) && AuditLibrary(e.cat) && IsPair(e, audit, password) && fix in {audit, password}
    requires BeforeBoth(e, start, items) && Between(e, w, items, done) && NextLibrary(done, fix.library.value)
    ensures Ready(e, w, fix) && Changes(e, w, fix).Some? && Activates(e, w, fix, CLEAN)
    ensures Between(e, AfterApply(e, w, fix, CLEAN), items, done + [fix.library.value])
    ensures var t := AfterApply(e, w, fix, CLEAN).server;
            Last(t.auto, AUDIT_LOG) == if fix == audit then audit.extra.value.text else Last(w.server.auto, AUDIT_LOG)
  {
    var list := items + done + [fix.library.value];
    var cs := PairChanges(list, fix);
    PairDerives(e, start, w, items, done, audit, password, fix);
    CleanServer(e, w, fix, cs);
    var t := AfterAll(e.cat, w.server, cs);
    PairLeaves(e, w.server, t, list, fix);
    PairReadsBack(e, t, list, audit, password, fix);
    CleanStep(e, w, fix, cs);
    PairContinues(e, w, t, items, done, audit, password, fix);
  }

  lemma {:induction false} PairReadsBack(e: Engine, t: Server, list: seq<string>, audit: Fix, password: Fix, fix: Fix)
    requires ValidEngine(e) && IsPair(e, audit, password) && fix in {audit, password}
    requires PRELOAD in t.running && fix.library.value in list
    requires AUDIT_LOG in t.running <==> exists i :: i in list && NamesLibrary(i, "pgaudit")
    ensures forall c :: c in PairChanges(list, fix) ==> ReadsBack(e.cat, c) && c.param in t.running
  {
    if fix == audit {
      LibrariesDiffer();
      assert NamesLibrary("pgaudit", "pgaudit") && "pgaudit" in list;
      assert AUDIT_LOG in t.running;
    }
    assert PairChanges(list, fix)[0] == Change(PRELOAD, Some(ListText(list)));
    assert ReadsBack(e.cat, Change(PRELOAD, Some(ListText(list))));
  }

  lemma {:induction false} PairContinues(
    e: Engine, w: World, t: Server, items: seq<string>, done: seq<string>, audit: Fix, password: Fix, fix: Fix)
    requires IsPair(e, audit, password) && fix in {audit, password} && Between(e, w, items, done)
    requires AllSettled(e.cat, t) && t.conf == w.server.conf && w.server.running.Keys <= t.running.Keys
    requires Split(t.running[PRELOAD].setting) == Some(items + done + [fix.library.value])
    requires PreloadRollback(PriorRow(t, PRELOAD)).Ok?
    requires fix.extra.None? ==> Last(t.auto, AUDIT_LOG) == Last(w.server.auto, AUDIT_LOG)
    ensures Between(e, w.(server := t), items, done + [fix.library.value])
  {
    assert items + done + [fix.library.value] == items + (done + [fix.library.value]);
  }

  /** A completed step from one world to the next. */
  ghost predicate Completes(e: Engine, w: World, fix: Fix, next: World) {
    Ready(e, w, fix) && NamesKnown(e, w) && Activates(e, w, fix, CLEAN) && next == AfterApply(e, w, fix, CLEAN)
  }

  /** The last server's list has both libraries, in the order of the steps, and pgaudit.log its text. */
  ghost predicate BothListed(s: Server, items: seq<string>, audit: Fix, first: Fix, second: Fix)
    requires audit.OfCatalog? && audit.extra.Some? && first.OfCatalog? && second.OfCatalog?
    requires first.library.Some? && second.library.Some?
  {
    && PRELOAD in s.running
    && Split(s.running[PRELOAD].setting) == Some(items + [first.library.value, second.library.value])
    && AUDIT_LOG in s.running && Last(s.auto, AUDIT_LOG) == audit.extra.value.text
  }

  /** In either order: both steps complete, the second one's list keeps the first one's library, pgaudit.log
      appears with the policy's text, and the recorded rollbacks in reverse order restore the start exactly:
      pgaudit.log has no row and no line again. */
  lemma {:induction false} BothOrders(
    e: Engine, w: World, w1: World, w2: World, items: seq<string>, audit: Fix, password: Fix, first: Fix, second: Fix)
    requires ValidEngine(e) && AuditLibrary(e.cat) && IsPair(e, audit, password) && BeforeBoth(e, w, items)
    requires (first == audit && second == password) || (first == password && second == audit)
    requires w1 == AfterApply(e, w, first, CLEAN) && w2 == AfterApply(e, w1, second, CLEAN)
    ensures AUDIT_LOG !in w.server.running && !HasLine(w.server, AUDIT_LOG)
    ensures Ready(e, w, second) && Completes(e, w, first, w1) && Completes(e, w1, second, w2)
    ensures BothListed(w2.server, items, audit, first, second)
    ensures UndoneBoth(e, w, w1, w2, first, second)
  {
    StartsBetween(e, w, items);
    PairStep(e, w, w, items, [], audit, password, first);
    PairStep(e, w, w, items, [], audit, password, second);
    AuditUnlisted(e, w, w, items, []);
    assert [] + [first.library.value] == [first.library.value];
    SecondStep(e, w, w1, w2, items, audit, password, first, second);
    RollBackBoth(e, w, w1, w2, first, second);
  }

  lemma {:induction false} SecondStep(
    e: Engine, w: World, w1: World, w2: World, items: seq<string>, audit: Fix, password: Fix, first: Fix, second: Fix)
    requires ValidEngine(e) && AuditLibrary(e.cat) && IsPair(e, audit, password) && BeforeBoth(e, w, items)
    requires (first == audit && second == password) || (first == password && second == audit)
    requires Between(e, w1, items, [first.library.value]) && w2 == AfterApply(e, w1, second, CLEAN)
    requires first == audit ==> Last(w1.server.auto, AUDIT_LOG) == audit.extra.value.text
    ensures Completes(e, w1, second, w2) && Changes(e, w1, second).Some?
    ensures BothListed(w2.server, items, audit, first, second)
  {
    PairStep(e, w, w1, items, [first.library.value], audit, password, second);
    ListedBoth(e, w2, items, audit, first, second);
  }

  lemma {:induction false} ListedBoth(e: Engine, w: World, items: seq<string>, audit: Fix, first: Fix, second: Fix)
    requires AuditLibrary(e.cat) && audit.OfCatalog? && audit.extra.Some? && first.OfCatalog? && second.OfCatalog?
    requires first.library.Some? && second.library.Some? && "pgaudit" in {first.library.value, second.library.value}
    requires Between(e, w, items, [first.library.value] + [second.library.value])
    requires Last(w.server.auto, AUDIT_LOG) == audit.extra.value.text
    ensures BothListed(w.server, items, audit, first, second)
  {
    var both := [first.library.value] + [second.library.value];
    AuditListed(e, w, items, both);
    assert both == [first.library.value, second.library.value];
  }

  lemma {:induction false} StartsBetween(e: Engine, w: World, items: seq<string>)
    requires BeforeBoth(e, w, items)
    ensures Between(e, w, items, [])
  {
    assert items + [] == items;
  }

  lemma {:induction false} AuditListed(e: Engine, w: World, items: seq<string>, done: seq<string>)
    requires AuditLibrary(e.cat) && Between(e, w, items, done) && "pgaudit" in done
    ensures AUDIT_LOG in w.server.running
  {
    LibrariesDiffer();
    AuditRow(e, w.server, items + done);
    assert "pgaudit" in items + done;
  }

  /** The rollbacks recorded by two steps, run in reverse order, restore the start. */
  ghost predicate UndoneBoth(e: Engine, w: World, w1: World, w2: World, first: Fix, second: Fix)
    requires first.OfCatalog? && second.OfCatalog?
  {
    && Changes(e, w, first).Some? && Derivable(w.server, Changes(e, w, first).value)
    && Changes(e, w1, second).Some? && Derivable(w1.server, Changes(e, w1, second).value)
    && var back := AfterRollback(e, w2, second, UndoRecord(e, w1, second));
       SameWorld(w1, back) && SameWorld(w, AfterRollback(e, back, first, UndoRecord(e, w, first)))
  }

  lemma {:induction false} RollBackBoth(e: Engine, w: World, w1: World, w2: World, first: Fix, second: Fix)
    requires ValidEngine(e) && first.OfCatalog? && second.OfCatalog?
    requires Ready(e, w, first) && Changes(e, w, first).Some? && w1 == AfterApply(e, w, first, CLEAN)
    requires Ready(e, w1, second) && Changes(e, w1, second).Some? && w2 == AfterApply(e, w1, second, CLEAN)
    ensures UndoneBoth(e, w, w1, w2, first, second)
  {
    ApplyReached(e, w, first, CLEAN);
    ApplyReached(e, w1, second, CLEAN);
    UndoRestores(e, w1, w2, second);
    var back := AfterRollback(e, w2, second, UndoRecord(e, w1, second));
    ReachedSame(e, w, w1, back, first);
    UndoRestores(e, w, back, first);
  }
}
