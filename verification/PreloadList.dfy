/** Chained fixes of shared_preload_libraries: each appends one library to the list the previous one
    left (services/sandbox_poc/catalog_fixes.py). */
module PreloadList {
  import opened Wrappers
  import opened Evidence
  import opened Postgres
  import opened SettingFix
  import opened NameLists

  const CIS_FORMS := {"$libdir/pgaudit", "pgaudit.so", "$libdir/pgaudit.so", "$libdir/passwordcheck"}

  /** A fix this evidence does not allow (CatalogFixRefused). */
  datatype Refused = Unparseable | UnsupportedList | UnsupportedPrior

  /** split_preload_list; the empty value is the empty list. */
  function Split(value: string): (items: Option<seq<string>>) {
    if SkipSpaces(value) == "" then Some([]) else Items(value)
  }

  /** The part of a path after its last slash. */
  function BaseName(path: string): (name: string) {
    if '/' !in path then path
    else if path[|path| - 1] == '/' then ""
    else BaseName(path[..|path| - 1]) + [path[|path| - 1]]
  }

  predicate NamesLibrary(item: string, library: string) {
    if library == "pgaudit" then
      var last := BaseName(item);
      (if |last| >= 3 && last[|last| - 3..] == ".so" then last[..|last| - 3] else last) == "pgaudit"
    else if library == "passwordcheck" then item in {"passwordcheck", "$libdir/passwordcheck"}
    else false
  }

  /** preload_library_error is None. */
  predicate ValidItem(item: string) {
    (Plain(item) && |item| <= 63) || item in CIS_FORMS
  }

  /** A list the set_config_list template accepts. */
  predicate WritableList(items: seq<string>) {
    && 1 <= |items| <= 32
    && (forall i :: i in items ==> ValidItem(i))
    && (forall a, b :: 0 <= a < b < |items| ==> items[a] != items[b])
  }

  /** appended_preload: the current items in order plus the library, and whether that changed them. */
  function Appended(current: string, library: string): (r: Result<(seq<string>, bool), Refused>) {
    match Split(current)
    case None => Err(Unparseable)
    case Some(items) =>
      if exists i | i in items :: NamesLibrary(i, library) then Ok((items, false)) else Ok((items + [library], true))
  }

  /** preload_rollback: the same list again when it came from postgresql.auto.conf in the form ALTER
      SYSTEM writes, otherwise RESET. */
  function PreloadRollback(prior: Prior): (r: Result<Action, Refused>) {
    if prior.sourcefile != Some(Auto) then Ok(ResetConfig(PRELOAD))
    else
      match Split(prior.value)
      case None => Err(UnsupportedPrior)
      case Some(items) =>
        if items == [] || ListText(items) != prior.value || exists i | i in items :: !ValidItem(i)
        then Err(UnsupportedPrior)
        else Ok(SetConfigList(PRELOAD, items))
  }

  /** A derived preload change: the new text and the rollback recorded before any SQL runs. */
  datatype ListChange = ListChange(items: seq<string>, text: string, rollback: Action)

  /** catalog_fix_scope's preload part with _list_change: None when the library is already listed. */
  function Derive(prior: Prior, library: string): (r: Result<Option<ListChange>, Refused>) {
    match Appended(prior.value, library)
    case Err(e) => Err(e)
    case Ok((items, changed)) =>
      if !changed then Ok(None)
      else if !WritableList(items) then Err(UnsupportedList)
      else
        match PreloadRollback(prior)
        case Err(e) => Err(e)
        case Ok(action) => Ok(Some(ListChange(items, ListText(items), action)))
  }

  // -------------------------------------------------------------------------
  // One link of a chain
  // -------------------------------------------------------------------------

  lemma {:induction false} NoSlash(path: string)
    requires '/' !in path
    ensures BaseName(path) == path
  {
  }

  /** A library is counted as itself, so appending it never repeats an item. */
  lemma {:induction false} LibraryNamesItself(library: string)
    requires library in {"pgaudit", "passwordcheck"}
    ensures NamesLibrary(library, library)
  {
    if library == "pgaudit" {
      NoSlash(library);
      assert library[|library| - 3..] == "dit";
    }
  }

  lemma {:induction false} PrintedNotBlank(items: seq<string>)
    requires items != []
    ensures SkipSpaces(ListText(items)) != ""
  {
    var head := Printed(items[0], false);
    assert head != "" && head[0] != ' ';
    assert ListText(items)[0] == head[0];
  }

  /** Reading back the text a list change writes gives the list. */
  lemma {:induction false} SplitOfText(items: seq<string>)
    requires items != []
    ensures Split(ListText(items)) == Some(items)
  {
    RoundTrip(items, false);
    PrintedNotBlank(items);
  }

  /** Each derived list is the previous list plus exactly one library: no repeats, and the previous
      list is its prefix. */
  lemma {:induction false} DerivedList(prior: Prior, library: string)
    requires library in {"pgaudit", "passwordcheck"}
    requires Derive(prior, library).Ok? && Derive(prior, library).value.Some?
    ensures var c := Derive(prior, library).value.value;
            && Split(prior.value).Some? && c.items == Split(prior.value).value + [library]
            && library !in Split(prior.value).value
            && WritableList(c.items)
            && Split(c.text) == Some(c.items) && c.text != prior.value
  {
    var c := Derive(prior, library).value.value;
    LibraryNamesItself(library);
    SplitOfText(c.items);
  }

  /** preload_rollback never refuses the text an earlier link wrote, and renders it unchanged. */
  lemma {:induction false} RollbackOfWrittenText(items: seq<string>)
    requires WritableList(items)
    ensures PreloadRollback(Prior(ListText(items), Some(Auto))) == Ok(SetConfigList(PRELOAD, items))
    ensures RenderAction(SetConfigList(PRELOAD, items)) == RenderAction(SetConfig(PRELOAD, ListText(items)))
  {
    SplitOfText(items);
  }

  /** A rollback that is not refused writes back exactly the text of the prior row. */
  lemma {:induction false} RollbackIsExact(prior: Prior)
    requires PreloadRollback(prior).Ok?
    ensures RenderAction(PreloadRollback(prior).value)
         == RenderAction(DeriveRollback(prior, SetConfig(PRELOAD, "")).value)
  {
  }

  // -------------------------------------------------------------------------
  // Chains
  // -------------------------------------------------------------------------

  ghost predicate Link(prior: Prior, library: string, next: Prior) {
    && library in {"pgaudit", "passwordcheck"}
    && Derive(prior, library).Ok? && Derive(prior, library).value.Some?
    && next == Prior(Derive(prior, library).value.value.text, Some(Auto))
  }

  /** The rows a chain of list fixes leaves, the first one being the original. */
  ghost predicate Chain(rows: seq<Prior>, libraries: seq<string>) {
    && |rows| == |libraries| + 1
    && (forall i :: 0 <= i < |libraries| ==> Link(rows[i], libraries[i], rows[i + 1]))
  }

  /** The text postgresql.auto.conf holds for a row. */
  function AutoText(row: Prior): (t: Option<string>) {
    if row.sourcefile == Some(Auto) then Some(row.value) else None
  }

  /** The rollback recorded by link i. */
  ghost function Recorded(rows: seq<Prior>, libraries: seq<string>, i: nat): (a: Action)
    requires Chain(rows, libraries) && i < |libraries|
  {
    assert Link(rows[i], libraries[i], rows[i + 1]);
    Derive(rows[i], libraries[i]).value.value.rollback
  }

  /** What running one rollback action leaves in postgresql.auto.conf for the list. */
  function Undone(action: Action): (t: Option<string>) {
    match action
    case SetConfig(_, value) => Some(value)
    case SetConfigList(_, values) => Some(ListText(values))
    case ResetConfig(_) => None
  }

  lemma {:induction false} UndoesLink(rows: seq<Prior>, libraries: seq<string>, i: nat)
    requires Chain(rows, libraries) && i < |libraries|
    ensures Undone(Recorded(rows, libraries, i)) == AutoText(rows[i])
    ensures Recorded(rows, libraries, i).param == PRELOAD
  {
    assert Link(rows[i], libraries[i], rows[i + 1]);
  }

  lemma {:induction false} LinkGrows(prior: Prior, library: string, next: Prior)
    requires Link(prior, library, next)
    ensures Split(prior.value).Some? && Split(next.value) == Some(Split(prior.value).value + [library])
  {
    DerivedList(prior, library);
  }

  lemma {:induction false} ListsGrow(lists: seq<seq<string>>, libraries: seq<string>, i: nat, j: nat)
    requires |lists| == |libraries| + 1 && i <= j <= |libraries|
    requires forall k :: 0 <= k < |libraries| ==> lists[k + 1] == lists[k] + [libraries[k]]
    ensures lists[j] == lists[i] + libraries[i..j]
  {
    if i < j {
      ListsGrow(lists, libraries, i, j - 1);
      assert libraries[i..j] == libraries[i..j - 1] + [libraries[j - 1]];
    }
  }

  function Listed(row: Prior): (items: seq<string>) {
    if Split(row.value).Some? then Split(row.value).value else []
  }

  /** Every later list extends every earlier one by the libraries between them. */
  lemma {:induction false} ChainGrows(rows: seq<Prior>, libraries: seq<string>, i: nat, j: nat)
    requires Chain(rows, libraries) && i <= j <= |libraries|
    ensures Listed(rows[j]) == Listed(rows[i]) + libraries[i..j]
  {
    var lists := seq(|rows|, k requires 0 <= k < |rows| => Listed(rows[k]));
    forall k | 0 <= k < |libraries| ensures lists[k + 1] == lists[k] + [libraries[k]] {
      assert Link(rows[k], libraries[k], rows[k + 1]);
      LinkGrows(rows[k], libraries[k], rows[k + 1]);
    }
    ListsGrow(lists, libraries, i, j);
  }

  lemma {:induction false} ChainTextsDiffer(rows: seq<Prior>, libraries: seq<string>, i: nat, j: nat)
    requires Chain(rows, libraries) && i < j <= |libraries|
    ensures rows[i].value != rows[j].value
  {
    ChainGrows(rows, libraries, i, j);
    assert |libraries[i..j]| > 0;
  }

  /** Running recorded rollbacks one after another on a server. */
  ghost function AfterRollbacks(
    cat: Catalogue, s: Server, rows: seq<Prior>, libraries: seq<string>, order: seq<nat>): (t: Server)
    requires Chain(rows, libraries) && forall k :: 0 <= k < |order| ==> order[k] < |libraries|
  {
    if order == [] then s
    else
      Run(cat, AfterRollbacks(cat, s, rows, libraries, order[..|order| - 1]),
          RenderAction(Recorded(rows, libraries, order[|order| - 1])))
  }

  lemma {:induction false} LastRollbackDecides(
    cat: Catalogue, s: Server, rows: seq<Prior>, libraries: seq<string>, order: seq<nat>)
    requires Chain(rows, libraries) && forall k :: 0 <= k < |order| ==> order[k] < |libraries|
    requires UniqueNames(s.auto)
    ensures var t := AfterRollbacks(cat, s, rows, libraries, order);
            && UniqueNames(t.auto)
            && (order != [] ==> Last(t.auto, PRELOAD) == AutoText(rows[order[|order| - 1]]))
  {
    if order != [] {
      LastRollbackDecides(cat, s, rows, libraries, order[..|order| - 1]);
      var before := AfterRollbacks(cat, s, rows, libraries, order[..|order| - 1]);
      UndoesLink(rows, libraries, order[|order| - 1]);
      OneRollback(cat, before, Recorded(rows, libraries, order[|order| - 1]));
    }
  }

  lemma {:induction false} OneRollback(cat: Catalogue, s: Server, action: Action)
    requires UniqueNames(s.auto) && action.param == PRELOAD
    ensures UniqueNames(Run(cat, s, RenderAction(action)).auto)
    ensures Last(Run(cat, s, RenderAction(action)).auto, PRELOAD) == Undone(action)
  {
    var first := RenderAction(action)[0];
    assert RenderAction(action) == [] + [first, ReloadConf];
    TextPair([], first, PRELOAD, Last(s.auto, PRELOAD));
    RunText(cat, s, RenderAction(action), PRELOAD);
  }

  /** The rollbacks of a chain, run in any order, restore the original text exactly when the first
      link's rollback runs last: reverse order does, forward order does not once there are two links. */
  lemma {:induction false} OnlyFirstLinkLast(
    cat: Catalogue, s: Server, rows: seq<Prior>, libraries: seq<string>, order: seq<nat>)
    requires Chain(rows, libraries) && order != []
    requires forall k :: 0 <= k < |order| ==> order[k] < |libraries|
    requires UniqueNames(s.auto)
    ensures Last(AfterRollbacks(cat, s, rows, libraries, order).auto, PRELOAD) == AutoText(rows[0])
            <==> order[|order| - 1] == 0
  {
    var last := order[|order| - 1];
    LastRollbackDecides(cat, s, rows, libraries, order);
    if last != 0 {
      ChainTextsDiffer(rows, libraries, 0, last);
      assert Link(rows[last - 1], libraries[last - 1], rows[last]);
    }
  }

  /** Rollback of a link never refuses what the previous link wrote. */
  lemma {:induction false} ChainNeverRefusesItself(rows: seq<Prior>, libraries: seq<string>, i: nat)
    requires Chain(rows, libraries) && 0 < i <= |libraries|
    ensures PreloadRollback(rows[i]).Ok?
  {
    assert Link(rows[i - 1], libraries[i - 1], rows[i]);
    DerivedList(rows[i - 1], libraries[i - 1]);
    RollbackOfWrittenText(Derive(rows[i - 1], libraries[i - 1]).value.value.items);
  }
}
