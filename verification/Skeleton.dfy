/** The catalog stand-in: which roles, schemas, tables and functions a rehearsal recreates, the
    statements that do it, and what running them on a fresh sandbox leaves
    (services/sandbox_poc/catalog_skeleton.py). */
module Skeleton {
  import opened Wrappers
  import opened Acl
  import opened ObjectNames
  import NameLists
  import ObjectFixes

  const SANDBOX_ROLE := "dbguard_poc"
  const PUBLIC_SCHEMA := "public"

  const PASSWORD_KINDS := {"none", "scram-sha-256", "md5"}

  /** `readable` is whether every attribute of a row was collected in the expected form; the password type is
      listed for some roles only. */
  datatype RoleRow = RoleRow(bootstrap: bool, readable: bool, attributes: string, password: Option<string>)

  datatype TableInfo = TableInfo(
    owner: string, ordinary: bool, readable: bool, rls: bool, forced: bool, acl: Option<seq<AclItem>>)

  /** `config` are the names of the settings a function pins, and `searchPath` the stored text of one. */
  datatype FunctionInfo = FunctionInfo(
    owner: string, plain: bool, extension: bool, stub: bool, readable: bool, config: seq<string>,
    searchPath: Option<string>, definer: bool, acl: seq<AclItem>)

  datatype Membership = Membership(group: string, member: string, admin: bool)

  /** The collected rows, which names are valid identifiers, and which identity-argument lists a stub can
      declare. */
  datatype Source = Source(
    roles: map<string, RoleRow>, tables: map<(string, string), TableInfo>,
    functions: map<(string, string, string), FunctionInfo>, schemas: map<string, string>,
    memberships: seq<Membership>, valid: string -> bool, args: string -> bool)

  predicate ExistsInSandbox(role: string) {
    role == SANDBOX_ROLE || Predefined(role)
  }

  datatype Plan = Plan(
    exact: seq<string>, deps: seq<string>, schemas: seq<string>,
    tables: seq<(string, string)>, functions: seq<(string, string, string)>)

  ghost predicate NoRepeats<T>(s: seq<T>) {
    forall i, j :: 0 <= i < j < |s| ==> s[i] != s[j]
  }

  lemma {:induction false} NoRepeatsAppend<T>(s: seq<T>, x: T)
    requires NoRepeats(s) && x !in s
    ensures NoRepeats(s + [x])
  {
  }

  // -------------------------------------------------------------------------
  // Reading lists
  // -------------------------------------------------------------------------

  datatype Entry = Entry(grantee: string, plain: seq<string>, option: seq<string>)

  function EntryOf(item: AclItem, letters: map<char, string>): (e: Entry) {
    Entry(item.grantee, Labels(Marks(item.privs), letters, false), Labels(Marks(item.privs), letters, true))
  }

  predicate ReadableAcl(items: seq<AclItem>, letters: map<char, string>, owner: string) {
    forall i | i in items :: i.grantor == owner && Readable(Marks(i.privs), letters)
  }

  /** _acl_items: every entry must be granted by the owner and hold supported privileges only. */
  method ReadAcl(items: seq<AclItem>, letters: map<char, string>, owner: string) returns (r: Option<seq<Entry>>)
    ensures r.Some? <==> ReadableAcl(items, letters, owner)
    ensures r.Some? ==> r.value == seq(|items|, i requires 0 <= i < |items| => EntryOf(items[i], letters))
  {
    var entries: seq<Entry> := [];
    for i := 0 to |items|
      invariant |entries| == i
      invariant forall k :: 0 <= k < i ==> items[k].grantor == owner && Readable(Marks(items[k].privs), letters)
      invariant forall k :: 0 <= k < i ==> entries[k] == EntryOf(items[k], letters)
    {
      if items[i].grantor != owner {
        return None;
      }
      var split := SplitPrivileges(items[i].privs, letters);
      if split.None? {
        return None;
      }
      entries := entries + [Entry(items[i].grantee, split.value.0, split.value.1)];
    }
    r := Some(entries);
  }

  function DefaultEntries(owner: string): (entries: seq<Entry>) {
    [Entry("", ["EXECUTE"], []), Entry(owner, ["EXECUTE"], [])]
  }

  /** The function's list is PostgreSQL's default, so it needs no statements. */
  predicate IsDefault(items: seq<AclItem>, owner: string) {
    |items| == 2 && EntryOf(items[0], FUNCTION_PRIVILEGES) == DefaultEntries(owner)[0]
    && EntryOf(items[1], FUNCTION_PRIVILEGES) == DefaultEntries(owner)[1]
  }

  // -------------------------------------------------------------------------
  // Planning
  // -------------------------------------------------------------------------

  function Known(p: Plan): (roles: set<string>) {
    (set r | r in p.exact) + (set r | r in p.deps)
  }

  predicate Covered(roles: set<string>, role: string) {
    role in roles || ExistsInSandbox(role)
  }

  ghost predicate GranteesCovered(roles: set<string>, items: seq<AclItem>) {
    forall i :: i in items && i.grantee != "" ==> Covered(roles, i.grantee)
  }

  predicate HasSchema(schemas: seq<string>, schema: string) {
    schema == PUBLIC_SCHEMA || schema in schemas
  }

  predicate SchemaOk(src: Source, schema: string) {
    src.valid(schema) && !Predefined(schema) && schema != "information_schema"
  }

  predicate ObjectOk(src: Source, schema: string, owner: string, items: seq<AclItem>, letters: map<char, string>) {
    && SchemaOk(src, schema) && owner != "" && src.valid(owner) && ReadableAcl(items, letters, owner)
    && forall i | i in items :: i.grantee != "" ==> src.valid(i.grantee)
  }

  function TableItems(t: TableInfo): (items: seq<AclItem>) {
    if t.acl.Some? then t.acl.value else []
  }

  /** A stub can pin nothing but search_path, and only one it can read and name again. */
  predicate ConfigOk(src: Source, f: FunctionInfo) {
    if f.config == [] then f.searchPath.None?
    else
      && f.config == ["search_path"] && f.searchPath.Some?
      && var path := NameLists.Items(f.searchPath.value);
         path.Some? && forall n | n in path.value :: src.valid(n)
  }

  /** The elements of the search_path a function pins. */
  function PathOf(f: FunctionInfo): (path: Option<seq<string>>) {
    if f.config == [] || f.searchPath.None? then None else NameLists.Items(f.searchPath.value)
  }

  /** A target whose own row can be recreated. */
  predicate RowOk(src: Source, o: ObjectName) {
    match o
    case RoleName(role) =>
      src.valid(role) && !ExistsInSandbox(role) && role != "" && role in src.roles && !src.roles[role].bootstrap
    case TableName(schema, table) =>
      && (schema, table) in src.tables
      && var t := src.tables[(schema, table)];
      && t.ordinary && t.readable && ObjectOk(src, schema, t.owner, TableItems(t), TABLE_PRIVILEGES)
    case FunctionName(schema, name, args) =>
      && (schema, name, args) in src.functions
      && var f := src.functions[(schema, name, args)];
      && f.plain && !f.extension && f.stub && ConfigOk(src, f) && f.readable && src.args(args)
      && ObjectOk(src, schema, f.owner, f.acl, FUNCTION_PRIVILEGES)
  }

  predicate SchemaOwnerOk(src: Source, schema: string) {
    schema in src.schemas && src.schemas[schema] != "" && src.valid(src.schemas[schema])
  }

  /** A target role can be created with its attributes and, if it had a password, with one of its type. */
  predicate ExactOk(row: RoleRow) {
    row.readable && (row.password.Some? ==> row.password.value in PASSWORD_KINDS)
  }

  /** A target the stand-in can recreate: a role as it was, or an object with its schema. */
  predicate TargetOk(src: Source, o: ObjectName) {
    && RowOk(src, o)
    && if o.RoleName? then ExactOk(src.roles[o.role]) else o.schema == PUBLIC_SCHEMA || SchemaOwnerOk(src, o.schema)
  }

  ghost predicate TablePlanned(src: Source, roles: set<string>, schemas: seq<string>, t: (string, string)) {
    && RowOk(src, TableName(t.0, t.1)) && HasSchema(schemas, t.0)
    && Covered(roles, src.tables[t].owner) && GranteesCovered(roles, TableItems(src.tables[t]))
  }

  ghost predicate FunctionPlanned(src: Source, roles: set<string>, schemas: seq<string>, f: (string, string, string)) {
    && RowOk(src, FunctionName(f.0, f.1, f.2)) && HasSchema(schemas, f.0)
    && Covered(roles, src.functions[f].owner) && GranteesCovered(roles, src.functions[f].acl)
  }

  /** No role is planned twice, as itself and as a dependency, or although the sandbox has it. */
  ghost predicate RolesPlanned(src: Source, p: Plan) {
    && NoRepeats(p.exact) && NoRepeats(p.deps)
    && (forall r :: r in p.exact ==> r !in p.deps && r in src.roles)
    && (forall r :: r in Known(p) ==> r != "" && !ExistsInSandbox(r))
  }

  /** Everything planned so far can be created in the order roles, schemas, tables, functions. */
  ghost predicate Consistent(src: Source, p: Plan) {
    && RolesPlanned(src, p)
    && NoRepeats(p.schemas) && NoRepeats(p.tables) && NoRepeats(p.functions)
    && PUBLIC_SCHEMA !in p.schemas && (forall n :: n in p.schemas ==> SchemaOk(src, n))
    && (forall t :: t in p.tables ==> TablePlanned(src, Known(p), p.schemas, t))
    && (forall f :: f in p.functions ==> FunctionPlanned(src, Known(p), p.schemas, f))
  }

  predicate Planned(p: Plan, o: ObjectName) {
    match o
    case RoleName(role) => role in p.exact
    case TableName(schema, table) => (schema, table) in p.tables
    case FunctionName(schema, name, args) => (schema, name, args) in p.functions
  }

  /** Everything in p is still in q. */
  ghost predicate Grows(p: Plan, q: Plan) {
    && Known(p) <= Known(q)
    && (forall r :: r in p.exact ==> r in q.exact)
    && (forall s :: s in p.schemas ==> s in q.schemas)
    && q.tables == p.tables && q.functions == p.functions
  }

  lemma {:induction false} GrowsKeeps(src: Source, p: Plan, q: Plan)
    requires Consistent(src, p) && Grows(p, q) && RolesPlanned(src, q)
    requires NoRepeats(q.schemas) && PUBLIC_SCHEMA !in q.schemas && forall n :: n in q.schemas ==> SchemaOk(src, n)
    ensures Consistent(src, q)
    ensures forall o :: Planned(p, o) ==> Planned(q, o)
  {
    forall t | t in q.tables ensures TablePlanned(src, Known(q), q.schemas, t) {
      assert TablePlanned(src, Known(p), p.schemas, t);
    }
    forall f | f in q.functions ensures FunctionPlanned(src, Known(q), q.schemas, f) {
      assert FunctionPlanned(src, Known(p), p.schemas, f);
    }
  }

  ghost predicate NamesGrantee(items: seq<AclItem>, role: string) {
    exists i :: i in items && i.grantee == role
  }

  /** The target's own role: its owner or a grantee. */
  ghost predicate Uses(src: Source, o: ObjectName, role: string) {
    match o
    case RoleName(_) => false
    case TableName(schema, table) =>
      && (schema, table) in src.tables
      && (src.tables[(schema, table)].owner == role || NamesGrantee(TableItems(src.tables[(schema, table)]), role))
    case FunctionName(schema, name, args) =>
      && (schema, name, args) in src.functions
      && (src.functions[(schema, name, args)].owner == role
          || NamesGrantee(src.functions[(schema, name, args)].acl, role))
  }

  /** need_role. */
  method NeedRole(src: Source, p: Plan, role: string) returns (r: Option<Plan>)
    requires Consistent(src, p)
    ensures r.Some? <==> role != "" && src.valid(role)
    ensures r.Some? ==>
              && Consistent(src, r.value) && Grows(p, r.value)
              && r.value.exact == p.exact && r.value.schemas == p.schemas
              && Covered(Known(r.value), role)
              && (forall o :: Planned(p, o) ==> Planned(r.value, o))
              && (forall x :: x in r.value.deps ==> x in p.deps || x == role)
  {
    if role == "" || !src.valid(role) {
      return None;
    }
    if role in p.deps || role in p.exact || ExistsInSandbox(role) {
      return Some(p);
    }
    var q := p.(deps := p.deps + [role]);
    NoRepeatsAppend(p.deps, role);
    assert Known(q) == Known(p) + {role};
    GrowsKeeps(src, p, q);
    r := Some(q);
  }

  /** need_schema. */
  method NeedSchema(src: Source, p: Plan, schema: string) returns (r: Option<Plan>)
    requires Consistent(src, p)
    ensures r.Some? <==> SchemaOk(src, schema)
    ensures r.Some? ==>
              && Consistent(src, r.value) && Grows(p, r.value) && r.value.exact == p.exact && r.value.deps == p.deps
              && r.value.schemas == (if HasSchema(p.schemas, schema) then p.schemas else p.schemas + [schema])
              && (forall o :: Planned(p, o) ==> Planned(r.value, o))
  {
    assert "public"[1] != "pg_"[1];
    if !src.valid(schema) {
      return None;
    }
    if HasSchema(p.schemas, schema) {
      return Some(p);
    }
    if Predefined(schema) || schema == "information_schema" {
      return None;
    }
    var q := p.(schemas := p.schemas + [schema]);
    NoRepeatsAppend(p.schemas, schema);
    assert Known(q) == Known(p);
    GrowsKeeps(src, p, q);
    r := Some(q);
  }

  /** The loop over an object's grantees. */
  method NeedGrantees(src: Source, p: Plan, items: seq<AclItem>) returns (r: Option<Plan>)
    requires Consistent(src, p)
    ensures r.Some? <==> forall i :: i in items && i.grantee != "" ==> src.valid(i.grantee)
    ensures r.Some? ==>
              && Consistent(src, r.value) && Grows(p, r.value)
              && r.value.exact == p.exact && r.value.schemas == p.schemas
              && GranteesCovered(Known(r.value), items)
              && (forall o :: Planned(p, o) ==> Planned(r.value, o))
              && (forall x :: x in r.value.deps ==> x in p.deps || NamesGrantee(items, x))
  {
    var q := p;
    for i := 0 to |items|
      invariant Consistent(src, q) && Grows(p, q) && q.exact == p.exact && q.schemas == p.schemas
      invariant forall k :: 0 <= k < i && items[k].grantee != "" ==>
        src.valid(items[k].grantee) && Covered(Known(q), items[k].grantee)
      invariant forall o :: Planned(p, o) ==> Planned(q, o)
      invariant forall x :: x in q.deps ==> x in p.deps || NamesGrantee(items, x)
    {
      assert items[i] in items;
      if items[i].grantee != "" {
        var more := NeedRole(src, q, items[i].grantee);
        if more.None? {
          return None;
        }
        q := more.value;
      }
    }
    r := Some(q);
  }

  // -------------------------------------------------------------------------
  // One target at a time
  // -------------------------------------------------------------------------

  function RemoveRole(roles: seq<string>, role: string): (rest: seq<string>)
    ensures forall r :: r in rest <==> r in roles && r != role
  {
    if roles == [] then []
    else if roles[0] == role then RemoveRole(roles[1..], role)
    else [roles[0]] + RemoveRole(roles[1..], role)
  }

  lemma {:induction false} RemoveKeepsDistinct(roles: seq<string>, role: string)
    requires NoRepeats(roles)
    ensures NoRepeats(RemoveRole(roles, role))
  {
    if roles != [] {
      RemoveKeepsDistinct(roles[1..], role);
      var rest := RemoveRole(roles[1..], role);
      forall k | 0 <= k < |rest| ensures rest[k] != roles[0] {
        assert rest[k] in roles[1..];
      }
    }
  }

  /** A target role becomes exact even if an earlier target already needed it as a dependency. */
  method AddRole(src: Source, p: Plan, role: string) returns (r: Option<Plan>)
    requires Consistent(src, p)
    ensures r.Some? <==> RowOk(src, RoleName(role))
    ensures r.Some? ==>
              && Added(src, p, r.value, RoleName(role))
  {
    if !src.valid(role) || ExistsInSandbox(role) || role == "" || role !in src.roles || src.roles[role].bootstrap {
      return None;
    }
    var q := p;
    if role in q.deps {
      q := q.(deps := RemoveRole(q.deps, role));
      RemoveKeepsDistinct(p.deps, role);
    }
    if role !in q.exact {
      NoRepeatsAppend(q.exact, role);
      q := q.(exact := q.exact + [role]);
    }
    assert Known(q) == Known(p) + {role};
    GrowsKeeps(src, p, q);
    r := Some(q);
  }

  /** What a table or a function needs: its schema, its owner and its grantees. */
  method NeedObject(
    src: Source, p: Plan, schema: string, owner: string, items: seq<AclItem>, letters: map<char, string>)
    returns (r: Option<Plan>)
    requires Consistent(src, p)
    ensures r.Some? <==> ObjectOk(src, schema, owner, items, letters)
    ensures r.Some? ==>
              && Consistent(src, r.value) && Grows(p, r.value) && r.value.exact == p.exact
              && Covered(Known(r.value), owner) && GranteesCovered(Known(r.value), items)
              && r.value.schemas == (if HasSchema(p.schemas, schema) then p.schemas else p.schemas + [schema])
              && (forall o :: Planned(p, o) ==> Planned(r.value, o))
              && (forall x :: x in r.value.deps ==> x in p.deps || x == owner || NamesGrantee(items, x))
  {
    var withSchema := NeedSchema(src, p, schema);
    if withSchema.None? {
      return None;
    }
    var withOwner := NeedRole(src, withSchema.value, owner);
    if withOwner.None? {
      return None;
    }
    var entries := ReadAcl(items, letters, owner);
    if entries.None? {
      return None;
    }
    r := NeedGrantees(src, withOwner.value, items);
  }

  method AddTable(src: Source, p: Plan, schema: string, table: string) returns (r: Option<Plan>)
    requires Consistent(src, p)
    ensures r.Some? <==> RowOk(src, TableName(schema, table))
    ensures r.Some? ==> Added(src, p, r.value, TableName(schema, table))
  {
    if (schema, table) !in src.tables || !src.tables[(schema, table)].ordinary {
      return None;
    }
    var t := src.tables[(schema, table)];
    if (schema, table) in p.tables {
      assert TablePlanned(src, Known(p), p.schemas, (schema, table));
      return Some(p);
    }
    var more := NeedObject(src, p, schema, t.owner, TableItems(t), TABLE_PRIVILEGES);
    if more.None? || !t.readable {
      return None;
    }
    var q := more.value.(tables := p.tables + [(schema, table)]);
    NoRepeatsAppend(p.tables, (schema, table));
    assert Known(q) == Known(more.value);
    r := Some(q);
  }

  /** The checks of the settings a function pins. */
  method CheckConfig(src: Source, f: FunctionInfo) returns (ok: bool)
    ensures ok <==> ConfigOk(src, f)
  {
    if f.config == [] {
      return f.searchPath.None?;
    }
    if f.config != ["search_path"] || f.searchPath.None? {
      return false;
    }
    var path := NameLists.ParseSearchPath(f.searchPath.value);
    return path.Some? && forall n | n in path.value :: src.valid(n);
  }

  method AddFunction(src: Source, p: Plan, schema: string, name: string, args: string) returns (r: Option<Plan>)
    requires Consistent(src, p)
    ensures r.Some? <==> RowOk(src, FunctionName(schema, name, args))
    ensures r.Some? ==> Added(src, p, r.value, FunctionName(schema, name, args))
  {
    if (schema, name, args) !in src.functions {
      return None;
    }
    var f := src.functions[(schema, name, args)];
    if (schema, name, args) in p.functions {
      assert FunctionPlanned(src, Known(p), p.schemas, (schema, name, args));
      return Some(p);
    }
    if !f.plain || f.extension || !f.stub {
      return None;
    }
    var pinned := CheckConfig(src, f);
    if !pinned || !f.readable || !src.args(args) {
      return None;
    }
    var more := NeedObject(src, p, schema, f.owner, f.acl, FUNCTION_PRIVILEGES);
    if more.None? {
      return None;
    }
    var q := more.value.(functions := p.functions + [(schema, name, args)]);
    NoRepeatsAppend(p.functions, (schema, name, args));
    assert Known(q) == Known(more.value);
    r := Some(q);
  }

  /** q is p with one more target planned. */
  ghost predicate Added(src: Source, p: Plan, q: Plan, o: ObjectName) {
    && Consistent(src, q) && Planned(q, o)
    && (forall x :: Planned(p, x) ==> Planned(q, x))
    && (forall n :: n in q.schemas ==> n in p.schemas || (!o.RoleName? && n == o.schema))
    && (forall x :: Planned(q, x) ==> Planned(p, x) || x == o)
    && (forall r :: r in q.deps ==> r in p.deps || Uses(src, o, r))
  }

  method AddTarget(src: Source, p: Plan, o: ObjectName) returns (r: Option<Plan>)
    requires Consistent(src, p)
    ensures r.Some? <==> RowOk(src, o)
    ensures r.Some? ==> Added(src, p, r.value, o)
  {
    match o {
      case RoleName(role) => r := AddRole(src, p, role);
      case TableName(schema, table) => r := AddTable(src, p, schema, table);
      case FunctionName(schema, name, args) => r := AddFunction(src, p, schema, name, args);
    }
  }

  ghost predicate OwnsPlanned(src: Source, p: Plan, role: string) {
    exists n :: n in p.schemas && n in src.schemas && src.schemas[n] == role
  }

  /** The plan holds nothing but the targets, their schemas, and the roles that own or use them. */
  ghost predicate OnlyNeeded(src: Source, targets: seq<ObjectName>, p: Plan) {
    && (forall o :: Planned(p, o) ==> o in targets)
    && (forall n :: n in p.schemas ==> exists o :: o in targets && !o.RoleName? && o.schema == n)
    && (forall r :: r in p.deps ==> OwnsPlanned(src, p, r) || exists o :: o in targets && Uses(src, o, r))
  }

  /** The plan after the first targets: exactly them, and only what they need. */
  ghost predicate PlannedSoFar(src: Source, done: seq<ObjectName>, p: Plan) {
    && OnlyNeeded(src, done, p)
    && (forall r :: r in p.deps ==> exists x :: x in done && Uses(src, x, r))
    && (forall o :: o in done ==> RowOk(src, o) && Planned(p, o))
  }

  lemma {:induction false} OneMoreTarget(
    src: Source, done: seq<ObjectName>, o: ObjectName, p: Plan, q: Plan)
    requires PlannedSoFar(src, done, p) && Added(src, p, q, o) && RowOk(src, o)
    ensures PlannedSoFar(src, done + [o], q)
  {
    var all := done + [o];
    assert o in all && forall x :: x in done ==> x in all;
    forall n | n in q.schemas ensures exists x :: x in all && !x.RoleName? && x.schema == n {
      if n in p.schemas {
        var x :| x in done && !x.RoleName? && x.schema == n;
        assert x in all;
      }
    }
    forall r | r in q.deps ensures exists x :: x in all && Uses(src, x, r) {
      if r in p.deps {
        var x :| x in done && Uses(src, x, r);
        assert x in all;
      }
    }
  }

  /** The owners of the planned schemas are needed too; planning them adds no schema. */
  method NeedSchemaOwners(src: Source, p: Plan) returns (r: Option<Plan>)
    requires Consistent(src, p)
    ensures r.Some? <==> forall n :: n in p.schemas ==> SchemaOwnerOk(src, n)
    ensures r.Some? ==>
              && Consistent(src, r.value) && r.value.exact == p.exact && r.value.schemas == p.schemas
              && (forall n :: n in p.schemas ==> Covered(Known(r.value), src.schemas[n]))
              && (forall o :: Planned(r.value, o) <==> Planned(p, o))
              && (forall x :: x in r.value.deps ==> x in p.deps || OwnsPlanned(src, p, x))
  {
    var q := p;
    for i := 0 to |p.schemas|
      invariant Consistent(src, q) && q.exact == p.exact && q.schemas == p.schemas
      invariant forall k :: 0 <= k < i ==>
        SchemaOwnerOk(src, p.schemas[k]) && Covered(Known(q), src.schemas[p.schemas[k]])
      invariant q.tables == p.tables && q.functions == p.functions
      invariant forall x :: x in q.deps ==> x in p.deps || OwnsPlanned(src, p, x)
    {
      var name := p.schemas[i];
      if name !in src.schemas {
        assert p.schemas[i] in p.schemas;
        return None;
      }
      var more := NeedRole(src, q, src.schemas[name]);
      if more.None? {
        assert p.schemas[i] in p.schemas;
        return None;
      }
      q := more.value;
    }
    r := Some(q);
  }

  /** The password types and attributes of the target roles. */
  method CheckRoles(src: Source, exact: seq<string>) returns (ok: bool)
    requires forall n :: n in exact ==> n in src.roles
    ensures ok <==> forall n :: n in exact ==> ExactOk(src.roles[n])
  {
    for i := 0 to |exact|
      invariant forall k :: 0 <= k < i ==> ExactOk(src.roles[exact[k]])
    {
      var row := src.roles[exact[i]];
      assert exact[i] in exact;
      if row.password.Some? && row.password.value !in PASSWORD_KINDS {
        return false;
      }
      if !row.readable {
        return false;
      }
    }
    return true;
  }

  /** plan: accepted exactly when every target and its schema can be recreated; the result is
      consistent, holds every target and nothing that no target needs. */
  method MakePlan(src: Source, targets: seq<ObjectName>) returns (r: Option<Plan>)
    ensures r.Some? <==> targets != [] && forall o :: o in targets ==> TargetOk(src, o)
    ensures r.Some? ==>
              && Consistent(src, r.value)
              && (forall o :: Planned(r.value, o) <==> o in targets)
              && OnlyNeeded(src, targets, r.value)
              && (forall n :: n in r.value.schemas ==> SchemaOwnerOk(src, n) && Covered(Known(r.value), src.schemas[n]))
  {
    if targets == [] {
      return None;
    }
    var p := PlanTargets(src, targets);
    if p.None? {
      return None;
    }
    r := NeedSchemaOwners(src, p.value);
    forall o | o in targets && !o.RoleName? && o.schema != PUBLIC_SCHEMA ensures o.schema in p.value.schemas {
      SchemaPlanned(src, p.value, o);
    }
    if r.None? {
      var n :| n in p.value.schemas && !SchemaOwnerOk(src, n);
      var o :| o in targets && !o.RoleName? && o.schema == n;
      PublicNotPlanned(src, p.value, n);
      assert !TargetOk(src, o);
      return;
    }
    var ok := CheckRoles(src, r.value.exact);
    ExactTargets(src, targets, r.value);
    if !ok {
      return None;
    }
  }

  lemma {:induction false} ExactTargets(src: Source, targets: seq<ObjectName>, p: Plan)
    requires Consistent(src, p) && forall o :: Planned(p, o) <==> o in targets
    ensures (forall n :: n in p.exact ==> ExactOk(src.roles[n]))
        <==> forall o :: o in targets && o.RoleName? ==> o.role in src.roles && ExactOk(src.roles[o.role])
  {
    forall n | n in p.exact ensures RoleName(n) in targets {
      assert Planned(p, RoleName(n));
    }
  }

  lemma {:induction false} PublicNotPlanned(src: Source, p: Plan, n: string)
    requires Consistent(src, p) && n in p.schemas
    ensures n != PUBLIC_SCHEMA
  {
  }

  /** The loop over the targets. */
  method PlanTargets(src: Source, targets: seq<ObjectName>) returns (r: Option<Plan>)
    ensures r.Some? <==> forall o :: o in targets ==> RowOk(src, o)
    ensures r.Some? ==>
              && Consistent(src, r.value) && OnlyNeeded(src, targets, r.value)
              && (forall o :: o in targets ==> Planned(r.value, o))
  {
    var p := Plan([], [], [], [], []);
    for i := 0 to |targets|
      invariant Consistent(src, p) && PlannedSoFar(src, targets[..i], p)
    {
      var more := AddTarget(src, p, targets[i]);
      if more.None? {
        assert targets[i] in targets;
        return None;
      }
      OneMoreTarget(src, targets[..i], targets[i], p, more.value);
      assert targets[..i + 1] == targets[..i] + [targets[i]];
      p := more.value;
    }
    assert targets[..|targets|] == targets;
    r := Some(p);
  }

  lemma {:induction false} SchemaPlanned(src: Source, p: Plan, o: ObjectName)
    requires Consistent(src, p) && Planned(p, o) && !o.RoleName?
    ensures HasSchema(p.schemas, o.schema)
  {
    if o.TableName? {
      assert TablePlanned(src, Known(p), p.schemas, (o.schema, o.table));
    } else {
      assert FunctionPlanned(src, Known(p), p.schemas, (o.schema, o.name, o.args));
    }
  }

  // -------------------------------------------------------------------------
  // The script and the server that runs it
  // -------------------------------------------------------------------------

  datatype Statement =
    | CreateExactRole(name: string, attributes: string)
    | CreateRole(name: string)
    | GrantRole(group: string, member: string, admin: bool)
    | CreateSchema(name: string, owner: string)
    | CreateTable(o: ObjectName)
    | CreateFunction(o: ObjectName, definer: bool, setPath: Option<string>)
    | SetOwner(o: ObjectName, owner: string)
    | EnableRowSecurity(o: ObjectName)
    | ForceRowSecurity(o: ObjectName)
    | RevokeFromPublicAndOwner(o: ObjectName, owner: string)
    | GrantOn(o: ObjectName, grant: GrantStatement)

  /** One created object. No list means PostgreSQL's default privileges; the search_path is the list the
      server reads in the SET clause. */
  datatype Created = Created(
    owner: string, rls: bool, forced: bool, definer: bool, path: Option<seq<string>>, acl: Option<Grants>)

  datatype Database = Database(
    roles: map<string, string>, members: map<(string, string), bool>, schemas: map<string, string>,
    objects: map<ObjectName, Created>)

  const DEPENDENCY := "NOLOGIN"

  predicate RoleExists(db: Database, role: string) {
    role in db.roles || Predefined(role)
  }

  function OwnerGrants(owner: string): (grants: set<Grant>) {
    set p | p in TABLE_PRIVILEGES.Values :: Grant(owner, p, owner)
  }

  /** The default privileges: everything for the owner and, for a function, EXECUTE for PUBLIC. */
  function DefaultGrants(o: ObjectName, owner: string): (grants: Grants) {
    if o.FunctionName? then map[Grant("", "EXECUTE", owner) := false, Grant(owner, "EXECUTE", owner) := false]
    else map g | g in OwnerGrants(owner) :: false
  }

  function Effective(o: ObjectName, c: Created): (grants: Grants) {
    if c.acl.Some? then c.acl.value else DefaultGrants(o, c.owner)
  }

  /** How the server reads a SET search_path clause; None is a syntax error. */
  function ReadPath(setPath: Option<string>): (path: Option<Option<seq<string>>>) {
    match setPath
    case None => Some(None)
    case Some(text) =>
      match NameLists.Items(text)
      case None => None
      case Some(names) => Some(Some(names))
  }

  /** One statement; None when PostgreSQL raises an error. */
  function Exec(db: Database, st: Statement): (after: Option<Database>) {
    match st
    case CreateExactRole(name, attributes) =>
      if RoleExists(db, name) then None else Some(db.(roles := db.roles[name := attributes]))
    case CreateRole(name) =>
      if RoleExists(db, name) then None else Some(db.(roles := db.roles[name := DEPENDENCY]))
    case GrantRole(group, member, admin) =>
      if !RoleExists(db, group) || !RoleExists(db, member) then None
      else
        var before := (group, member) in db.members && db.members[(group, member)];
        Some(db.(members := db.members[(group, member) := admin || before]))
    case CreateSchema(name, owner) =>
      if name in db.schemas || !RoleExists(db, owner) then None else Some(db.(schemas := db.schemas[name := owner]))
    case CreateTable(o) =>
      if o in db.objects || o.RoleName? || o.schema !in db.schemas then None
      else Some(db.(objects := db.objects[o := Created(SANDBOX_ROLE, false, false, false, None, None)]))
    case CreateFunction(o, definer, setPath) =>
      if o in db.objects || o.RoleName? || o.schema !in db.schemas || ReadPath(setPath).None? then None
      else
        var c := Created(SANDBOX_ROLE, false, false, definer, ReadPath(setPath).value, None);
        Some(db.(objects := db.objects[o := c]))
    case SetOwner(o, owner) =>
      if o !in db.objects || !RoleExists(db, owner) then None
      else Some(db.(objects := db.objects[o := db.objects[o].(owner := owner)]))
    case EnableRowSecurity(o) =>
      if o !in db.objects then None else Some(db.(objects := db.objects[o := db.objects[o].(rls := true)]))
    case ForceRowSecurity(o) =>
      if o !in db.objects then None else Some(db.(objects := db.objects[o := db.objects[o].(forced := true)]))
    case RevokeFromPublicAndOwner(o, owner) =>
      if o !in db.objects || !RoleExists(db, owner) then None
      else
        var kept := map g | g in Effective(o, db.objects[o]) && g.grantee != "" && g.grantee != owner
                      :: Effective(o, db.objects[o])[g];
        Some(db.(objects := db.objects[o := db.objects[o].(acl := Some(kept))]))
    case GrantOn(o, grant) =>
      if o !in db.objects || (grant.grantee != "" && !RoleExists(db, grant.grantee)) then None
      else if grant.grantee == "" && grant.option then None
      else
        var before, owner := Effective(o, db.objects[o]), db.objects[o].owner;
        var after := GrantAll(before, grant.grantee, grant.privileges, grant.option, owner);
        Some(db.(objects := db.objects[o := db.objects[o].(acl := Some(after))]))
  }

  function Run(db: Database, script: seq<Statement>): (after: Option<Database>)
    decreases |script|
  {
    if script == [] then Some(db)
    else
      match Exec(db, script[0])
      case None => None
      case Some(next) => Run(next, script[1..])
  }

  lemma {:induction false} RunConcat(db: Database, a: seq<Statement>, b: seq<Statement>)
    ensures Run(db, a + b) == match Run(db, a) case None => None case Some(next) => Run(next, b)
    decreases |a|
  {
    if a == [] {
      assert a + b == b;
    } else {
      assert (a + b)[1..] == a[1..] + b;
      if Exec(db, a[0]).Some? {
        RunConcat(Exec(db, a[0]).value, a[1..], b);
      }
    }
  }

  // -------------------------------------------------------------------------
  // The script of a plan
  // -------------------------------------------------------------------------

  function GrantScript(o: ObjectName, grants: seq<GrantStatement>): (script: seq<Statement>) {
    if grants == [] then [] else GrantScript(o, grants[..|grants| - 1]) + [GrantOn(o, grants[|grants| - 1])]
  }

  function AclScript(
    o: ObjectName, owner: string, items: seq<AclItem>, letters: map<char, string>): (script: seq<Statement>) {
    [RevokeFromPublicAndOwner(o, owner)] + GrantScript(o, GrantStatements(items, letters))
  }

  function TableScript(o: ObjectName, t: TableInfo): (script: seq<Statement>) {
    [CreateTable(o), SetOwner(o, t.owner)]
    + (if t.rls then [EnableRowSecurity(o)] else [])
    + (if t.forced then [ForceRowSecurity(o)] else [])
    + (if t.acl.Some? then AclScript(o, t.owner, t.acl.value, TABLE_PRIVILEGES) else [])
  }

  /** The SET clause: every element as a quoted identifier. */
  function SetPath(f: FunctionInfo): (text: Option<string>) {
    match PathOf(f)
    case None => None
    case Some(names) => Some(NameLists.Joined(names, true))
  }

  function FunctionScript(o: ObjectName, f: FunctionInfo): (script: seq<Statement>) {
    [CreateFunction(o, f.definer, SetPath(f)), SetOwner(o, f.owner)]
    + (if IsDefault(f.acl, f.owner) then [] else AclScript(o, f.owner, f.acl, FUNCTION_PRIVILEGES))
  }

  function ExactScript(src: Source, names: seq<string>): (script: seq<Statement>)
    requires forall n :: n in names ==> n in src.roles
  {
    if names == [] then []
    else
      var last := names[|names| - 1];
      ExactScript(src, names[..|names| - 1]) + [CreateExactRole(last, src.roles[last].attributes)]
  }

  function DependencyScript(names: seq<string>): (script: seq<Statement>) {
    if names == [] then [] else DependencyScript(names[..|names| - 1]) + [CreateRole(names[|names| - 1])]
  }

  /** Memberships between created roles of which at least one is exact. */
  predicate Recreated(p: Plan, m: Membership) {
    m.group in Known(p) && m.member in Known(p) && (m.group in p.exact || m.member in p.exact)
  }

  function MembershipScript(p: Plan, rows: seq<Membership>): (script: seq<Statement>) {
    if rows == [] || p.exact == [] then []
    else
      var last := rows[|rows| - 1];
      var script := MembershipScript(p, rows[..|rows| - 1]);
      if Recreated(p, last) then script + [GrantRole(last.group, last.member, last.admin)] else script
  }

  function SchemaScript(src: Source, names: seq<string>): (script: seq<Statement>)
    requires forall n :: n in names ==> n in src.schemas
  {
    if names == [] then []
    else SchemaScript(src, names[..|names| - 1]) + [CreateSchema(names[|names| - 1], src.schemas[names[|names| - 1]])]
  }

  function TablesScript(src: Source, tables: seq<(string, string)>): (script: seq<Statement>)
    requires forall t :: t in tables ==> t in src.tables
  {
    if tables == [] then []
    else
      var last := tables[|tables| - 1];
      TablesScript(src, tables[..|tables| - 1]) + TableScript(TableName(last.0, last.1), src.tables[last])
  }

  function FunctionsScript(src: Source, functions: seq<(string, string, string)>): (script: seq<Statement>)
    requires forall f :: f in functions ==> f in src.functions
  {
    if functions == [] then []
    else
      var last := functions[|functions| - 1];
      FunctionsScript(src, functions[..|functions| - 1])
      + FunctionScript(FunctionName(last.0, last.1, last.2), src.functions[last])
  }

  /** A finished plan: consistent, with the owners of its schemas. */
  ghost predicate Finished(src: Source, p: Plan) {
    && Consistent(src, p)
    && forall n :: n in p.schemas ==> SchemaOwnerOk(src, n) && Covered(Known(p), src.schemas[n])
  }

  ghost function Script(src: Source, p: Plan): (script: seq<Statement>)
    requires Finished(src, p)
  {
    PlanRows(src, p);
    ExactScript(src, p.exact) + DependencyScript(p.deps) + MembershipScript(p, src.memberships)
    + SchemaScript(src, p.schemas) + TablesScript(src, p.tables) + FunctionsScript(src, p.functions)
  }

  lemma {:induction false} PlanRows(src: Source, p: Plan)
    requires Finished(src, p)
    ensures forall n :: n in p.exact ==> n in src.roles
    ensures forall n :: n in p.schemas ==> n in src.schemas
    ensures forall t :: t in p.tables ==> t in src.tables
    ensures forall f :: f in p.functions ==> f in src.functions
  {
    forall t | t in p.tables ensures t in src.tables {
      assert TablePlanned(src, Known(p), p.schemas, t);
    }
    forall f | f in p.functions ensures f in src.functions {
      assert FunctionPlanned(src, Known(p), p.schemas, f);
    }
  }

  // -------------------------------------------------------------------------
  // Running it
  // -------------------------------------------------------------------------

  /** A fresh sandbox: its own role, the public schema and nothing else. */
  function FreshDatabase(): (db: Database) {
    Database(map[SANDBOX_ROLE := "SUPERUSER"], map[], map[PUBLIC_SCHEMA := SANDBOX_ROLE], map[])
  }

  lemma {:induction false} RunLast(db: Database, script: seq<Statement>, last: Statement)
    ensures Run(db, script + [last]) == match Run(db, script) case None => None case Some(next) => Exec(next, last)
  {
    RunConcat(db, script, [last]);
    if Run(db, script).Some? {
      assert [last][1..] == [];
    }
  }

  lemma {:induction false} UpdateRight<K, V>(a: map<K, V>, b: map<K, V>, k: K, v: V)
    ensures (a + b)[k := v] == a + b[k := v]
  {
  }

  function ExactRoles(src: Source, names: seq<string>): (roles: map<string, string>)
    requires forall n :: n in names ==> n in src.roles
    ensures forall n :: n in roles <==> n in names
    ensures forall n :: n in names ==> roles[n] == src.roles[n].attributes
  {
    if names == [] then map[]
    else
      assert names == names[..|names| - 1] + [names[|names| - 1]];
      ExactRoles(src, names[..|names| - 1])[names[|names| - 1] := src.roles[names[|names| - 1]].attributes]
  }

  function DependencyRoles(names: seq<string>): (roles: map<string, string>)
    ensures forall n :: n in roles <==> n in names
    ensures forall n :: n in names ==> roles[n] == DEPENDENCY
  {
    if names == [] then map[]
    else
      assert names == names[..|names| - 1] + [names[|names| - 1]];
      DependencyRoles(names[..|names| - 1])[names[|names| - 1] := DEPENDENCY]
  }

  function Schemas(src: Source, names: seq<string>): (schemas: map<string, string>)
    requires forall n :: n in names ==> n in src.schemas
    ensures forall n :: n in schemas <==> n in names
    ensures forall n :: n in names ==> schemas[n] == src.schemas[n]
  {
    if names == [] then map[]
    else
      assert names == names[..|names| - 1] + [names[|names| - 1]];
      Schemas(src, names[..|names| - 1])[names[|names| - 1] := src.schemas[names[|names| - 1]]]
  }

  lemma {:induction false} RunExact(src: Source, db: Database, names: seq<string>)
    requires forall n :: n in names ==> n in src.roles
    requires NoRepeats(names) && forall n :: n in names ==> !RoleExists(db, n)
    ensures Run(db, ExactScript(src, names)) == Some(db.(roles := db.roles + ExactRoles(src, names)))
  {
    if names == [] {
      assert db.roles + map[] == db.roles;
    } else {
      var last := names[|names| - 1];
      var rest := names[..|names| - 1];
      RunExact(src, db, rest);
      RunLast(db, ExactScript(src, rest), CreateExactRole(last, src.roles[last].attributes));
      UpdateRight(db.roles, ExactRoles(src, rest), last, src.roles[last].attributes);
      assert last !in rest && last in names;
    }
  }

  lemma {:induction false} RunDependencies(db: Database, names: seq<string>)
    requires NoRepeats(names) && forall n :: n in names ==> !RoleExists(db, n)
    ensures Run(db, DependencyScript(names)) == Some(db.(roles := db.roles + DependencyRoles(names)))
  {
    if names == [] {
      assert db.roles + map[] == db.roles;
    } else {
      var last := names[|names| - 1];
      var rest := names[..|names| - 1];
      RunDependencies(db, rest);
      RunLast(db, DependencyScript(rest), CreateRole(last));
      UpdateRight(db.roles, DependencyRoles(rest), last, DEPENDENCY);
      assert last !in rest && last in names;
    }
  }

  predicate ListedMember(p: Plan, rows: seq<Membership>, k: (string, string)) {
    exists m | m in rows :: Recreated(p, m) && (m.group, m.member) == k
  }

  /** Every recreated membership is there, with its admin option if it has one. */
  ghost predicate MembersOf(p: Plan, rows: seq<Membership>, members: map<(string, string), bool>) {
    forall m :: m in rows && Recreated(p, m) ==>
      (m.group, m.member) in members && (m.admin ==> members[(m.group, m.member)])
  }

  lemma {:induction false} RunMemberships(p: Plan, db: Database, rows: seq<Membership>)
    requires forall r :: r in Known(p) ==> RoleExists(db, r)
    ensures Run(db, MembershipScript(p, rows)).Some?
    ensures var after := Run(db, MembershipScript(p, rows)).value;
            && after == db.(members := after.members)
            && (p.exact != [] ==> MembersOf(p, rows, after.members))
            && (forall k :: k in after.members ==> k in db.members || ListedMember(p, rows, k))
  {
    if rows != [] && p.exact != [] {
      var last := rows[|rows| - 1];
      var rest := rows[..|rows| - 1];
      assert forall m :: m in rows <==> m in rest || m == last;
      RunMemberships(p, db, rest);
      if Recreated(p, last) {
        RunLast(db, MembershipScript(p, rest), GrantRole(last.group, last.member, last.admin));
      }
    }
  }

  ghost predicate SchemaCreatable(src: Source, db: Database, n: string) {
    n in src.schemas && n !in db.schemas && RoleExists(db, src.schemas[n])
  }

  lemma {:induction false} RunSchemas(src: Source, db: Database, names: seq<string>)
    requires forall n :: n in names ==> n in src.schemas
    requires forall n :: n in names ==> SchemaCreatable(src, db, n)
    requires NoRepeats(names)
    ensures Run(db, SchemaScript(src, names)) == Some(db.(schemas := db.schemas + Schemas(src, names)))
  {
    if names == [] {
      assert db.schemas + map[] == db.schemas;
    } else {
      var last := names[|names| - 1];
      var rest := names[..|names| - 1];
      RunSchemas(src, db, rest);
      assert last !in rest && last in names;
      RunLast(db, SchemaScript(src, rest), CreateSchema(last, src.schemas[last]));
      CreateOneSchema(src, db, db.schemas + Schemas(src, rest), last);
      UpdateRight(db.schemas, Schemas(src, rest), last, src.schemas[last]);
    }
  }

  lemma {:induction false} CreateOneSchema(src: Source, db: Database, schemas: map<string, string>, n: string)
    requires n in src.schemas && n !in schemas && RoleExists(db, src.schemas[n])
    ensures Exec(db.(schemas := schemas), CreateSchema(n, src.schemas[n]))
         == Some(db.(schemas := schemas[n := src.schemas[n]]))
  {
  }

  // -------------------------------------------------------------------------
  // Objects
  // -------------------------------------------------------------------------

  /** What PostgreSQL stores: one entry per grantee, each letter once, and no grant option for PUBLIC. */
  ghost predicate RealAcl(items: seq<AclItem>) {
    && (forall i, j :: 0 <= i < j < |items| ==> items[i].grantee != items[j].grantee)
    && (forall i :: 0 <= i < |items| ==> DistinctLetters(Marks(items[i].privs)))
    && (forall i, m :: 0 <= i < |items| && items[i].grantee == "" && m in Marks(items[i].privs) ==> !m.option)
  }

  lemma {:induction false} LettersInjective()
    ensures Injective(TABLE_PRIVILEGES) && Injective(FUNCTION_PRIVILEGES)
  {
    assert TABLE_PRIVILEGES['r'][0] == 'S' && TABLE_PRIVILEGES['a'][0] == 'I' && TABLE_PRIVILEGES['w'][0] == 'U'
        && TABLE_PRIVILEGES['d'][0] == 'D' && TABLE_PRIVILEGES['D'][1] == 'R' && TABLE_PRIVILEGES['D'][2] == 'U'
        && TABLE_PRIVILEGES['x'][0] == 'R' && TABLE_PRIVILEGES['t'][1] == 'R' && TABLE_PRIVILEGES['t'][2] == 'I'
        && TABLE_PRIVILEGES['m'][0] == 'M' && TABLE_PRIVILEGES['D'][0] == 'T' && TABLE_PRIVILEGES['t'][0] == 'T';
  }

  lemma {:induction false} ReadableIsOwnerAcl(items: seq<AclItem>, letters: map<char, string>, owner: string)
    requires RealAcl(items) && ReadableAcl(items, letters, owner)
    ensures OwnerAcl(items, letters, owner)
  {
    forall i | 0 <= i < |items| ensures items[i].grantor == owner && Readable(Marks(items[i].privs), letters) {
      assert items[i] in items;
    }
  }

  /** A grant the server accepts. */
  ghost predicate Grantable(db: Database, g: GrantStatement) {
    if g.grantee == "" then !g.option else RoleExists(db, g.grantee)
  }

  lemma {:induction false} NoOptionLabels(marks: seq<Mark>, letters: map<char, string>)
    requires forall m :: m in marks ==> !m.option
    ensures Labels(marks, letters, true) == []
  {
    if marks != [] {
      NoOptionLabels(marks[1..], letters);
      assert marks[0] in marks;
    }
  }

  lemma {:induction false} GrantsAreGrantable(db: Database, items: seq<AclItem>, letters: map<char, string>)
    requires RealAcl(items)
    requires forall i :: i in items && i.grantee != "" ==> RoleExists(db, i.grantee)
    ensures forall g :: g in GrantStatements(items, letters) ==> Grantable(db, g)
  {
    if items != [] {
      var last := items[|items| - 1];
      assert last in items && forall i :: i in items[..|items| - 1] ==> i in items;
      GrantsAreGrantable(db, items[..|items| - 1], letters);
      if last.grantee == "" {
        NoOptionLabels(Marks(last.privs), letters);
      }
    }
  }

  function WithObject(db: Database, o: ObjectName, c: Created): (after: Database) {
    db.(objects := db.objects[o := c])
  }

  lemma {:induction false} RunGrantScript(db: Database, o: ObjectName, c: Created, grants: seq<GrantStatement>)
    requires c.acl.Some? && forall g :: g in grants ==> Grantable(db, g)
    ensures Run(WithObject(db, o, c), GrantScript(o, grants))
         == Some(WithObject(db, o, c.(acl := Some(RunGrants(c.acl.value, grants, c.owner)))))
  {
    if grants != [] {
      var last := grants[|grants| - 1];
      var rest := grants[..|grants| - 1];
      assert last in grants && forall g :: g in rest ==> g in grants;
      RunGrantScript(db, o, c, rest);
      RunLast(WithObject(db, o, c), GrantScript(o, rest), GrantOn(o, last));
      GrantOnce(db, o, c.(acl := Some(RunGrants(c.acl.value, rest, c.owner))), last);
    }
  }

  lemma {:induction false} GrantOnce(db: Database, o: ObjectName, c: Created, g: GrantStatement)
    requires c.acl.Some? && Grantable(db, g)
    ensures Exec(WithObject(db, o, c), GrantOn(o, g))
         == Some(WithObject(db, o, c.(acl := Some(GrantAll(c.acl.value, g.grantee, g.privileges, g.option, c.owner)))))
  {
    var after := GrantAll(c.acl.value, g.grantee, g.privileges, g.option, c.owner);
    assert WithObject(db, o, c).objects[o := c.(acl := Some(after))]
        == db.objects[o := c.(acl := Some(GrantAll(c.acl.value, g.grantee, g.privileges, g.option, c.owner)))];
  }

  lemma {:induction false} RevokeLeavesNothing(db: Database, o: ObjectName, c: Created)
    requires c.acl.None? && RoleExists(db, c.owner)
    ensures Exec(WithObject(db, o, c), RevokeFromPublicAndOwner(o, c.owner))
         == Some(WithObject(db, o, c.(acl := Some(map[]))))
  {
    var d := WithObject(db, o, c);
    var kept := map g | g in Effective(o, c) && g.grantee != "" && g.grantee != c.owner :: Effective(o, c)[g];
    assert kept == map[];
    assert d.objects[o := c.(acl := Some(kept))] == db.objects[o := c.(acl := Some(map[]))];
  }

  /** REVOKE ALL and the GRANTs turn default privileges into exactly the source's list. */
  lemma {:induction false} RunAclScript(
    db: Database, o: ObjectName, c: Created, items: seq<AclItem>, letters: map<char, string>)
    requires c.acl.None? && RoleExists(db, c.owner) && Injective(letters)
    requires RealAcl(items) && ReadableAcl(items, letters, c.owner)
    requires forall i :: i in items && i.grantee != "" ==> RoleExists(db, i.grantee)
    ensures Run(WithObject(db, o, c), AclScript(o, c.owner, items, letters))
         == Some(WithObject(db, o, c.(acl := Some(AclGrants(items, letters)))))
  {
    var first := RevokeFromPublicAndOwner(o, c.owner);
    var rest := GrantScript(o, GrantStatements(items, letters));
    RunConcat(WithObject(db, o, c), [first], rest);
    RunLast(WithObject(db, o, c), [], first);
    assert [] + [first] == [first];
    RevokeLeavesNothing(db, o, c);
    GrantsAreGrantable(db, items, letters);
    RunGrantScript(db, o, c.(acl := Some(map[])), GrantStatements(items, letters));
    ReadableIsOwnerAcl(items, letters, c.owner);
    Rebuilt(items, letters, c.owner);
  }

  function TableCreated(t: TableInfo): (c: Created) {
    Created(t.owner, t.rls, t.forced, false, None,
            if t.acl.Some? then Some(AclGrants(t.acl.value, TABLE_PRIVILEGES)) else None)
  }

  function FunctionCreated(f: FunctionInfo): (c: Created) {
    Created(f.owner, false, false, f.definer, PathOf(f),
            if IsDefault(f.acl, f.owner) then None else Some(AclGrants(f.acl, FUNCTION_PRIVILEGES)))
  }

  /** The server has what an object of this owner with these entries needs. */
  ghost predicate Supports(db: Database, schema: string, owner: string, items: seq<AclItem>) {
    && schema in db.schemas && RoleExists(db, owner)
    && forall i :: i in items && i.grantee != "" ==> RoleExists(db, i.grantee)
  }

  lemma {:induction false} RunTwo(db: Database, a: Statement, b: Statement, x: Database, y: Database)
    requires Exec(db, a) == Some(x) && Exec(x, b) == Some(y)
    ensures Run(db, [a, b]) == Some(y)
  {
    assert [a, b] == [a] + [b];
    RunLast(db, [a], b);
    RunLast(db, [], a);
    assert [] + [a] == [a];
  }

  /** The statement creates an object with this flag and search_path. */
  predicate Creates(create: Statement, o: ObjectName, definer: bool, path: Option<seq<string>>) {
    match create
    case CreateFunction(target, flag, setPath) => target == o && flag == definer && ReadPath(setPath) == Some(path)
    case CreateTable(target) => target == o && !definer && path.None?
    case _ => false
  }

  lemma {:induction false} CreateBare(
    db: Database, o: ObjectName, create: Statement, definer: bool, path: Option<seq<string>>)
    requires !o.RoleName? && o !in db.objects && o.schema in db.schemas && Creates(create, o, definer, path)
    ensures Exec(db, create)
         == Some(WithObject(db, o, Created(SANDBOX_ROLE, false, false, definer, path, None)))
  {
  }

  lemma {:induction false} OwnBare(db: Database, o: ObjectName, c: Created, owner: string)
    requires RoleExists(db, owner)
    ensures Exec(WithObject(db, o, c), SetOwner(o, owner)) == Some(WithObject(db, o, c.(owner := owner)))
  {
    assert WithObject(db, o, c).objects[o := c.(owner := owner)] == db.objects[o := c.(owner := owner)];
  }

  lemma {:induction false} CreateAndOwn(
    db: Database, o: ObjectName, create: Statement, definer: bool, path: Option<seq<string>>, owner: string)
    requires !o.RoleName? && o !in db.objects && o.schema in db.schemas && RoleExists(db, owner)
    requires Creates(create, o, definer, path)
    ensures Run(db, [create, SetOwner(o, owner)])
         == Some(WithObject(db, o, Created(owner, false, false, definer, path, None)))
  {
    var bare := Created(SANDBOX_ROLE, false, false, definer, path, None);
    CreateBare(db, o, create, definer, path);
    OwnBare(db, o, bare, owner);
    RunTwo(db, create, SetOwner(o, owner), WithObject(db, o, bare), WithObject(db, o, bare.(owner := owner)));
  }

  lemma {:induction false} RunThree(
    db: Database, a: seq<Statement>, b: seq<Statement>, c: seq<Statement>, x: Database, y: Database, z: Database)
    requires Run(db, a) == Some(x) && Run(x, b) == Some(y) && Run(y, c) == Some(z)
    ensures Run(db, (a + b) + c) == Some(z)
  {
    RunConcat(db, a, b);
    RunConcat(db, a + b, c);
  }

  lemma {:induction false} RowSecurity(db: Database, o: ObjectName, c: Created, rls: bool, forced: bool)
    requires !c.rls && !c.forced
    ensures Run(WithObject(db, o, c),
                (if rls then [EnableRowSecurity(o)] else []) + (if forced then [ForceRowSecurity(o)] else []))
         == Some(WithObject(db, o, c.(rls := rls, forced := forced)))
  {
    var d := WithObject(db, o, c);
    var first := if rls then [EnableRowSecurity(o)] else [];
    var after := WithObject(db, o, c.(rls := rls));
    if rls {
      RunLast(d, [], EnableRowSecurity(o));
      assert [] + [EnableRowSecurity(o)] == first;
      assert d.objects[o := c.(rls := true)] == after.objects;
    }
    assert Run(d, first) == Some(after);
    RunConcat(d, first, if forced then [ForceRowSecurity(o)] else []);
    if forced {
      RunLast(after, [], ForceRowSecurity(o));
      assert [] + [ForceRowSecurity(o)] == [ForceRowSecurity(o)];
      assert after.objects[o := c.(rls := rls, forced := true)] == db.objects[o := c.(rls := rls, forced := true)];
    }
  }

  lemma {:induction false} RunTable(db: Database, o: ObjectName, t: TableInfo)
    requires o.TableName? && o !in db.objects && Supports(db, o.schema, t.owner, TableItems(t))
    requires RealAcl(TableItems(t)) && ReadableAcl(TableItems(t), TABLE_PRIVILEGES, t.owner)
    ensures Run(db, TableScript(o, t)) == Some(WithObject(db, o, TableCreated(t)))
  {
    var start := [CreateTable(o), SetOwner(o, t.owner)];
    var flags := (if t.rls then [EnableRowSecurity(o)] else []) + (if t.forced then [ForceRowSecurity(o)] else []);
    var bare := Created(t.owner, false, false, false, None, None);
    var flagged := Created(t.owner, t.rls, t.forced, false, None, None);
    CreateAndOwn(db, o, CreateTable(o), false, None, t.owner);
    RowSecurity(db, o, bare, t.rls, t.forced);
    TableList(db, o, t, flagged);
    RunThree(db, start, flags, TableListScript(o, t), WithObject(db, o, bare), WithObject(db, o, flagged),
             WithObject(db, o, TableCreated(t)));
    TableParts(o, t);
  }

  function TableListScript(o: ObjectName, t: TableInfo): (script: seq<Statement>) {
    if t.acl.Some? then AclScript(o, t.owner, t.acl.value, TABLE_PRIVILEGES) else []
  }

  lemma {:induction false} TableParts(o: ObjectName, t: TableInfo)
    ensures TableScript(o, t)
         == ([CreateTable(o), SetOwner(o, t.owner)]
             + ((if t.rls then [EnableRowSecurity(o)] else []) + (if t.forced then [ForceRowSecurity(o)] else [])))
            + TableListScript(o, t)
  {
  }

  lemma {:induction false} TableList(db: Database, o: ObjectName, t: TableInfo, flagged: Created)
    requires flagged == Created(t.owner, t.rls, t.forced, false, None, None)
    requires RoleExists(db, t.owner) && forall i :: i in TableItems(t) && i.grantee != "" ==> RoleExists(db, i.grantee)
    requires RealAcl(TableItems(t)) && ReadableAcl(TableItems(t), TABLE_PRIVILEGES, t.owner)
    ensures Run(WithObject(db, o, flagged), TableListScript(o, t)) == Some(WithObject(db, o, TableCreated(t)))
  {
    if t.acl.Some? {
      LettersInjective();
      RunAclScript(db, o, flagged, t.acl.value, TABLE_PRIVILEGES);
    }
  }

  lemma {:induction false} SomeItem(text: string)
    ensures NameLists.Items(text).Some? ==> NameLists.Items(text).value != []
  {
  }

  /** The server reads the rendered clause as the elements that were read from the source's stored text. */
  lemma {:induction false} PathReadsBack(f: FunctionInfo)
    ensures ReadPath(SetPath(f)) == Some(PathOf(f))
  {
    if PathOf(f).Some? {
      SomeItem(f.searchPath.value);
      NameLists.RoundTrip(PathOf(f).value, true);
    }
  }

  lemma {:induction false} RunFunction(db: Database, o: ObjectName, f: FunctionInfo)
    requires o.FunctionName? && o !in db.objects && Supports(db, o.schema, f.owner, f.acl)
    requires RealAcl(f.acl) && ReadableAcl(f.acl, FUNCTION_PRIVILEGES, f.owner)
    ensures Run(db, FunctionScript(o, f)) == Some(WithObject(db, o, FunctionCreated(f)))
  {
    var start := [CreateFunction(o, f.definer, SetPath(f)), SetOwner(o, f.owner)];
    PathReadsBack(f);
    CreateAndOwn(db, o, CreateFunction(o, f.definer, SetPath(f)), f.definer, PathOf(f), f.owner);
    if IsDefault(f.acl, f.owner) {
      assert FunctionScript(o, f) == start;
    } else {
      RunConcat(db, start, AclScript(o, f.owner, f.acl, FUNCTION_PRIVILEGES));
      LettersInjective();
      RunAclScript(db, o, Created(f.owner, false, false, f.definer, PathOf(f), None), f.acl, FUNCTION_PRIVILEGES);
    }
  }

  /** A default list needs no statements: it is what the server gives the function anyway. */
  lemma {:induction false} DefaultIsGranted(o: ObjectName, items: seq<AclItem>, owner: string)
    requires o.FunctionName? && owner != "" && IsDefault(items, owner)
    requires RealAcl(items) && ReadableAcl(items, FUNCTION_PRIVILEGES, owner)
    ensures AclGrants(items, FUNCTION_PRIVILEGES) == DefaultGrants(o, owner)
  {
    LettersInjective();
    ReadableIsOwnerAcl(items, FUNCTION_PRIVILEGES, owner);
    Rebuilt(items, FUNCTION_PRIVILEGES, owner);
    DefaultStatements(items, owner);
    RunDefault(owner);
  }

  lemma {:induction false} DefaultStatements(items: seq<AclItem>, owner: string)
    requires IsDefault(items, owner)
    ensures GrantStatements(items, FUNCTION_PRIVILEGES)
         == [GrantStatement("", ["EXECUTE"], false), GrantStatement(owner, ["EXECUTE"], false)]
  {
    var first := items[..1];
    assert first[..0] == [] && first[0] == items[0];
    assert GrantStatements(first, FUNCTION_PRIVILEGES) == [GrantStatement("", ["EXECUTE"], false)];
  }

  lemma {:induction false} RunDefault(owner: string)
    requires owner != ""
    ensures RunGrants(map[], [GrantStatement("", ["EXECUTE"], false), GrantStatement(owner, ["EXECUTE"], false)], owner)
         == map[Grant("", "EXECUTE", owner) := false, Grant(owner, "EXECUTE", owner) := false]
  {
    var a, b := GrantStatement("", ["EXECUTE"], false), GrantStatement(owner, ["EXECUTE"], false);
    assert [a, b][..1] == [a] && [a][..0] == [] && ["EXECUTE"][1..] == [];
    assert RunGrants(map[], [a], owner) == map[Grant("", "EXECUTE", owner) := false];
  }

  ghost predicate TableReady(src: Source, db: Database, t: (string, string)) {
    && t in src.tables && TableName(t.0, t.1) !in db.objects
    && Supports(db, t.0, src.tables[t].owner, TableItems(src.tables[t]))
    && RealAcl(TableItems(src.tables[t]))
    && ReadableAcl(TableItems(src.tables[t]), TABLE_PRIVILEGES, src.tables[t].owner)
  }

  ghost predicate FunctionReady(src: Source, db: Database, f: (string, string, string)) {
    && f in src.functions && FunctionName(f.0, f.1, f.2) !in db.objects
    && Supports(db, f.0, src.functions[f].owner, src.functions[f].acl)
    && RealAcl(src.functions[f].acl) && ReadableAcl(src.functions[f].acl, FUNCTION_PRIVILEGES, src.functions[f].owner)
  }

  function TableObjects(src: Source, tables: seq<(string, string)>): (objects: map<ObjectName, Created>)
    requires forall t :: t in tables ==> t in src.tables
    ensures forall o :: o in objects <==> o.TableName? && (o.schema, o.table) in tables
    ensures forall o :: o in objects ==> objects[o] == TableCreated(src.tables[(o.schema, o.table)])
  {
    if tables == [] then map[]
    else
      var last := tables[|tables| - 1];
      assert tables == tables[..|tables| - 1] + [last];
      TableObjects(src, tables[..|tables| - 1])[TableName(last.0, last.1) := TableCreated(src.tables[last])]
  }

  function FunctionObjects(src: Source, functions: seq<(string, string, string)>): (objects: map<ObjectName, Created>)
    requires forall f :: f in functions ==> f in src.functions
    ensures forall o :: o in objects <==> o.FunctionName? && (o.schema, o.name, o.args) in functions
    ensures forall o :: o in objects ==> objects[o] == FunctionCreated(src.functions[(o.schema, o.name, o.args)])
  {
    if functions == [] then map[]
    else
      var last := functions[|functions| - 1];
      assert functions == functions[..|functions| - 1] + [last];
      var o := FunctionName(last.0, last.1, last.2);
      FunctionObjects(src, functions[..|functions| - 1])[o := FunctionCreated(src.functions[last])]
  }

  lemma {:induction false} RunTables(src: Source, db: Database, tables: seq<(string, string)>)
    requires forall t :: t in tables ==> t in src.tables
    requires NoRepeats(tables) && forall t :: t in tables ==> TableReady(src, db, t)
    ensures Run(db, TablesScript(src, tables)) == Some(db.(objects := db.objects + TableObjects(src, tables)))
  {
    if tables == [] {
      assert db.objects + map[] == db.objects;
    } else {
      var last := tables[|tables| - 1];
      var rest := tables[..|tables| - 1];
      assert last !in rest && last in tables && TableReady(src, db, last);
      RunTables(src, db, rest);
      var before := db.(objects := db.objects + TableObjects(src, rest));
      RunConcat(db, TablesScript(src, rest), TableScript(TableName(last.0, last.1), src.tables[last]));
      RunTable(before, TableName(last.0, last.1), src.tables[last]);
      UpdateRight(db.objects, TableObjects(src, rest), TableName(last.0, last.1), TableCreated(src.tables[last]));
    }
  }

  lemma {:induction false} RunFunctions(src: Source, db: Database, functions: seq<(string, string, string)>)
    requires forall f :: f in functions ==> f in src.functions
    requires NoRepeats(functions) && forall f :: f in functions ==> FunctionReady(src, db, f)
    ensures Run(db, FunctionsScript(src, functions))
         == Some(db.(objects := db.objects + FunctionObjects(src, functions)))
  {
    if functions == [] {
      assert db.objects + map[] == db.objects;
    } else {
      var last := functions[|functions| - 1];
      var rest := functions[..|functions| - 1];
      assert last !in rest && last in functions && FunctionReady(src, db, last);
      RunFunctions(src, db, rest);
      var o := FunctionName(last.0, last.1, last.2);
      var before := db.(objects := db.objects + FunctionObjects(src, rest));
      RunConcat(db, FunctionsScript(src, rest), FunctionScript(o, src.functions[last]));
      RunFunction(before, o, src.functions[last]);
      UpdateRight(db.objects, FunctionObjects(src, rest), o, FunctionCreated(src.functions[last]));
    }
  }

  /** The evidence is that of a real catalogue. */
  ghost predicate RealCatalogue(src: Source) {
    && (forall t :: t in src.tables ==> RealAcl(TableItems(src.tables[t])))
    && (forall f :: f in src.functions ==> RealAcl(src.functions[f].acl))
  }

  /** The roles and schemas the script has created when it reaches the objects. */
  ghost predicate Prepared(src: Source, p: Plan, db: Database)
    requires Finished(src, p)
  {
    PlanRows(src, p);
    && db.roles == FreshDatabase().roles + ExactRoles(src, p.exact) + DependencyRoles(p.deps)
    && db.schemas == FreshDatabase().schemas + Schemas(src, p.schemas)
    && db.objects == map[]
    && (p.exact != [] ==> MembersOf(p, src.memberships, db.members))
    && (forall k :: k in db.members ==> ListedMember(p, src.memberships, k))
  }

  lemma {:induction false} RunRolesAndSchemas(src: Source, p: Plan) returns (db: Database)
    requires Finished(src, p)
    ensures forall n :: n in p.exact ==> n in src.roles
    ensures forall n :: n in p.schemas ==> n in src.schemas
    ensures Run(FreshDatabase(), ExactScript(src, p.exact) + DependencyScript(p.deps)
                                 + MembershipScript(p, src.memberships) + SchemaScript(src, p.schemas)) == Some(db)
    ensures Prepared(src, p, db)
  {
    PlanRows(src, p);
    var fr := FreshDatabase();
    forall n | n in p.exact || n in p.deps ensures !RoleExists(fr, n) {
      assert n in Known(p);
    }
    RunExact(src, fr, p.exact);
    var one := fr.(roles := fr.roles + ExactRoles(src, p.exact));
    RunDependencies(one, p.deps);
    RunConcat(fr, ExactScript(src, p.exact), DependencyScript(p.deps));
    var two := one.(roles := one.roles + DependencyRoles(p.deps));
    RunMemberships(p, two, src.memberships);
    RunConcat(fr, ExactScript(src, p.exact) + DependencyScript(p.deps), MembershipScript(p, src.memberships));
    var three := Run(two, MembershipScript(p, src.memberships)).value;
    forall n | n in p.schemas ensures SchemaCreatable(src, three, n) {
      assert SchemaOwnerOk(src, n) && Covered(Known(p), src.schemas[n]);
    }
    RunSchemas(src, three, p.schemas);
    RunConcat(fr, ExactScript(src, p.exact) + DependencyScript(p.deps) + MembershipScript(p, src.memberships),
              SchemaScript(src, p.schemas));
    db := three.(schemas := three.schemas + Schemas(src, p.schemas));
  }

  lemma {:induction false} PreparedSupports(
    src: Source, p: Plan, db: Database, schema: string, owner: string, items: seq<AclItem>)
    requires Finished(src, p) && Prepared(src, p, db)
    requires HasSchema(p.schemas, schema) && Covered(Known(p), owner) && GranteesCovered(Known(p), items)
    ensures Supports(db, schema, owner, items)
  {
    PlanRows(src, p);
  }

  /** A recreated table has its source owner, row-security flags and access list. */
  ghost predicate TableStandsIn(src: Source, db: Database, t: (string, string))
    requires t in src.tables
  {
    var o, info := TableName(t.0, t.1), src.tables[t];
    && o in db.objects && db.objects[o].owner == info.owner
    && db.objects[o].rls == info.rls && db.objects[o].forced == info.forced
    && Effective(o, db.objects[o])
       == if info.acl.Some? then AclGrants(info.acl.value, TABLE_PRIVILEGES) else DefaultGrants(o, info.owner)
  }

  /** A recreated function has its source owner, security flag, search path and access list. */
  ghost predicate FunctionStandsIn(src: Source, db: Database, f: (string, string, string))
    requires f in src.functions
  {
    var o, info := FunctionName(f.0, f.1, f.2), src.functions[f];
    && o in db.objects && db.objects[o].owner == info.owner
    && db.objects[o].definer == info.definer && db.objects[o].path == PathOf(info)
    && Effective(o, db.objects[o]) == AclGrants(info.acl, FUNCTION_PRIVILEGES)
  }

  ghost predicate RolesStandIn(src: Source, p: Plan, db: Database)
    requires forall r :: r in p.exact ==> r in src.roles
  {
    && db.roles.Keys == {SANDBOX_ROLE} + Known(p)
    && (forall r :: r in p.exact ==> db.roles[r] == src.roles[r].attributes)
    && (forall r :: r in p.deps ==> db.roles[r] == DEPENDENCY)
    && (p.exact != [] ==> MembersOf(p, src.memberships, db.members))
    && (forall k :: k in db.members ==> ListedMember(p, src.memberships, k))
  }

  /** The stand-in: what the source has, of everything the plan names, and no other role or object. */
  ghost predicate StandsIn(src: Source, p: Plan, db: Database)
    requires Finished(src, p)
  {
    PlanRows(src, p);
    && RolesStandIn(src, p, db)
    && db.schemas == FreshDatabase().schemas + Schemas(src, p.schemas)
    && (forall t :: t in p.tables ==> TableStandsIn(src, db, t))
    && (forall f :: f in p.functions ==> FunctionStandsIn(src, db, f))
    && (forall o :: o in db.objects ==> Planned(p, o))
  }

  /** The script of a finished plan runs without error on a fresh sandbox, creates every role, schema and
      object exactly once, and leaves each target with its source owner, flags and access list. */
  lemma {:induction false} StandInIsExact(src: Source, p: Plan)
    requires Finished(src, p) && RealCatalogue(src)
    ensures Run(FreshDatabase(), Script(src, p)).Some?
    ensures StandsIn(src, p, Run(FreshDatabase(), Script(src, p)).value)
  {
    PlanRows(src, p);
    var db := RunRolesAndSchemas(src, p);
    forall t | t in p.tables ensures TableReady(src, db, t) {
      assert TablePlanned(src, Known(p), p.schemas, t);
      PreparedSupports(src, p, db, t.0, src.tables[t].owner, TableItems(src.tables[t]));
    }
    RunTables(src, db, p.tables);
    var early := ExactScript(src, p.exact) + DependencyScript(p.deps) + MembershipScript(p, src.memberships)
                 + SchemaScript(src, p.schemas);
    RunConcat(FreshDatabase(), early, TablesScript(src, p.tables));
    var middle := db.(objects := db.objects + TableObjects(src, p.tables));
    forall f | f in p.functions ensures FunctionReady(src, middle, f) {
      assert FunctionPlanned(src, Known(p), p.schemas, f);
      PreparedSupports(src, p, db, f.0, src.functions[f].owner, src.functions[f].acl);
    }
    RunFunctions(src, middle, p.functions);
    RunConcat(FreshDatabase(), early + TablesScript(src, p.tables), FunctionsScript(src, p.functions));
    ObjectsStandIn(src, p, db, middle.(objects := middle.objects + FunctionObjects(src, p.functions)));
  }

  lemma {:induction false} ObjectsStandIn(src: Source, p: Plan, db: Database, after: Database)
    requires Finished(src, p) && RealCatalogue(src) && Prepared(src, p, db)
    requires forall t :: t in p.tables ==> t in src.tables
    requires forall f :: f in p.functions ==> f in src.functions
    requires after == db.(objects := db.objects + TableObjects(src, p.tables) + FunctionObjects(src, p.functions))
    ensures StandsIn(src, p, after)
  {
    PlanRows(src, p);
    forall t | t in p.tables ensures TableStandsIn(src, after, t) {
      OneTable(src, p, after, t);
    }
    forall f | f in p.functions ensures FunctionStandsIn(src, after, f) {
      assert FunctionPlanned(src, Known(p), p.schemas, f);
      OneFunction(src, p, after, f);
    }
    forall o | o in after.objects ensures Planned(p, o) {
      OnlyPlanned(src, p, after, o);
    }
    PreparedRoles(src, p, db, after);
  }

  lemma {:induction false} PreparedRoles(src: Source, p: Plan, db: Database, after: Database)
    requires Finished(src, p) && Prepared(src, p, db)
    requires forall n :: n in p.exact ==> n in src.roles
    requires after.roles == db.roles && after.members == db.members
    ensures RolesStandIn(src, p, after)
  {
    PlanRows(src, p);
    RolesFrom(src, p, db.roles);
  }

  lemma {:induction false} RolesFrom(src: Source, p: Plan, roles: map<string, string>)
    requires forall n :: n in p.exact ==> n in src.roles && n !in p.deps
    requires roles == FreshDatabase().roles + ExactRoles(src, p.exact) + DependencyRoles(p.deps)
    ensures roles.Keys == {SANDBOX_ROLE} + Known(p)
    ensures forall r :: r in p.exact ==> roles[r] == src.roles[r].attributes
    ensures forall r :: r in p.deps ==> roles[r] == DEPENDENCY
  {
    MergedRoles(FreshDatabase().roles, ExactRoles(src, p.exact), DependencyRoles(p.deps), roles);
  }

  lemma {:induction false} MergedRoles(
    a: map<string, string>, b: map<string, string>, c: map<string, string>, all: map<string, string>)
    requires all == a + b + c
    ensures all.Keys == a.Keys + b.Keys + c.Keys
    ensures forall r :: r in c ==> all[r] == c[r]
    ensures forall r :: r in b && r !in c ==> all[r] == b[r]
  {
  }

  lemma {:induction false} OnlyPlanned(src: Source, p: Plan, after: Database, o: ObjectName)
    requires forall t :: t in p.tables ==> t in src.tables
    requires forall f :: f in p.functions ==> f in src.functions
    requires after.objects == map[] + TableObjects(src, p.tables) + FunctionObjects(src, p.functions)
    requires o in after.objects
    ensures Planned(p, o)
  {
    assert o in TableObjects(src, p.tables) || o in FunctionObjects(src, p.functions);
  }

  lemma {:induction false} OneTable(src: Source, p: Plan, after: Database, t: (string, string))
    requires forall x :: x in p.tables ==> x in src.tables
    requires forall f :: f in p.functions ==> f in src.functions
    requires t in p.tables && after.objects == map[] + TableObjects(src, p.tables) + FunctionObjects(src, p.functions)
    ensures TableStandsIn(src, after, t)
  {
    var o := TableName(t.0, t.1);
    assert o in TableObjects(src, p.tables) && o !in FunctionObjects(src, p.functions);
    CreatedTableStandsIn(src, after, t);
  }

  lemma {:induction false} CreatedTableStandsIn(src: Source, db: Database, t: (string, string))
    requires t in src.tables && TableName(t.0, t.1) in db.objects
    requires db.objects[TableName(t.0, t.1)] == TableCreated(src.tables[t])
    ensures TableStandsIn(src, db, t)
  {
  }

  lemma {:induction false} OneFunction(src: Source, p: Plan, after: Database, f: (string, string, string))
    requires forall t :: t in p.tables ==> t in src.tables
    requires forall x :: x in p.functions ==> x in src.functions
    requires f in p.functions
    requires after.objects == map[] + TableObjects(src, p.tables) + FunctionObjects(src, p.functions)
    requires RealAcl(src.functions[f].acl)
    requires ReadableAcl(src.functions[f].acl, FUNCTION_PRIVILEGES, src.functions[f].owner)
    requires src.functions[f].owner != ""
    ensures FunctionStandsIn(src, after, f)
  {
    var o := FunctionName(f.0, f.1, f.2);
    assert o in FunctionObjects(src, p.functions);
    CreatedFunctionStandsIn(src, after, f);
  }

  lemma {:induction false} CreatedFunctionStandsIn(src: Source, db: Database, f: (string, string, string))
    requires f in src.functions && FunctionName(f.0, f.1, f.2) in db.objects
    requires db.objects[FunctionName(f.0, f.1, f.2)] == FunctionCreated(src.functions[f])
    requires RealAcl(src.functions[f].acl)
    requires ReadableAcl(src.functions[f].acl, FUNCTION_PRIVILEGES, src.functions[f].owner)
    requires src.functions[f].owner != ""
    ensures FunctionStandsIn(src, db, f)
  {
    EffectiveList(FunctionName(f.0, f.1, f.2), src.functions[f]);
  }

  lemma {:induction false} EffectiveList(o: ObjectName, f: FunctionInfo)
    requires o.FunctionName? && f.owner != "" && RealAcl(f.acl) && ReadableAcl(f.acl, FUNCTION_PRIVILEGES, f.owner)
    ensures Effective(o, FunctionCreated(f)) == AclGrants(f.acl, FUNCTION_PRIVILEGES)
  {
    if IsDefault(f.acl, f.owner) {
      DefaultIsGranted(o, f.acl, f.owner);
    }
  }

  /** What was offered on a recreated table finds, on the stand-in, the list it was offered on: its REVOKE
      needs no CASCADE and its rollback brings that list back. */
  lemma {:induction false} TableOfferStandsIn(
    src: Source, p: Plan, db: Database, t: (string, string), row: ObjectFixes.TableRow, offer: ObjectFixes.Offer)
    requires Finished(src, p) && RealCatalogue(src) && StandsIn(src, p, db)
    requires t in p.tables && t in src.tables
    requires src.tables[t].acl == Some(row.items) && src.tables[t].owner == row.owner && ObjectFixes.Offers(row, offer)
    ensures var o := TableName(t.0, t.1);
            o in db.objects && ObjectFixes.HeldFromOwner(Effective(o, db.objects[o]), offer, row.owner)
  {
    PlanRows(src, p);
    assert TableStandsIn(src, db, t);
    ObjectFixes.OfferIsHeld(row, offer);
  }

  /** The same for EXECUTE of PUBLIC on a recreated function, whose list may have been left out as the
      server's default. */
  lemma {:induction false} FunctionOfferStandsIn(src: Source, p: Plan, db: Database, f: (string, string, string))
    requires Finished(src, p) && RealCatalogue(src) && StandsIn(src, p, db)
    requires f in p.functions && f in src.functions
    requires ObjectFixes.OffersExecute(ObjectFixes.FunctionRow(src.functions[f].owner, src.functions[f].acl))
    ensures var o := FunctionName(f.0, f.1, f.2);
            && o in db.objects
            && ObjectFixes.HeldFromOwner(
                 Effective(o, db.objects[o]), ObjectFixes.Offer("", ["EXECUTE"], false), src.functions[f].owner)
  {
    PlanRows(src, p);
    assert FunctionStandsIn(src, db, f);
    ObjectFixes.ExecuteIsHeld(ObjectFixes.FunctionRow(src.functions[f].owner, src.functions[f].acl));
  }
}
