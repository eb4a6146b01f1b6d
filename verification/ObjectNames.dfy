/** The names of the objects a per-object fix can change, and the text key of each (target_key in
    services/sandbox_poc/catalog_skeleton.py). */
module ObjectNames {

  /** The roles PostgreSQL predefines. */
  predicate Predefined(role: string) {
    |role| >= 3 && role[..3] == "pg_"
  }

  const SEPARATOR := '\U{001F}'

  datatype ObjectName = RoleName(role: string) | TableName(schema: string, table: string)
    | FunctionName(schema: string, name: string, args: string)

  /** target_key: the text that identifies one object. */
  function TargetKey(o: ObjectName): (key: string) {
    match o
    case RoleName(role) => "role:" + role
    case TableName(schema, table) => "table:" + schema + [SEPARATOR] + table
    case FunctionName(schema, name, args) => "function:" + schema + [SEPARATOR] + name + [SEPARATOR] + args
  }

  /** Identifiers hold no control character. */
  predicate ValidName(o: ObjectName) {
    match o
    case RoleName(_) => true
    case TableName(schema, _) => SEPARATOR !in schema
    case FunctionName(schema, name, _) => SEPARATOR !in schema && SEPARATOR !in name
  }

  lemma {:induction false} SeparatorInside(a: string, b: string, c: string, d: string)
    requires a + [SEPARATOR] + b == c + [SEPARATOR] + d
    ensures |a| < |c| ==> c[|a|] == SEPARATOR
  {
    assert (a + [SEPARATOR] + b)[|a|] == SEPARATOR;
  }

  lemma {:induction false} SplitAtSeparator(a: string, b: string, c: string, d: string)
    requires SEPARATOR !in a && SEPARATOR !in c
    ensures a + [SEPARATOR] + b == c + [SEPARATOR] + d <==> a == c && b == d
  {
    if a + [SEPARATOR] + b == c + [SEPARATOR] + d {
      SeparatorInside(a, b, c, d);
      SeparatorInside(c, d, a, b);
      var x, y := a + [SEPARATOR] + b, c + [SEPARATOR] + d;
      assert x[..|a|] == a && y[..|c|] == c && x[|a| + 1..] == b && y[|c| + 1..] == d;
    }
  }

  lemma {:induction false} SamePrefix(prefix: string, x: string, y: string)
    ensures prefix + x == prefix + y <==> x == y
  {
    assert (prefix + x)[|prefix|..] == x && (prefix + y)[|prefix|..] == y;
  }

  lemma {:induction false} FunctionKeys(s: string, n: string, a: string, u: string, m: string, b: string)
    requires SEPARATOR !in s && SEPARATOR !in n && SEPARATOR !in u && SEPARATOR !in m
    ensures TargetKey(FunctionName(s, n, a)) == TargetKey(FunctionName(u, m, b)) <==> s == u && n == m && a == b
  {
    var x, y := n + [SEPARATOR] + a, m + [SEPARATOR] + b;
    assert TargetKey(FunctionName(s, n, a)) == "function:" + (s + [SEPARATOR] + x);
    assert TargetKey(FunctionName(u, m, b)) == "function:" + (u + [SEPARATOR] + y);
    SamePrefix("function:", s + [SEPARATOR] + x, u + [SEPARATOR] + y);
    SplitAtSeparator(s, x, u, y);
    SplitAtSeparator(n, a, m, b);
  }

  lemma {:induction false} TableKeys(s: string, t: string, u: string, v: string)
    requires SEPARATOR !in s && SEPARATOR !in u
    ensures TargetKey(TableName(s, t)) == TargetKey(TableName(u, v)) <==> s == u && t == v
  {
    assert TargetKey(TableName(s, t)) == "table:" + (s + [SEPARATOR] + t);
    assert TargetKey(TableName(u, v)) == "table:" + (u + [SEPARATOR] + v);
    SamePrefix("table:", s + [SEPARATOR] + t, u + [SEPARATOR] + v);
    SplitAtSeparator(s, t, u, v);
  }

  lemma {:induction false} KeyStart(o: ObjectName)
    ensures TargetKey(o)[0] == if o.RoleName? then 'r' else if o.TableName? then 't' else 'f'
  {
  }

  /** Different objects have different keys. */
  lemma {:induction false} TargetKeysDiffer(o: ObjectName, p: ObjectName)
    requires ValidName(o) && ValidName(p)
    ensures TargetKey(o) == TargetKey(p) <==> o == p
  {
    KeyStart(o);
    KeyStart(p);
    match o {
      case RoleName(r) =>
        if p.RoleName? {
          SamePrefix("role:", r, p.role);
        }
      case TableName(s, t) =>
        if p.TableName? {
          TableKeys(s, t, p.schema, p.table);
        }
      case FunctionName(s, n, a) =>
        if p.FunctionName? {
          FunctionKeys(s, n, a, p.schema, p.name, p.args);
        }
    }
  }
}
