/** Access control lists: the two readers of a privilege text, what a list grants, and what GRANT and
    REVOKE do to it (services/sandbox_poc/object_fixes.py, services/sandbox_poc/catalog_skeleton.py). */
module Acl {
  import opened Wrappers

  /** A parsed aclitem; the empty grantee is PUBLIC. */
  datatype AclItem = AclItem(grantee: string, privs: string, grantor: string)

  const DML: map<char, string> := map['a' := "INSERT", 'w' := "UPDATE", 'd' := "DELETE"]

  const DML_ORDER := ["INSERT", "UPDATE", "DELETE"]

  const TABLE_PRIVILEGES: map<char, string> := map[
    'a' := "INSERT", 'r' := "SELECT", 'w' := "UPDATE", 'd' := "DELETE",
    'D' := "TRUNCATE", 'x' := "REFERENCES", 't' := "TRIGGER", 'm' := "MAINTAIN"]

  const FUNCTION_PRIVILEGES: map<char, string> := map['X' := "EXECUTE"]

  // -------------------------------------------------------------------------
  // Privilege texts
  // -------------------------------------------------------------------------

  /** One letter of a privilege text and whether a star (grant option) follows it. */
  datatype Mark = Mark(letter: char, option: bool)

  function Text(marks: seq<Mark>): (privs: string) {
    if marks == [] then ""
    else [marks[0].letter] + (if marks[0].option then "*" else "") + Text(marks[1..])
  }

  function Marks(privs: string): (marks: seq<Mark>) {
    if privs == "" then []
    else if |privs| > 1 && privs[1] == '*' then [Mark(privs[0], true)] + Marks(privs[2..])
    else [Mark(privs[0], false)] + Marks(privs[1..])
  }

  /** Reading the text PostgreSQL prints for a list of marks gives the marks. */
  lemma {:induction false} MarksOfText(marks: seq<Mark>)
    requires forall m :: m in marks ==> m.letter != '*'
    ensures Marks(Text(marks)) == marks
  {
    if marks != [] {
      var rest := Text(marks[1..]);
      MarksOfText(marks[1..]);
      if marks[0].option {
        assert Text(marks) == [marks[0].letter] + "*" + rest;
        assert Text(marks)[2..] == rest;
      } else {
        assert Text(marks) == [marks[0].letter] + rest;
        assert Text(marks)[1..] == rest;
        if rest != "" {
          assert rest[0] == marks[1].letter;
        }
      }
    }
  }

  function HeldMark(mark: Mark, letters: map<char, string>): (held: map<string, bool>) {
    if mark.letter in letters then map[letters[mark.letter] := mark.option] else map[]
  }

  /** The privileges of a text with their grant option; the last mention of a letter counts. */
  function HeldBy(marks: seq<Mark>, letters: map<char, string>): (held: map<string, bool>) {
    if marks == [] then map[] else HeldMark(marks[0], letters) + HeldBy(marks[1..], letters)
  }

  function HeldFrom(privs: string, i: nat): (held: map<string, bool>)
    requires i <= |privs|
    decreases |privs| - i
  {
    if i == |privs| then map[]
    else HeldMark(Mark(privs[i], i + 1 < |privs| && privs[i + 1] == '*'), DML) + HeldFrom(privs, i + 1)
  }

  lemma {:induction false} HeldFromMarks(privs: string, i: nat)
    requires i <= |privs|
    ensures HeldFrom(privs, i) == HeldBy(Marks(privs[i..]), DML)
    decreases |privs| - i
  {
    if i < |privs| {
      var star := i + 1 < |privs| && privs[i + 1] == '*';
      var next := if star then i + 2 else i + 1;
      assert privs[i..][next - i..] == privs[next..];
      HeldFromMarks(privs, next);
      if star {
        StarHoldsNothing(privs, i + 1);
      }
    }
  }

  lemma {:induction false} StarHoldsNothing(privs: string, i: nat)
    requires i < |privs| && privs[i] == '*'
    ensures HeldFrom(privs, i) == HeldFrom(privs, i + 1)
  {
    assert map[] + HeldFrom(privs, i + 1) == HeldFrom(privs, i + 1);
  }

  lemma {:induction false} MergeStep(done: map<string, bool>, mark: Mark, rest: map<string, bool>)
    ensures done + (HeldMark(mark, DML) + rest)
         == (if mark.letter in DML then done[DML[mark.letter] := mark.option] else done) + rest
  {
    var all := done + (HeldMark(mark, DML) + rest);
    var step := (if mark.letter in DML then done[DML[mark.letter] := mark.option] else done) + rest;
    assert all.Keys == step.Keys;
    forall k | k in all ensures all[k] == step[k] {
    }
  }

  /** _held: looks at every character; it agrees with the reader that jumps over stars. */
  method Held(privs: string) returns (held: map<string, bool>)
    ensures held == HeldBy(Marks(privs), DML)
  {
    held := map[];
    for i := 0 to |privs|
      invariant held + HeldFrom(privs, i) == HeldFrom(privs, 0)
    {
      ghost var mark := Mark(privs[i], i + 1 < |privs| && privs[i + 1] == '*');
      MergeStep(held, mark, HeldFrom(privs, i + 1));
      if privs[i] in DML {
        held := held[DML[privs[i]] := i + 1 < |privs| && privs[i + 1] == '*'];
      }
    }
    HeldFromMarks(privs, 0);
    assert privs[0..] == privs;
  }

  predicate Readable(marks: seq<Mark>, letters: map<char, string>) {
    forall m | m in marks :: m.letter in letters
  }

  /** The labels of the marks with the given grant option, in order. */
  function Labels(marks: seq<Mark>, letters: map<char, string>, option: bool): (names: seq<string>) {
    if marks == [] then []
    else
      (if marks[0].letter in letters && marks[0].option == option then [letters[marks[0].letter]] else [])
      + Labels(marks[1..], letters, option)
  }

  /** What is still to be read, after what has been collected. */
  function Collected(plain: seq<string>, option: seq<string>, marks: seq<Mark>, letters: map<char, string>)
    : (r: Option<(seq<string>, seq<string>)>)
  {
    if Readable(marks, letters) then
      Some((plain + Labels(marks, letters, false), option + Labels(marks, letters, true)))
    else None
  }

  lemma {:induction false} CollectedStep(
    plain: seq<string>, option: seq<string>, marks: seq<Mark>, letters: map<char, string>)
    requires marks != [] && marks[0].letter in letters
    ensures Collected(plain, option, marks, letters) == Collected(
              if marks[0].option then plain else plain + [letters[marks[0].letter]],
              if marks[0].option then option + [letters[marks[0].letter]] else option, marks[1..], letters)
  {
    assert marks == [marks[0]] + marks[1..];
    var name := letters[marks[0].letter];
    forall o: bool
      ensures Labels(marks, letters, o)
           == (if marks[0].option == o then [name] else []) + Labels(marks[1..], letters, o)
    {
    }
    assert plain + ([name] + Labels(marks[1..], letters, false))
      == (plain + [name]) + Labels(marks[1..], letters, false);
    assert option + ([name] + Labels(marks[1..], letters, true))
      == (option + [name]) + Labels(marks[1..], letters, true);
    if marks[0].option {
      assert Labels(marks, letters, false) == Labels(marks[1..], letters, false);
    } else {
      assert Labels(marks, letters, true) == Labels(marks[1..], letters, true);
    }
  }

  lemma {:induction false} MarksAt(privs: string, i: nat)
    requires i < |privs|
    ensures var star := i + 1 < |privs| && privs[i + 1] == '*';
            Marks(privs[i..]) == [Mark(privs[i], star)] + Marks(privs[if star then i + 2 else i + 1..])
  {
    var next := if i + 1 < |privs| && privs[i + 1] == '*' then i + 2 else i + 1;
    assert privs[i..][next - i..] == privs[next..];
  }

  /** The inner loop of _acl_items: privileges without and with grant option, or a refusal at the first
      unsupported letter. */
  method SplitPrivileges(privs: string, letters: map<char, string>) returns (r: Option<(seq<string>, seq<string>)>)
    ensures r == if Readable(Marks(privs), letters)
                 then Some((Labels(Marks(privs), letters, false), Labels(Marks(privs), letters, true))) else None
  {
    var plain, option, index := [], [], 0;
    assert privs[0..] == privs;
    forall o: bool ensures [] + Labels(Marks(privs), letters, o) == Labels(Marks(privs), letters, o) {
    }
    while index < |privs|
      invariant index <= |privs|
      invariant Collected(plain, option, Marks(privs[index..]), letters) == Collected([], [], Marks(privs), letters)
    {
      var letter := privs[index];
      var star := index + 1 < |privs| && privs[index + 1] == '*';
      var next := index + if star then 2 else 1;
      MarksAt(privs, index);
      if letter !in letters {
        assert Mark(letter, star) in Marks(privs[index..]);
        return None;
      }
      CollectedStep(plain, option, Marks(privs[index..]), letters);
      if star {
        option := option + [letters[letter]];
      } else {
        plain := plain + [letters[letter]];
      }
      index := next;
    }
    assert privs[index..] == "" && plain + [] == plain && option + [] == option;
    r := Some((plain, option));
  }

  // -------------------------------------------------------------------------
  // Grants
  // -------------------------------------------------------------------------

  datatype Grant = Grant(grantee: string, privilege: string, grantor: string)

  /** The grants of one object; the value says whether the grantee may pass the privilege on. */
  type Grants = map<Grant, bool>

  function ItemGrants(item: AclItem, letters: map<char, string>): (grants: Grants) {
    var held := HeldBy(Marks(item.privs), letters);
    map g: Grant | g in (set p | p in held :: Grant(item.grantee, p, item.grantor)) :: held[g.privilege]
  }

  function AclGrants(items: seq<AclItem>, letters: map<char, string>): (grants: Grants) {
    if items == [] then map[]
    else AclGrants(items[..|items| - 1], letters) + ItemGrants(items[|items| - 1], letters)
  }

  lemma {:induction false} ItemGrantsMember(item: AclItem, letters: map<char, string>, g: Grant)
    ensures g in ItemGrants(item, letters) <==>
              Gives(item, letters, g)
    ensures g in ItemGrants(item, letters) ==>
              ItemGrants(item, letters)[g] == HeldBy(Marks(item.privs), letters)[g.privilege]
  {
    assert g == Grant(g.grantee, g.privilege, g.grantor);
  }

  predicate Gives(item: AclItem, letters: map<char, string>, g: Grant) {
    item.grantee == g.grantee && item.grantor == g.grantor && g.privilege in HeldBy(Marks(item.privs), letters)
  }

  lemma {:induction false} AclGrantsMember(items: seq<AclItem>, letters: map<char, string>, g: Grant)
    ensures g in AclGrants(items, letters) <==> exists i :: 0 <= i < |items| && Gives(items[i], letters, g)
  {
    if items != [] {
      var last := |items| - 1;
      AclGrantsMember(items[..last], letters, g);
      ItemGrantsMember(items[last], letters, g);
      if i :| 0 <= i < |items| && Gives(items[i], letters, g) {
        assert i == last || items[..last][i] == items[i];
      }
    }
  }

  /** GRANT by the owner (or by a superuser, which PostgreSQL records as the owner): an existing grant
      option is kept. */
  function GrantOne(grants: Grants, g: Grant, option: bool): (after: Grants) {
    grants[g := option || (g in grants && grants[g])]
  }

  function GrantAll(
    grants: Grants, grantee: string, privileges: seq<string>, option: bool, owner: string): (after: Grants)
    decreases |privileges|
  {
    if privileges == [] then grants
    else
      var one := GrantOne(grants, Grant(grantee, privileges[0], owner), option);
      GrantAll(one, grantee, privileges[1..], option, owner)
  }

  /** A grant that the grantee passed on. */
  predicate Dependent(grants: Grants, grantee: string, privileges: seq<string>) {
    grantee != "" && exists g :: g in grants && g.grantor == grantee && g.privilege in privileges
  }

  /** REVOKE without CASCADE, by the owner: refused while someone depends on the grant. */
  function RevokeAll(grants: Grants, grantee: string, privileges: seq<string>, owner: string): (after: Option<Grants>) {
    if Dependent(grants, grantee, privileges) then None
    else
      Some(map g | g in grants && !(g.grantee == grantee && g.grantor == owner && g.privilege in privileges)
             :: grants[g])
  }

  lemma {:induction false} GrantAllAt(
    grants: Grants, grantee: string, privileges: seq<string>, option: bool, owner: string, g: Grant)
    ensures var after := GrantAll(grants, grantee, privileges, option, owner);
            var named := g.grantee == grantee && g.grantor == owner && g.privilege in privileges;
            && (g in after <==> g in grants || named)
            && (g in after ==> after[g] == ((named && option) || (g in grants && grants[g])))
    decreases |privileges|
  {
    if privileges != [] {
      var one := Grant(grantee, privileges[0], owner);
      GrantAllAt(GrantOne(grants, one, option), grantee, privileges[1..], option, owner, g);
      assert g.grantee == grantee && g.grantor == owner && g.privilege == privileges[0] ==> g == one;
      assert privileges == [privileges[0]] + privileges[1..];
    }
  }

  // -------------------------------------------------------------------------
  // Rebuilding a list with GRANT statements
  // -------------------------------------------------------------------------

  datatype GrantStatement = GrantStatement(grantee: string, privileges: seq<string>, option: bool)

  function Stated(grantee: string, privileges: seq<string>, option: bool): (out: seq<GrantStatement>) {
    if privileges == [] then [] else [GrantStatement(grantee, privileges, option)]
  }

  /** _grant_statements: for each entry the plain privileges, then those with grant option. */
  function GrantStatements(items: seq<AclItem>, letters: map<char, string>): (out: seq<GrantStatement>) {
    if items == [] then []
    else
      var item := items[|items| - 1];
      var plain := Labels(Marks(item.privs), letters, false);
      var option := Labels(Marks(item.privs), letters, true);
      GrantStatements(items[..|items| - 1], letters)
      + Stated(item.grantee, plain, false) + Stated(item.grantee, option, true)
  }

  function RunGrants(grants: Grants, statements: seq<GrantStatement>, owner: string): (after: Grants) {
    if statements == [] then grants
    else
      var last := statements[|statements| - 1];
      var before := RunGrants(grants, statements[..|statements| - 1], owner);
      GrantAll(before, last.grantee, last.privileges, last.option, owner)
  }

  ghost predicate Injective(letters: map<char, string>) {
    forall a, b :: a in letters && b in letters && letters[a] == letters[b] ==> a == b
  }

  ghost predicate DistinctLetters(marks: seq<Mark>) {
    forall i, j :: 0 <= i < j < |marks| ==> marks[i].letter != marks[j].letter
  }

  /** What PostgreSQL stores for an object whose grants were all made by its owner: one entry per
      grantee, each letter at most once. */
  ghost predicate OwnerAcl(items: seq<AclItem>, letters: map<char, string>, owner: string) {
    && (forall i :: 0 <= i < |items| ==>
          && items[i].grantor == owner && DistinctLetters(Marks(items[i].privs))
          && Readable(Marks(items[i].privs), letters))
    && (forall i, j :: 0 <= i < j < |items| ==> items[i].grantee != items[j].grantee)
  }

  lemma {:induction false} HeldLabels(marks: seq<Mark>, letters: map<char, string>, p: string)
    requires Injective(letters) && DistinctLetters(marks) && Readable(marks, letters)
    ensures p in HeldBy(marks, letters) <==> p in Labels(marks, letters, false) || p in Labels(marks, letters, true)
    ensures p in HeldBy(marks, letters) ==> (HeldBy(marks, letters)[p] <==> p in Labels(marks, letters, true))
    ensures p in HeldBy(marks, letters) ==> exists m :: m in marks && letters[m.letter] == p
  {
    if marks != [] {
      assert forall m :: m in marks[1..] ==> m in marks;
      HeldLabels(marks[1..], letters, p);
      var first := marks[0];
      assert first in marks;
      assert forall m :: m in marks[1..] ==> letters[m.letter] != letters[first.letter];
    }
  }

  lemma {:induction false} RunStated(
    grants: Grants, statements: seq<GrantStatement>, grantee: string, privileges: seq<string>, option: bool,
    owner: string)
    ensures RunGrants(grants, statements + Stated(grantee, privileges, option), owner)
         == GrantAll(RunGrants(grants, statements, owner), grantee, privileges, option, owner)
  {
    var more := statements + Stated(grantee, privileges, option);
    if privileges == [] {
      assert more == statements;
    } else {
      assert more[..|more| - 1] == statements;
    }
  }

  /** The GRANT statements for an object's entries, run on an object without any grant, rebuild its list
      exactly: grantees, privileges and grant options. */
  lemma {:induction false} Rebuilt(items: seq<AclItem>, letters: map<char, string>, owner: string)
    requires Injective(letters) && OwnerAcl(items, letters, owner)
    ensures RunGrants(map[], GrantStatements(items, letters), owner) == AclGrants(items, letters)
  {
    if items != [] {
      var n := |items| - 1;
      var marks := Marks(items[n].privs);
      var plain, option := Labels(marks, letters, false), Labels(marks, letters, true);
      var rest := GrantStatements(items[..n], letters);
      Rebuilt(items[..n], letters, owner);
      RunStated(map[], rest, items[n].grantee, plain, false, owner);
      RunStated(map[], rest + Stated(items[n].grantee, plain, false), items[n].grantee, option, true, owner);
      RebuiltItem(items, letters, owner);
    }
  }

  /** Entry by entry: `all` is `before` with the grantee's privileges added. */
  ghost predicate Extends(
    before: Grants, all: Grants, grantee: string, plain: seq<string>, option: seq<string>, owner: string, g: Grant)
  {
    var mine := g.grantee == grantee && g.grantor == owner;
    && (mine ==> g !in before)
    && (g in all <==> g in before || (mine && (g.privilege in plain || g.privilege in option)))
    && (g in all ==> all[g] == if mine then g.privilege in option else before[g])
  }

  lemma {:induction false} RebuiltItem(items: seq<AclItem>, letters: map<char, string>, owner: string)
    requires Injective(letters) && OwnerAcl(items, letters, owner) && items != []
    ensures var last := items[|items| - 1];
            var before := AclGrants(items[..|items| - 1], letters);
            var middle := GrantAll(before, last.grantee, Labels(Marks(last.privs), letters, false), false, owner);
            GrantAll(middle, last.grantee, Labels(Marks(last.privs), letters, true), true, owner)
              == AclGrants(items, letters)
  {
    var last := items[|items| - 1];
    var plain, option := Labels(Marks(last.privs), letters, false), Labels(Marks(last.privs), letters, true);
    var before, all := AclGrants(items[..|items| - 1], letters), AclGrants(items, letters);
    forall g ensures Extends(before, all, last.grantee, plain, option, owner, g) {
      RebuiltEntry(items, letters, owner, g);
    }
    ExtendedByGrants(before, all, last.grantee, plain, option, owner);
  }

  lemma {:induction false} ExtendedByGrants(
    before: Grants, all: Grants, grantee: string, plain: seq<string>, option: seq<string>, owner: string)
    requires forall g :: Extends(before, all, grantee, plain, option, owner, g)
    ensures GrantAll(GrantAll(before, grantee, plain, false, owner), grantee, option, true, owner) == all
  {
    var after := GrantAll(GrantAll(before, grantee, plain, false, owner), grantee, option, true, owner);
    forall g
      ensures g in after <==> g in all
      ensures g in after ==> after[g] == all[g]
    {
      assert Extends(before, all, grantee, plain, option, owner, g);
      TwoGrants(before, grantee, plain, option, owner, g);
    }
  }

  lemma {:induction false} TwoGrants(
    before: Grants, grantee: string, plain: seq<string>, option: seq<string>, owner: string, g: Grant)
    requires g.grantee == grantee && g.grantor == owner ==> g !in before
    ensures var after := GrantAll(GrantAll(before, grantee, plain, false, owner), grantee, option, true, owner);
            var mine := g.grantee == grantee && g.grantor == owner;
            && (g in after <==> g in before || (mine && (g.privilege in plain || g.privilege in option)))
            && (g in after ==> after[g] == if mine then g.privilege in option else before[g])
  {
    GrantAllAt(before, grantee, plain, false, owner, g);
    GrantAllAt(GrantAll(before, grantee, plain, false, owner), grantee, option, true, owner, g);
  }

  lemma {:induction false} RebuiltEntry(items: seq<AclItem>, letters: map<char, string>, owner: string, g: Grant)
    requires Injective(letters) && OwnerAcl(items, letters, owner) && items != []
    ensures var last := items[|items| - 1];
            Extends(AclGrants(items[..|items| - 1], letters), AclGrants(items, letters), last.grantee,
                    Labels(Marks(last.privs), letters, false), Labels(Marks(last.privs), letters, true), owner, g)
  {
    var n := |items| - 1;
    HeldLabels(Marks(items[n].privs), letters, g.privilege);
    ItemGrantsMember(items[n], letters, g);
    AclGrantsMember(items[..n], letters, g);
    AclGrantsMember(items, letters, g);
  }
}
