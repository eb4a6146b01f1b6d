/** Per-object fixes: which table grants are offered for revocation, which pairs of fixes conflict, and
    what applying and undoing several of them in any order does (services/sandbox_poc/object_fixes.py,
    object_conflicts in services/sandbox_poc/batch.py). */
module ObjectFixes {
  import opened Wrappers
  import opened Text
  import opened Acl
  import opened ObjectNames

  // -------------------------------------------------------------------------
  // Offers for one table
  // -------------------------------------------------------------------------

  /** What the evidence says of the extension a table belongs to; an older collector lists only the schemas
      of the installed extensions, if it lists them at all. */
  datatype Extension = Owned(name: string) | NotOwned | NotRecorded(schemas: Option<set<string>>)

  datatype TableRow = TableRow(schema: string, table: string, owner: string, items: seq<AclItem>, extension: Extension)

  predicate PossiblyOwned(row: TableRow) {
    match row.extension
    case Owned(_) => true
    case NotOwned => false
    case NotRecorded(schemas) => schemas.None? || row.schema in schemas.value
  }

  /** A table_revoke_dml proposal. */
  datatype Offer = Offer(grantee: string, privileges: seq<string>, option: bool)

  function HeldIn(item: AclItem): (held: map<string, bool>) {
    HeldBy(Marks(item.privs), DML)
  }

  function HeldByGrantee(items: seq<AclItem>, grantee: string): (held: map<string, bool>) {
    if items == [] then map[]
    else
      var last := items[|items| - 1];
      HeldByGrantee(items[..|items| - 1], grantee) + if last.grantee == grantee then HeldIn(last) else map[]
  }

  predicate ForeignGrantor(items: seq<AclItem>, owner: string, grantee: string) {
    exists i | i in items :: i.grantee == grantee && HeldIn(i) != map[] && i.grantor != owner
  }

  predicate PassedOn(items: seq<AclItem>, grantee: string, held: map<string, bool>) {
    grantee != "" && exists i | i in items :: i.grantor == grantee && HeldIn(i).Keys * held.Keys != {}
  }

  /** A grantee whose write privileges can be revoked and granted again exactly. */
  predicate Eligible(row: TableRow, grantee: string) {
    var held := HeldByGrantee(row.items, grantee);
    && !PossiblyOwned(row) && grantee != row.owner && held != map[]
    && grantee != "PUBLIC" && !Predefined(grantee)
    && !ForeignGrantor(row.items, row.owner, grantee)
    && !PassedOn(row.items, grantee, held)
  }

  function Having(order: seq<string>, held: map<string, bool>, option: bool): (privileges: seq<string>)
    ensures forall p :: p in privileges <==> p in order && p in held && held[p] == option
  {
    if order == [] then []
    else
      (if order[0] in held && held[order[0]] == option then [order[0]] else []) + Having(order[1..], held, option)
  }

  predicate Offers(row: TableRow, offer: Offer) {
    && Eligible(row, offer.grantee)
    && offer.privileges == Having(DML_ORDER, HeldByGrantee(row.items, offer.grantee), offer.option)
    && offer.privileges != []
  }

  /** The offers for one grantee: privileges without grant option first. */
  method OffersFor(row: TableRow, grantee: string) returns (offers: seq<Offer>)
    ensures forall o :: o in offers <==> o.grantee == grantee && Offers(row, o)
    ensures |offers| <= 2 && (|offers| == 2 ==> !offers[0].option && offers[1].option)
  {
    var held := HeldByGrantee(row.items, grantee);
    if !Eligible(row, grantee) {
      return [];
    }
    var plain := Having(DML_ORDER, held, false);
    var option := Having(DML_ORDER, held, true);
    offers := (if plain == [] then [] else [Offer(grantee, plain, false)])
              + (if option == [] then [] else [Offer(grantee, option, true)]);
  }

  ghost predicate Sorted(texts: seq<string>) {
    forall i, j :: 0 <= i < j < |texts| ==> LessText(texts[i], texts[j])
  }

  lemma {:induction false} InsertedSorted(texts: seq<string>, k: nat, t: string)
    requires Sorted(texts) && k <= |texts|
    requires (forall i :: 0 <= i < k ==> LessText(texts[i], t)) && (k < |texts| ==> LessText(t, texts[k]))
    ensures Sorted(texts[..k] + [t] + texts[k..])
  {
    var all := texts[..k] + [t] + texts[k..];
    forall i, j | 0 <= i < j < |all| ensures LessText(all[i], all[j]) {
      if i == k && j > k + 1 {
        LessTextTransitive(t, texts[k], texts[j - 1]);
      }
    }
  }

  /** Adds a text to a sorted list without repeats. */
  method Insert(texts: seq<string>, t: string) returns (all: seq<string>)
    requires Sorted(texts)
    ensures Sorted(all) && forall x :: x in all <==> x in texts || x == t
  {
    var k := 0;
    while k < |texts| && LessText(texts[k], t)
      invariant k <= |texts| && forall i :: 0 <= i < k ==> LessText(texts[i], t)
    {
      k := k + 1;
    }
    if k < |texts| {
      LessTextTotal(texts[k], t);
      if texts[k] == t {
        return texts;
      }
    }
    InsertedSorted(texts, k, t);
    assert texts == texts[..k] + texts[k..];
    all := texts[..k] + [t] + texts[k..];
  }

  predicate Grants(item: AclItem, owner: string) {
    HeldIn(item) != map[] && item.grantee != owner
  }

  /** The grantees of the table, sorted. */
  method Grantees(row: TableRow) returns (grantees: seq<string>)
    ensures Sorted(grantees)
    ensures forall g :: g in grantees <==>
              exists i :: 0 <= i < |row.items| && row.items[i].grantee == g && Grants(row.items[i], row.owner)
  {
    grantees := [];
    for i := 0 to |row.items|
      invariant Sorted(grantees)
      invariant forall g :: g in grantees <==>
                  exists k :: 0 <= k < i && row.items[k].grantee == g && Grants(row.items[k], row.owner)
    {
      if Grants(row.items[i], row.owner) {
        grantees := Insert(grantees, row.items[i].grantee);
      }
    }
  }

  /** By grantee, the privileges without grant option first. */
  predicate OfferBefore(a: Offer, b: Offer) {
    LessText(a.grantee, b.grantee) || (a.grantee == b.grantee && !a.option && b.option)
  }

  /** The offers of these grantees, in order. */
  ghost predicate OffersOf(row: TableRow, grantees: seq<string>, offers: seq<Offer>) {
    && (forall o :: o in offers <==> o.grantee in grantees && Offers(row, o))
    && (forall i, j :: 0 <= i < j < |offers| ==> OfferBefore(offers[i], offers[j]))
  }

  lemma {:induction false} OneMoreGrantee(
    row: TableRow, grantees: seq<string>, offers: seq<Offer>, grantee: string, more: seq<Offer>)
    requires OffersOf(row, grantees, offers) && OffersOf(row, [grantee], more)
    requires forall g :: g in grantees ==> LessText(g, grantee)
    ensures OffersOf(row, grantees + [grantee], offers + more)
  {
    var all := offers + more;
    forall i, j | 0 <= i < j < |all| ensures OfferBefore(all[i], all[j]) {
      if i < |offers| <= j {
        assert offers[i] in offers && more[j - |offers|] in more;
      }
    }
    forall o ensures o in all <==> o.grantee in grantees + [grantee] && Offers(row, o) {
      assert o in all <==> o in offers || o in more;
    }
  }

  /** _table_dml for one row: every offer of every grantee, sorted. */
  method TableDml(row: TableRow) returns (offers: seq<Offer>)
    ensures forall o :: o in offers <==> Offers(row, o)
    ensures forall i, j :: 0 <= i < j < |offers| ==> OfferBefore(offers[i], offers[j])
  {
    if PossiblyOwned(row) {
      return [];
    }
    offers := [];
    var grantees := Grantees(row);
    for i := 0 to |grantees|
      invariant OffersOf(row, grantees[..i], offers)
    {
      var more := OffersFor(row, grantees[i]);
      OneMoreGrantee(row, grantees[..i], offers, grantees[i], more);
      assert grantees[..i + 1] == grantees[..i] + [grantees[i]];
      offers := offers + more;
    }
    assert grantees[..|grantees|] == grantees;
    forall o | Offers(row, o) ensures o.grantee in grantees {
      HeldByListed(row.items, o.grantee);
    }
  }

  lemma {:induction false} HeldByListed(items: seq<AclItem>, grantee: string)
    requires HeldByGrantee(items, grantee) != map[]
    ensures exists i :: 0 <= i < |items| && items[i].grantee == grantee && HeldIn(items[i]) != map[]
  {
    var rest, last := items[..|items| - 1], items[|items| - 1];
    if last.grantee != grantee || HeldIn(last) == map[] {
      assert HeldByGrantee(items, grantee) == HeldByGrantee(rest, grantee);
      HeldByListed(rest, grantee);
      var i :| 0 <= i < |rest| && rest[i].grantee == grantee && HeldIn(rest[i]) != map[];
      assert items[i] == rest[i];
    }
  }

  lemma {:induction false} HeldAreDml(marks: seq<Mark>)
    ensures forall p :: p in HeldBy(marks, DML) ==> p in DML_ORDER
  {
    if marks != [] {
      HeldAreDml(marks[1..]);
    }
  }

  lemma {:induction false} HeldByGranteeAreDml(items: seq<AclItem>, grantee: string)
    ensures forall p :: p in HeldByGrantee(items, grantee) ==> p in DML_ORDER
  {
    if items != [] {
      HeldByGranteeAreDml(items[..|items| - 1], grantee);
      HeldAreDml(Marks(items[|items| - 1].privs));
    }
  }

  /** The offers partition an eligible grantee's write privileges by grant option. */
  lemma {:induction false} OffersPartition(row: TableRow, grantee: string, p: string)
    requires Eligible(row, grantee)
    ensures var held := HeldByGrantee(row.items, grantee);
            && (p in held ==>
                  exists o :: Offers(row, o) && o.grantee == grantee && p in o.privileges && o.option == held[p])
            && (forall o :: Offers(row, o) && o.grantee == grantee && p in o.privileges ==>
                p in held && o.option == held[p])
  {
    var held := HeldByGrantee(row.items, grantee);
    HeldByGranteeAreDml(row.items, grantee);
    if p in held {
      var o := Offer(grantee, Having(DML_ORDER, held, held[p]), held[p]);
      assert p in o.privileges && Offers(row, o);
    }
  }

  /** What a grantee holds is what the object's list grants to it, when the owner granted all of it. */
  lemma {:induction false} HeldIsGranted(items: seq<AclItem>, owner: string, grantee: string, p: string)
    requires !ForeignGrantor(items, owner, grantee)
    ensures var g := Grant(grantee, p, owner);
            && (p in HeldByGrantee(items, grantee) <==> g in AclGrants(items, DML))
            && (g in AclGrants(items, DML) ==> AclGrants(items, DML)[g] == HeldByGrantee(items, grantee)[p])
    ensures forall grantor :: grantor != owner ==> Grant(grantee, p, grantor) !in AclGrants(items, DML)
  {
    if items != [] {
      var last := items[|items| - 1];
      assert last in items && forall i :: i in items[..|items| - 1] ==> i in items;
      HeldIsGranted(items[..|items| - 1], owner, grantee, p);
      ItemGrantsMember(last, DML, Grant(grantee, p, owner));
      forall grantor | grantor != owner ensures Grant(grantee, p, grantor) !in ItemGrants(last, DML) {
        ItemGrantsMember(last, DML, Grant(grantee, p, grantor));
      }
    }
  }

  lemma {:induction false} GrantPassesOn(items: seq<AclItem>, grantee: string, held: map<string, bool>, g: Grant)
    requires g in AclGrants(items, DML) && g.grantor == grantee != "" && g.privilege in held
    ensures PassedOn(items, grantee, held)
  {
    AclGrantsMember(items, DML, g);
    var i :| 0 <= i < |items| && Gives(items[i], DML, g);
    var item := items[i];
    assert item in items && g.privilege in HeldIn(item).Keys * held.Keys;
  }

  /** The write privileges of a whole table list are the ones the offers look at. */
  lemma {:induction false} WriteMarks(marks: seq<Mark>, p: string)
    requires p in DML_ORDER
    ensures p in HeldBy(marks, DML) <==> p in HeldBy(marks, TABLE_PRIVILEGES)
    ensures p in HeldBy(marks, DML) ==> HeldBy(marks, DML)[p] == HeldBy(marks, TABLE_PRIVILEGES)[p]
  {
    if marks != [] {
      WriteMarks(marks[1..], p);
    }
  }

  lemma {:induction false} WriteGrants(items: seq<AclItem>, g: Grant)
    requires g.privilege in DML_ORDER
    ensures g in AclGrants(items, DML) <==> g in AclGrants(items, TABLE_PRIVILEGES)
    ensures g in AclGrants(items, DML) ==> AclGrants(items, DML)[g] == AclGrants(items, TABLE_PRIVILEGES)[g]
  {
    if items != [] {
      var last := items[|items| - 1];
      WriteGrants(items[..|items| - 1], g);
      WriteMarks(Marks(last.privs), g.privilege);
      ItemGrantsMember(last, DML, g);
      ItemGrantsMember(last, TABLE_PRIVILEGES, g);
    }
  }

  /** The grantee holds exactly these privileges with this grant option, all from the owner, and passed
      none of them on. */
  predicate HeldFromOwner(grants: Grants, offer: Offer, owner: string) {
    && !Dependent(grants, offer.grantee, offer.privileges)
    && (forall p :: p in offer.privileges ==>
          Grant(offer.grantee, p, owner) in grants && grants[Grant(offer.grantee, p, owner)] == offer.option)
    && (forall g :: g in grants && g.grantee == offer.grantee && g.privilege in offer.privileges ==> g.grantor == owner)
  }

  lemma {:induction false} OfferHeldAt(row: TableRow, offer: Offer, g: Grant)
    requires Offers(row, offer) && g.privilege in offer.privileges
    ensures var grants := AclGrants(row.items, TABLE_PRIVILEGES);
            && (g in grants && offer.grantee != "" ==> g.grantor != offer.grantee)
            && (g == Grant(offer.grantee, g.privilege, row.owner) ==> g in grants && grants[g] == offer.option)
            && (g in grants && g.grantee == offer.grantee ==> g.grantor == row.owner)
  {
    WriteGrants(row.items, g);
    HeldIsGranted(row.items, row.owner, offer.grantee, g.privilege);
    assert g == Grant(g.grantee, g.privilege, g.grantor);
    if g in AclGrants(row.items, DML) && g.grantor == offer.grantee != "" {
      GrantPassesOn(row.items, offer.grantee, HeldByGrantee(row.items, offer.grantee), g);
    }
  }

  lemma {:induction false} OfferIsHeld(row: TableRow, offer: Offer)
    requires Offers(row, offer)
    ensures HeldFromOwner(AclGrants(row.items, TABLE_PRIVILEGES), offer, row.owner)
  {
    forall g: Grant | g.privilege in offer.privileges
      ensures g in AclGrants(row.items, TABLE_PRIVILEGES) && offer.grantee != "" ==> g.grantor != offer.grantee
      ensures g == Grant(offer.grantee, g.privilege, row.owner) ==>
                g in AclGrants(row.items, TABLE_PRIVILEGES) && AclGrants(row.items, TABLE_PRIVILEGES)[g] == offer.option
      ensures g in AclGrants(row.items, TABLE_PRIVILEGES) && g.grantee == offer.grantee ==> g.grantor == row.owner
    {
      OfferHeldAt(row, offer, g);
    }
  }

  /** The list without the offered privileges of the grantee. */
  function NotOffered(grants: Grants, offer: Offer): (rest: Grants) {
    map g | g in grants && !(g.grantee == offer.grantee && g.privilege in offer.privileges) :: grants[g]
  }

  /** On the table's whole list, an offered revocation never needs CASCADE, removes the grantee's offered
      privileges and nothing else, and the rendered GRANT restores the list exactly, grant option included. */
  lemma {:induction false} OfferIsReversible(row: TableRow, offer: Offer)
    requires Offers(row, offer)
    ensures var grants := AclGrants(row.items, TABLE_PRIVILEGES);
            var revoked := RevokeAll(grants, offer.grantee, offer.privileges, row.owner);
            && revoked.Some?
            && revoked.value == NotOffered(grants, offer)
            && GrantAll(revoked.value, offer.grantee, offer.privileges, offer.option, row.owner) == grants
  {
    OfferIsHeld(row, offer);
    RevokeExactly(AclGrants(row.items, TABLE_PRIVILEGES), offer, row.owner);
    GrantedAgain(AclGrants(row.items, TABLE_PRIVILEGES), offer, row.owner);
  }

  lemma {:induction false} RevokeExactly(grants: Grants, offer: Offer, owner: string)
    requires HeldFromOwner(grants, offer, owner)
    ensures RevokeAll(grants, offer.grantee, offer.privileges, owner) == Some(NotOffered(grants, offer))
  {
    assert RevokeAll(grants, offer.grantee, offer.privileges, owner).value == NotOffered(grants, offer);
  }

  lemma {:induction false} GrantedAgain(grants: Grants, offer: Offer, owner: string)
    requires HeldFromOwner(grants, offer, owner)
    ensures GrantAll(NotOffered(grants, offer), offer.grantee, offer.privileges, offer.option, owner) == grants
  {
    var revoked := NotOffered(grants, offer);
    var again := GrantAll(revoked, offer.grantee, offer.privileges, offer.option, owner);
    forall g
      ensures g in again <==> g in grants
      ensures g in again ==> again[g] == grants[g]
    {
      GrantAllAt(revoked, offer.grantee, offer.privileges, offer.option, owner, g);
      assert g == Grant(g.grantee, g.privilege, g.grantor);
    }
    assert again == grants;
  }

  // -------------------------------------------------------------------------
  // Several fixes at once
  // -------------------------------------------------------------------------

  /** What one object fix does: writes a role attribute or function flag, or revokes grants. */
  datatype ObjectChange =
    | SetComponent(key: string, attribute: string, value: string, prior: string)
    | RevokeExecute(key: string, owner: string)
    | RevokeDml(key: string, owner: string, offer: Offer)

  datatype Objects = Objects(values: map<(string, string), string>, lists: map<string, Grants>)

  /** The attributes that role and function fixes write, apart from access lists. */
  predicate RoleOrFunctionAttribute(attribute: string) {
    || attribute in {"connection_limit", "login", "security"}
    || (|attribute| >= 10 && attribute[..10] == "attribute:")
  }

  /** The three privileges, the grantee is never the role named PUBLIC, and the other attributes are the
      ones role and function fixes use. */
  ghost predicate ValidChange(c: ObjectChange) {
    match c
    case SetComponent(_, attribute, _, _) =>
      RoleOrFunctionAttribute(attribute)
    case RevokeExecute(_, _) => true
    case RevokeDml(_, _, offer) =>
      offer.privileges != [] && offer.grantee != "PUBLIC" && forall p :: p in offer.privileges ==> p in DML_ORDER
  }

  function Label(grantee: string): (text: string) {
    if grantee == "" then "PUBLIC" else grantee
  }

  function PrivilegeAttribute(grantee: string, privilege: string): (text: string) {
    "acl:" + Label(grantee) + ":" + privilege
  }

  /** _attributes: the (object, attribute) pairs one fix changes. */
  function Attributes(c: ObjectChange): (pairs: set<(string, string)>) {
    match c
    case SetComponent(key, attribute, _, _) => {(key, attribute)}
    case RevokeExecute(key, _) => {(key, "acl:PUBLIC")}
    case RevokeDml(key, _, offer) => set p | p in offer.privileges :: (key, PrivilegeAttribute(offer.grantee, p))
  }

  /** object_conflicts: whether no attribute is changed twice. */
  method NoConflicts(changes: seq<ObjectChange>) returns (ok: bool)
    ensures ok <==> forall i, j :: 0 <= i < j < |changes| ==> Attributes(changes[i]) !! Attributes(changes[j])
  {
    var seen: set<(string, string)> := {};
    for i := 0 to |changes|
      invariant forall k :: 0 <= k < i ==> Attributes(changes[k]) <= seen
      invariant forall a :: a in seen ==> exists k :: 0 <= k < i && a in Attributes(changes[k])
      invariant forall k, j :: 0 <= k < j < i ==> Attributes(changes[k]) !! Attributes(changes[j])
    {
      var pairs := Attributes(changes[i]);
      if pairs * seen != {} {
        ghost var a :| a in pairs * seen;
        ghost var k :| 0 <= k < i && a in Attributes(changes[k]);
        assert !(Attributes(changes[k]) !! Attributes(changes[i]));
        return false;
      }
      seen := seen + pairs;
    }
    ok := true;
  }

  predicate Covers(c: ObjectChange, grantee: string, privilege: string) {
    match c
    case SetComponent(_, _, _, _) => false
    case RevokeExecute(_, _) => grantee == "" && privilege == "EXECUTE"
    case RevokeDml(_, _, offer) => grantee == offer.grantee && privilege in offer.privileges
  }

  /** Two fixes write the same component: the same value, or the same privilege of the same grantee. */
  ghost predicate Overlap(c: ObjectChange, d: ObjectChange) {
    && c.key == d.key
    && ((c.SetComponent? && d.SetComponent? && c.attribute == d.attribute)
        || exists grantee, privilege :: Covers(c, grantee, privilege) && Covers(d, grantee, privilege))
  }

  lemma {:induction false} PrivilegeAttributesDiffer(g: string, p: string, h: string, q: string)
    requires p in DML_ORDER && q in DML_ORDER && g != "PUBLIC" && h != "PUBLIC"
    ensures PrivilegeAttribute(g, p) == PrivilegeAttribute(h, q) <==> g == h && p == q
    ensures PrivilegeAttribute(g, p) != "acl:PUBLIC"
  {
    var a, b := PrivilegeAttribute(g, p), PrivilegeAttribute(h, q);
    assert |p| == |q| == 6;
    assert a[|a| - 6..] == p && b[|b| - 6..] == q;
    assert a[4..|a| - 7] == Label(g) && b[4..|b| - 7] == Label(h);
    assert a[|a| - 7] == ':';
  }

  lemma {:induction false} PrivilegeAttributeStart(attribute: string, g: string, p: string)
    requires RoleOrFunctionAttribute(attribute)
    ensures attribute != PrivilegeAttribute(g, p) && attribute != "acl:PUBLIC"
  {
    assert PrivilegeAttribute(g, p)[0] == 'a' && PrivilegeAttribute(g, p)[1] == 'c' && "acl:PUBLIC"[1] == 'c';
    assert "connection_limit"[1] == 'o' && "login"[1] == 'o' && "security"[0] == 's';
    if |attribute| >= 10 && attribute[..10] == "attribute:" {
      assert attribute[1] == attribute[..10][1];
    }
  }

  lemma {:induction false} DmlOverlap(c: ObjectChange, d: ObjectChange)
    requires ValidChange(c) && ValidChange(d) && c.RevokeDml? && d.RevokeDml?
    ensures Attributes(c) !! Attributes(d) <==> !Overlap(c, d)
  {
    forall p, q | p in c.offer.privileges && q in d.offer.privileges
      ensures PrivilegeAttribute(c.offer.grantee, p) == PrivilegeAttribute(d.offer.grantee, q)
              <==> c.offer.grantee == d.offer.grantee && p == q
    {
      PrivilegeAttributesDiffer(c.offer.grantee, p, d.offer.grantee, q);
    }
    if Overlap(c, d) {
      var grantee, p :| Covers(c, grantee, p) && Covers(d, grantee, p);
      assert (c.key, PrivilegeAttribute(grantee, p)) in Attributes(c) * Attributes(d);
    } else if !(Attributes(c) !! Attributes(d)) {
      var a :| a in Attributes(c) && a in Attributes(d);
      var p :| p in c.offer.privileges && a == (c.key, PrivilegeAttribute(c.offer.grantee, p));
      var q :| q in d.offer.privileges && a == (d.key, PrivilegeAttribute(d.offer.grantee, q));
      assert Covers(c, c.offer.grantee, p) && Covers(d, c.offer.grantee, p);
    }
  }

  /** The textual attributes of two fixes meet exactly when the fixes write the same component. */
  lemma {:induction false} ConflictIsOverlap(c: ObjectChange, d: ObjectChange)
    requires ValidChange(c) && ValidChange(d)
    ensures Attributes(c) !! Attributes(d) <==> !Overlap(c, d)
  {
    match (c, d) {
      case (RevokeDml(_, _, _), RevokeDml(_, _, _)) => DmlOverlap(c, d);
      case (RevokeDml(_, _, offer), RevokeExecute(_, _)) => ExecuteDiffers(offer);
      case (RevokeExecute(_, _), RevokeDml(_, _, offer)) => ExecuteDiffers(offer);
      case (SetComponent(_, attribute, _, _), _) => SetDiffers(attribute, d);
      case (_, SetComponent(_, attribute, _, _)) => SetDiffers(attribute, c);
      case (RevokeExecute(_, _), RevokeExecute(_, _)) =>
        assert Covers(c, "", "EXECUTE") && Covers(d, "", "EXECUTE");
    }
  }

  lemma {:induction false} ExecuteDiffers(offer: Offer)
    requires forall p :: p in offer.privileges ==> p in DML_ORDER
    requires offer.grantee != "PUBLIC"
    ensures forall p :: p in offer.privileges ==> PrivilegeAttribute(offer.grantee, p) != "acl:PUBLIC"
  {
    forall p | p in offer.privileges ensures PrivilegeAttribute(offer.grantee, p) != "acl:PUBLIC" {
      PrivilegeAttributesDiffer(offer.grantee, p, offer.grantee, p);
    }
  }

  lemma {:induction false} SetDiffers(attribute: string, d: ObjectChange)
    requires RoleOrFunctionAttribute(attribute)
    ensures !d.SetComponent? ==> forall pair :: pair in Attributes(d) ==> pair.1 != attribute
  {
    if !d.SetComponent? {
      forall pair | pair in Attributes(d) ensures pair.1 != attribute {
        if d.RevokeDml? {
          var p :| p in d.offer.privileges && pair == (d.key, PrivilegeAttribute(d.offer.grantee, p));
          PrivilegeAttributeStart(attribute, d.offer.grantee, p);
        } else {
          PrivilegeAttributeStart(attribute, "", "");
        }
      }
    }
  }

  // -------------------------------------------------------------------------
  // Any order
  // -------------------------------------------------------------------------

  function OfferOf(c: ObjectChange): (offer: Offer)
    requires !c.SetComponent?
  {
    if c.RevokeExecute? then Offer("", ["EXECUTE"], false) else c.offer
  }

  /** Applying one fix in its transaction; None when the server refuses. */
  function Apply(s: Objects, c: ObjectChange): (after: Option<Objects>) {
    if c.SetComponent? then
      if (c.key, c.attribute) !in s.values then None
      else Some(s.(values := s.values[(c.key, c.attribute) := c.value]))
    else if c.key !in s.lists then None
    else
      match RevokeAll(s.lists[c.key], OfferOf(c).grantee, OfferOf(c).privileges, c.owner)
      case None => None
      case Some(grants) => Some(s.(lists := s.lists[c.key := grants]))
  }

  function Undo(s: Objects, c: ObjectChange): (after: Objects) {
    if c.SetComponent? then s.(values := s.values[(c.key, c.attribute) := c.prior])
    else if c.key !in s.lists then s
    else
      var offer := OfferOf(c);
      s.(lists := s.lists[c.key := GrantAll(s.lists[c.key], offer.grantee, offer.privileges, offer.option, c.owner)])
  }

  /** The statements of the fix and of its rollback find what they expect. */
  predicate Ready(s: Objects, c: ObjectChange) {
    if c.SetComponent? then (c.key, c.attribute) in s.values && s.values[(c.key, c.attribute)] == c.prior
    else c.key in s.lists && HeldFromOwner(s.lists[c.key], OfferOf(c), c.owner)
  }

  /** predicate: the wanted state is visible. */
  predicate Fixed(s: Objects, c: ObjectChange) {
    if c.SetComponent? then (c.key, c.attribute) in s.values && s.values[(c.key, c.attribute)] == c.value
    else
      && c.key in s.lists
      && forall g :: g in s.lists[c.key] ==> !(g.grantee == OfferOf(c).grantee && g.privilege in OfferOf(c).privileges)
  }

  ghost predicate Sets(c: ObjectChange, slot: (string, string)) {
    c.SetComponent? && (c.key, c.attribute) == slot
  }

  ghost predicate Revokes(c: ObjectChange, key: string, g: Grant) {
    !c.SetComponent? && c.key == key && g.grantee == OfferOf(c).grantee && g.privilege in OfferOf(c).privileges
  }

  ghost predicate SlotTarget(s: Objects, done: set<ObjectChange>, t: Objects, slot: (string, string))
    requires slot in s.values && slot in t.values
  {
    && (forall c :: c in done && Sets(c, slot) ==> t.values[slot] == c.value)
    && ((forall c :: c in done ==> !Sets(c, slot)) ==> t.values[slot] == s.values[slot])
  }

  ghost predicate ListTarget(s: Objects, done: set<ObjectChange>, t: Objects, key: string, g: Grant)
    requires key in s.lists && key in t.lists
  {
    && (g in t.lists[key] <==> g in s.lists[key] && forall c :: c in done ==> !Revokes(c, key, g))
    && (g in t.lists[key] ==> t.lists[key][g] == s.lists[key][g])
  }

  /** t is s with exactly the fixes in `done` applied. */
  ghost predicate Target(s: Objects, done: set<ObjectChange>, t: Objects) {
    && t.values.Keys == s.values.Keys && t.lists.Keys == s.lists.Keys
    && (forall slot :: slot in s.values ==> SlotTarget(s, done, t, slot))
    && (forall key, g :: key in s.lists ==> ListTarget(s, done, t, key, g))
  }

  /** The set of applied fixes determines the state, whatever the order was. */
  lemma {:induction false} TargetUnique(s: Objects, done: set<ObjectChange>, t: Objects, u: Objects)
    requires Target(s, done, t) && Target(s, done, u)
    ensures t == u
  {
    forall slot | slot in s.values ensures t.values[slot] == u.values[slot] {
      assert SlotTarget(s, done, t, slot) && SlotTarget(s, done, u, slot);
      if c :| c in done && Sets(c, slot) {
        assert t.values[slot] == c.value;
      }
    }
    forall key | key in s.lists ensures t.lists[key] == u.lists[key] {
      forall g
        ensures g in t.lists[key] <==> g in u.lists[key]
        ensures g in t.lists[key] ==> t.lists[key][g] == u.lists[key][g]
      {
        assert ListTarget(s, done, t, key, g) && ListTarget(s, done, u, key, g);
      }
    }
  }

  lemma {:induction false} NothingDone(s: Objects)
    ensures Target(s, {}, s)
  {
  }

  /** The fixes were accepted together: valid, without conflicts, and each found as recorded. */
  ghost predicate Accepted(s: Objects, fixes: set<ObjectChange>) {
    && (forall c :: c in fixes ==> ValidChange(c) && Ready(s, c))
    && (forall c, d :: c in fixes && d in fixes && c != d ==> Attributes(c) !! Attributes(d))
  }

  lemma {:induction false} NoOverlap(s: Objects, fixes: set<ObjectChange>, c: ObjectChange, d: ObjectChange)
    requires Accepted(s, fixes) && c in fixes && d in fixes && c != d
    ensures forall slot :: !(Sets(c, slot) && Sets(d, slot))
    ensures forall key, g :: !(Revokes(c, key, g) && Revokes(d, key, g))
  {
    ConflictIsOverlap(c, d);
    forall key, g | Revokes(c, key, g) ensures !Revokes(d, key, g) {
      assert Covers(c, g.grantee, g.privilege);
    }
  }

  /** Applying one more accepted fix succeeds, whichever of the others came first. */
  lemma {:induction false} ApplyStep(
    s: Objects, fixes: set<ObjectChange>, done: set<ObjectChange>, t: Objects, c: ObjectChange)
    requires Accepted(s, fixes) && done <= fixes && c in fixes && c !in done && Target(s, done, t)
    ensures Apply(t, c).Some? && Target(s, done + {c}, Apply(t, c).value)
  {
    forall d | d in done
      ensures forall slot :: !(Sets(c, slot) && Sets(d, slot))
      ensures forall key, g :: !(Revokes(c, key, g) && Revokes(d, key, g))
    {
      NoOverlap(s, fixes, c, d);
    }
    if c.SetComponent? {
      SetStep(s, done, t, c);
    } else {
      StillHeld(s, done, t, c);
      RevokeExactly(t.lists[c.key], OfferOf(c), c.owner);
      RevokeStep(s, done, t, c);
    }
  }

  lemma {:induction false} SetStep(s: Objects, done: set<ObjectChange>, t: Objects, c: ObjectChange)
    requires c.SetComponent? && Ready(s, c) && Target(s, done, t)
    requires forall d, slot :: d in done ==> !(Sets(c, slot) && Sets(d, slot))
    ensures Apply(t, c).Some? && Target(s, done + {c}, Apply(t, c).value)
  {
    var u := Apply(t, c).value;
    forall slot | slot in s.values ensures SlotTarget(s, done + {c}, u, slot) {
      assert SlotTarget(s, done, t, slot);
    }
    forall key, g | key in s.lists ensures ListTarget(s, done + {c}, u, key, g) {
      assert ListTarget(s, done, t, key, g);
    }
  }

  lemma {:induction false} StillHeld(s: Objects, done: set<ObjectChange>, t: Objects, c: ObjectChange)
    requires !c.SetComponent? && Ready(s, c) && Target(s, done, t)
    requires forall d, key, g :: d in done ==> !(Revokes(c, key, g) && Revokes(d, key, g))
    ensures c.key in t.lists && HeldFromOwner(t.lists[c.key], OfferOf(c), c.owner)
  {
    forall g ensures g in t.lists[c.key] ==> g in s.lists[c.key]
             ensures Revokes(c, c.key, g) && g in s.lists[c.key] ==>
                       g in t.lists[c.key] && t.lists[c.key][g] == s.lists[c.key][g]
    {
      assert ListTarget(s, done, t, c.key, g);
    }
  }

  lemma {:induction false} RevokeStep(s: Objects, done: set<ObjectChange>, t: Objects, c: ObjectChange)
    requires !c.SetComponent? && c.key in t.lists && Target(s, done, t)
    requires RevokeAll(t.lists[c.key], OfferOf(c).grantee, OfferOf(c).privileges, c.owner)
          == Some(NotOffered(t.lists[c.key], OfferOf(c)))
    ensures Apply(t, c).Some? && Target(s, done + {c}, Apply(t, c).value)
  {
    var u := Apply(t, c).value;
    forall slot | slot in s.values ensures SlotTarget(s, done + {c}, u, slot) {
      assert SlotTarget(s, done, t, slot);
    }
    forall key, g | key in s.lists ensures ListTarget(s, done + {c}, u, key, g) {
      assert ListTarget(s, done, t, key, g);
    }
  }

  /** Undoing any one of the applied fixes leaves exactly the others applied. */
  lemma {:induction false} UndoStep(
    s: Objects, fixes: set<ObjectChange>, done: set<ObjectChange>, t: Objects, c: ObjectChange)
    requires Accepted(s, fixes) && done <= fixes && c in done && Target(s, done, t)
    ensures Target(s, done - {c}, Undo(t, c))
  {
    forall d | d in done - {c}
      ensures forall slot :: !(Sets(c, slot) && Sets(d, slot))
      ensures forall key, g :: !(Revokes(c, key, g) && Revokes(d, key, g))
    {
      NoOverlap(s, fixes, c, d);
    }
    var u := Undo(t, c);
    forall slot | slot in s.values ensures SlotTarget(s, done - {c}, u, slot) {
      assert SlotTarget(s, done, t, slot);
    }
    forall key, g | key in s.lists ensures ListTarget(s, done - {c}, u, key, g) {
      assert ListTarget(s, done, t, key, g);
      UndoneEntry(s, done, t, c, key, g);
    }
  }

  lemma {:induction false} UndoneEntry(
    s: Objects, done: set<ObjectChange>, t: Objects, c: ObjectChange, key: string, g: Grant)
    requires c in done && Ready(s, c) && Target(s, done, t) && key in s.lists
    requires forall d, k, h :: d in done - {c} ==> !(Revokes(c, k, h) && Revokes(d, k, h))
    ensures ListTarget(s, done - {c}, Undo(t, c), key, g)
  {
    assert ListTarget(s, done, t, key, g);
    if !c.SetComponent? && c.key == key {
      GrantAllAt(t.lists[key], OfferOf(c).grantee, OfferOf(c).privileges, OfferOf(c).option, c.owner, g);
      assert g == Grant(g.grantee, g.privilege, g.grantor);
    }
  }

  function ApplyAll(s: Objects, order: seq<ObjectChange>): (after: Option<Objects>) {
    if order == [] then Some(s)
    else
      match ApplyAll(s, order[..|order| - 1])
      case None => None
      case Some(t) => Apply(t, order[|order| - 1])
  }

  function UndoAll(s: Objects, order: seq<ObjectChange>): (after: Objects) {
    if order == [] then s else Undo(UndoAll(s, order[..|order| - 1]), order[|order| - 1])
  }

  ghost predicate Once(order: seq<ObjectChange>) {
    forall i, j :: 0 <= i < j < |order| ==> order[i] != order[j]
  }

  function Members(order: seq<ObjectChange>): (all: set<ObjectChange>) {
    set c | c in order
  }

  lemma {:induction false} AppliedTarget(s: Objects, fixes: set<ObjectChange>, order: seq<ObjectChange>)
    requires Accepted(s, fixes) && Members(order) <= fixes && Once(order)
    ensures ApplyAll(s, order).Some? && Target(s, Members(order), ApplyAll(s, order).value)
  {
    if order == [] {
      NothingDone(s);
    } else {
      var n := |order| - 1;
      assert order == order[..n] + [order[n]];
      AppliedTarget(s, fixes, order[..n]);
      ApplyStep(s, fixes, Members(order[..n]), ApplyAll(s, order[..n]).value, order[n]);
      assert Members(order) == Members(order[..n]) + {order[n]};
    }
  }

  lemma {:induction false} UndoneTarget(
    s: Objects, fixes: set<ObjectChange>, done: set<ObjectChange>, t: Objects, order: seq<ObjectChange>)
    requires Accepted(s, fixes) && done <= fixes && Members(order) <= done && Once(order) && Target(s, done, t)
    ensures Target(s, done - Members(order), UndoAll(t, order))
  {
    if order == [] {
      assert done - Members(order) == done;
    } else {
      var rest, last := order[..|order| - 1], order[|order| - 1];
      LastMember(order);
      UndoneTarget(s, fixes, done, t, rest);
      UndoStep(s, fixes, done - Members(rest), UndoAll(t, rest), last);
      assert done - Members(order) == done - Members(rest) - {last};
    }
  }

  lemma {:induction false} LastMember(order: seq<ObjectChange>)
    requires Once(order) && order != []
    ensures var rest, last := order[..|order| - 1], order[|order| - 1];
            Once(rest) && last !in Members(rest) && Members(order) == Members(rest) + {last}
  {
    assert order == order[..|order| - 1] + [order[|order| - 1]];
  }

  /** Fixes accepted together may run in any order: every order succeeds, reaches the same state with
      every predicate true, and undoing them in any order restores every component, privilege and grant
      option. */
  lemma {:induction false} AnyOrder(
    s: Objects, order: seq<ObjectChange>, other: seq<ObjectChange>, undo: seq<ObjectChange>)
    requires Accepted(s, Members(order)) && Once(order) && Once(other) && Once(undo)
    requires Members(other) == Members(order) && Members(undo) == Members(order)
    ensures ApplyAll(s, order).Some? && ApplyAll(s, other) == ApplyAll(s, order)
    ensures forall c :: c in order ==> Fixed(ApplyAll(s, order).value, c)
    ensures UndoAll(ApplyAll(s, order).value, undo) == s
  {
    var fixes := Members(order);
    AppliedTarget(s, fixes, order);
    AppliedTarget(s, fixes, other);
    var t := ApplyAll(s, order).value;
    TargetUnique(s, fixes, t, ApplyAll(s, other).value);
    forall c | c in order ensures Fixed(t, c) {
      TargetFixed(s, fixes, t, c);
    }
    UndoneTarget(s, fixes, fixes, t, undo);
    assert fixes - Members(undo) == {};
    NothingDone(s);
    TargetUnique(s, {}, UndoAll(t, undo), s);
  }

  lemma {:induction false} TargetFixed(s: Objects, done: set<ObjectChange>, t: Objects, c: ObjectChange)
    requires Target(s, done, t) && c in done && Ready(s, c)
    ensures Fixed(t, c)
  {
    if c.SetComponent? {
      assert SlotTarget(s, done, t, (c.key, c.attribute));
    } else {
      forall g | g in t.lists[c.key] ensures !Revokes(c, c.key, g) {
        assert ListTarget(s, done, t, c.key, g);
      }
    }
  }

  // -------------------------------------------------------------------------
  // From the evidence to the sandbox
  // -------------------------------------------------------------------------

  datatype FunctionRow = FunctionRow(owner: string, items: seq<AclItem>)

  /** _functions: PUBLIC has EXECUTE, from the owner only. */
  predicate OffersExecute(row: FunctionRow) {
    && (exists i | i in row.items :: i.grantee == "" && 'X' in i.privs)
    && (forall i | i in row.items :: i.grantee == "" && 'X' in i.privs ==> i.grantor == row.owner)
  }

  /** What object fixes are derived from: role attributes and function flags, and the rows that have an
      access list, each by the key of its object. */
  datatype Evidence = Evidence(
    values: map<(string, string), string>, tables: map<string, TableRow>, functions: map<string, FunctionRow>)

  /** PostgreSQL never gives PUBLIC a grant option. */
  ghost predicate RealLists(ev: Evidence) {
    forall key, i, m ::
      key in ev.functions && i in ev.functions[key].items && i.grantee == "" && m in Marks(i.privs) ==> !m.option
  }

  /** The fix was offered on this evidence. */
  ghost predicate Proposed(ev: Evidence, c: ObjectChange) {
    match c
    case SetComponent(key, attribute, _, prior) =>
      RoleOrFunctionAttribute(attribute) && (key, attribute) in ev.values && ev.values[(key, attribute)] == prior
    case RevokeExecute(key, owner) =>
      key in ev.functions && owner == ev.functions[key].owner && OffersExecute(ev.functions[key])
    case RevokeDml(key, owner, offer) =>
      key in ev.tables && owner == ev.tables[key].owner && Offers(ev.tables[key], offer)
  }

  /** prior_holds: the value, or the whole access list, is the recorded one. */
  predicate PriorHolds(ev: Evidence, s: Objects, c: ObjectChange) {
    match c
    case SetComponent(key, attribute, _, prior) => (key, attribute) in s.values && s.values[(key, attribute)] == prior
    case RevokeExecute(key, _) =>
      key in s.lists && key in ev.functions && s.lists[key] == AclGrants(ev.functions[key].items, FUNCTION_PRIVILEGES)
    case RevokeDml(key, _, _) =>
      key in s.lists && key in ev.tables && s.lists[key] == AclGrants(ev.tables[key].items, TABLE_PRIVILEGES)
  }

  lemma {:induction false} ExecuteMark(privs: string)
    ensures 'X' in privs <==> "EXECUTE" in HeldBy(Marks(privs), FUNCTION_PRIVILEGES)
    ensures "EXECUTE" in HeldBy(Marks(privs), FUNCTION_PRIVILEGES) ==>
              exists m :: m in Marks(privs) && m.option == HeldBy(Marks(privs), FUNCTION_PRIVILEGES)["EXECUTE"]
    decreases |privs|
  {
    if privs != "" {
      var next := if |privs| > 1 && privs[1] == '*' then 2 else 1;
      ExecuteMark(privs[next..]);
      assert privs == privs[..next] + privs[next..];
      assert Marks(privs) == [Marks(privs)[0]] + Marks(privs[next..]);
    }
  }

  lemma {:induction false} ExecuteGrant(items: seq<AclItem>, g: Grant)
    requires g.grantee == "" && g.privilege == "EXECUTE"
    requires forall i, m :: i in items && i.grantee == "" && m in Marks(i.privs) ==> !m.option
    ensures g in AclGrants(items, FUNCTION_PRIVILEGES) <==>
              exists i :: i in items && i.grantee == "" && 'X' in i.privs && i.grantor == g.grantor
    ensures g in AclGrants(items, FUNCTION_PRIVILEGES) ==> !AclGrants(items, FUNCTION_PRIVILEGES)[g]
  {
    if items != [] {
      var last := items[|items| - 1];
      assert items == items[..|items| - 1] + [last];
      ExecuteGrant(items[..|items| - 1], g);
      ExecuteMark(last.privs);
      ItemGrantsMember(last, FUNCTION_PRIVILEGES, g);
    }
  }

  lemma {:induction false} ExecuteIsHeld(row: FunctionRow)
    requires OffersExecute(row)
    requires forall i, m :: i in row.items && i.grantee == "" && m in Marks(i.privs) ==> !m.option
    ensures HeldFromOwner(AclGrants(row.items, FUNCTION_PRIVILEGES), Offer("", ["EXECUTE"], false), row.owner)
  {
    forall g: Grant | g.grantee == "" && g.privilege == "EXECUTE"
      ensures g in AclGrants(row.items, FUNCTION_PRIVILEGES) ==>
                g.grantor == row.owner && !AclGrants(row.items, FUNCTION_PRIVILEGES)[g]
      ensures g.grantor == row.owner ==> g in AclGrants(row.items, FUNCTION_PRIVILEGES)
    {
      ExecuteGrant(row.items, g);
    }
  }

  /** Where the recorded prior state holds, whatever was offered on the evidence is ready: its REVOKE needs
      no CASCADE and its rollback brings the list back. */
  lemma {:induction false} ProposedIsReady(ev: Evidence, s: Objects, c: ObjectChange)
    requires RealLists(ev) && Proposed(ev, c) && PriorHolds(ev, s, c)
    ensures ValidChange(c) && Ready(s, c)
  {
    if c.RevokeExecute? {
      ExecuteIsHeld(ev.functions[c.key]);
    } else if c.RevokeDml? {
      OfferIsHeld(ev.tables[c.key], c.offer);
    }
  }

  // -------------------------------------------------------------------------
  // One fix among others
  // -------------------------------------------------------------------------

  lemma {:induction false} AcceptedAlone(s: Objects, c: ObjectChange)
    requires ValidChange(c) && Ready(s, c)
    ensures Accepted(s, {c})
  {
  }

  /** A fix that is ready is not refused, its predicate then holds, and its undo restores every component,
      privilege and grant option. */
  lemma {:induction false} ApplyThenUndo(s: Objects, c: ObjectChange)
    requires ValidChange(c) && Ready(s, c)
    ensures Apply(s, c).Some? && Fixed(Apply(s, c).value, c)
    ensures Undo(Apply(s, c).value, c) == s
  {
    AcceptedAlone(s, c);
    NothingDone(s);
    ApplyStep(s, {c}, {}, s, c);
    var t := Apply(s, c).value;
    assert {} + {c} == {c} && {c} - {c} == {};
    TargetFixed(s, {c}, t, c);
    UndoStep(s, {c}, {c}, t, c);
    TargetUnique(s, {}, Undo(t, c), s);
  }

  /** The rollback of a fix that was never committed changes nothing. */
  lemma {:induction false} UndoUnapplied(s: Objects, c: ObjectChange)
    requires Ready(s, c)
    ensures Undo(s, c) == s
  {
    if !c.SetComponent? {
      var offer := OfferOf(c);
      var again := GrantAll(s.lists[c.key], offer.grantee, offer.privileges, offer.option, c.owner);
      forall g
        ensures g in again <==> g in s.lists[c.key]
        ensures g in again ==> again[g] == s.lists[c.key][g]
      {
        GrantAllAt(s.lists[c.key], offer.grantee, offer.privileges, offer.option, c.owner, g);
        assert g == Grant(g.grantee, g.privilege, g.grantor);
      }
      assert again == s.lists[c.key];
    }
  }

  /** A fix stays as ready as it was when another one, accepted with it, is applied. */
  lemma {:induction false} OtherStaysReady(s: Objects, c: ObjectChange, d: ObjectChange)
    requires ValidChange(c) && Ready(s, c) && ValidChange(d) && Ready(s, d)
    requires Attributes(c) !! Attributes(d)
    ensures Apply(s, c).Some? && Ready(Apply(s, c).value, d)
  {
    if c == d {
      SameAttributes(c);
    }
    assert Accepted(s, {c, d});
    NothingDone(s);
    ApplyStep(s, {c, d}, {}, s, c);
    var t := Apply(s, c).value;
    assert {} + {c} == {c};
    NoOverlap(s, {c, d}, c, d);
    NoOverlap(s, {c, d}, d, c);
    if d.SetComponent? {
      assert SlotTarget(s, {c}, t, (d.key, d.attribute));
    } else {
      StillHeld(s, {c}, t, d);
    }
  }

  lemma {:induction false} SameAttributes(c: ObjectChange)
    requires ValidChange(c)
    ensures Attributes(c) != {}
  {
    if c.RevokeDml? {
      assert (c.key, PrivilegeAttribute(c.offer.grantee, c.offer.privileges[0])) in Attributes(c);
    } else {
      assert (c.key, if c.SetComponent? then c.attribute else "acl:PUBLIC") in Attributes(c);
    }
  }
}
