/** The classified rows of an object query and the steps that add to them. */
module GrantRows {
  import opened RoleGraph
  import opened GrantTypes
  import opened GrantClassifier
  import opened FirstSeen
  import opened BfsResolver
  import opened InverseGraph

  datatype Row = Row(grant: Grant, rel: Relevance)

  // What the role queries of a database connection answer.
  datatype Db = Db(userRoles: Graph, parents: Graph)

  ghost predicate Lists(rows: seq<Row>, name: string, t: GranteeType) {
    exists row :: row in rows && row.grant.grantee == name && row.grant.granteeType == t
  }

  ghost predicate ListsGrant(grants: seq<Grant>, name: string, t: GranteeType) {
    exists g :: g in grants && g.grantee == name && g.granteeType == t
  }

  ghost predicate HoldsRelevant(grants: seq<Grant>, q: ObjectQuery, name: string, t: GranteeType) {
    exists g :: g in grants && g.grantee == name && g.granteeType == t && Classify(g, q) != IRRELEVANT
  }

  ghost predicate HoldsPriv(grants: seq<Grant>, q: ObjectQuery, name: string, t: GranteeType, priv: string) {
    exists g :: && g in grants && g.grantee == name && g.granteeType == t && g.privilege == priv
                && Classify(g, q) != IRRELEVANT
  }

  ghost predicate HasRow(rows: seq<Row>, name: string, t: GranteeType, priv: string) {
    exists row :: && row in rows && row.grant.grantee == name && row.grant.granteeType == t
                  && row.grant.privilege == priv
  }

  // ---------------------------------------------------------------------------
  // Step 1: classify the collected grants

  // The relevant grants in their order, each with its relevance.
  function Relevant(grants: seq<Grant>, q: ObjectQuery): seq<Row> {
    if grants == [] then []
    else
      var n := |grants| - 1;
      var rel := Classify(grants[n], q);
      Relevant(grants[..n], q) + if rel != IRRELEVANT then [Row(grants[n], rel)] else []
  }

  method ClassifyAll(grants: seq<Grant>, q: ObjectQuery) returns (rows: seq<Row>)
    ensures rows == Relevant(grants, q)
  {
    rows := [];
    for i := 0 to |grants|
      invariant rows == Relevant(grants[..i], q)
    {
      assert grants[..i + 1][..i] == grants[..i];
      var rel := Classify(grants[i], q);
      if rel != IRRELEVANT {
        rows := rows + [Row(grants[i], rel)];
      }
    }
    assert grants[..|grants|] == grants;
  }

  // Exactly the grants with some relevance are kept, as often as they were collected.
  lemma {:induction false} RelevantMeaning(grants: seq<Grant>, q: ObjectQuery, row: Row)
    ensures multiset(Relevant(grants, q))[row] ==
            if row.rel == Classify(row.grant, q) && row.rel != IRRELEVANT then multiset(grants)[row.grant] else 0
  {
    if grants != [] {
      var n := |grants| - 1;
      RelevantMeaning(grants[..n], q, row);
      assert grants == grants[..n] + [grants[n]];
    }
  }

  // The relevant grants stand in the order in which they were collected.
  lemma {:induction false} RelevantOrder(grants: seq<Grant>, q: ObjectQuery) returns (at: seq<int>)
    ensures |at| == |Relevant(grants, q)| && Increasing(at)
    ensures forall k :: 0 <= k < |at| ==> 0 <= at[k] < |grants| && Relevant(grants, q)[k].grant == grants[at[k]]
  {
    at := [];
    if grants != [] {
      var n := |grants| - 1;
      at := RelevantOrder(grants[..n], q);
      if Classify(grants[n], q) != IRRELEVANT {
        at := at + [n];
      }
    }
  }

  lemma RelevantMember(grants: seq<Grant>, q: ObjectQuery, row: Row)
    ensures row in Relevant(grants, q) <==>
            row.grant in grants && row.rel == Classify(row.grant, q) && row.rel != IRRELEVANT
  {
    RelevantMeaning(grants, q, row);
    assert row in Relevant(grants, q) <==> row in multiset(Relevant(grants, q));
    assert row.grant in grants <==> row.grant in multiset(grants);
  }

  // ---------------------------------------------------------------------------
  // Step 2: privileges held by roles, pushed down to child roles

  // rows[i] is the first role row with this privilege.
  predicate FirstRoleRow(rows: seq<Row>, priv: string, i: int) {
    && 0 <= i < |rows| && rows[i].grant.granteeType == ROLE && rows[i].grant.privilege == priv
    && forall j :: 0 <= j < i && rows[j].grant.granteeType == ROLE ==> rows[j].grant.privilege != priv
  }

  ghost predicate Gathered(rows: seq<Row>, rolePrivs: RolePrivs) {
    && (forall r :: r in rolePrivs <==> Lists(rows, r, ROLE))
    && (forall r, x :: r in rolePrivs ==> (x in rolePrivs[r] <==> HasRow(rows, r, ROLE, x)))
    && (forall r :: r in rolePrivs ==> rolePrivs[r] != {})
  }

  // Each privilege held by a role, with the object type of its first role row.
  ghost predicate Typed(rows: seq<Row>, origType: map<string, string>) {
    && (forall x :: x in origType ==>
          exists i :: FirstRoleRow(rows, x, i) && origType[x] == rows[i].grant.objectType)
    && (forall row :: row in rows && row.grant.granteeType == ROLE ==> row.grant.privilege in origType)
  }

  lemma GatherNext(rows: seq<Row>, row: Row, rolePrivs: RolePrivs)
    requires Gathered(rows, rolePrivs)
    ensures var g := row.grant;
            Gathered(rows + [row],
                     if g.granteeType == ROLE then rolePrivs[g.grantee := Own(rolePrivs, g.grantee) + {g.privilege}]
                     else rolePrivs)
  {
    var g := row.grant;
    var longer := rows + [row];
    assert forall o :: o in longer <==> o in rows || o == row;
    assert forall r :: Lists(longer, r, ROLE) <==>
      Lists(rows, r, ROLE) || (g.granteeType == ROLE && g.grantee == r);
    assert forall r, x :: HasRow(longer, r, ROLE, x) <==>
      HasRow(rows, r, ROLE, x) || (g.granteeType == ROLE && g.grantee == r && g.privilege == x);
    forall r, x | HasRow(rows, r, ROLE, x) ensures Lists(rows, r, ROLE) {
    }
  }

  lemma TypeNext(rows: seq<Row>, row: Row, origType: map<string, string>)
    requires Typed(rows, origType)
    ensures var g := row.grant;
            Typed(rows + [row],
                  if g.granteeType == ROLE && g.privilege !in origType then origType[g.privilege := g.objectType]
                  else origType)
  {
    var g := row.grant;
    var longer := rows + [row];
    forall x, i | FirstRoleRow(rows, x, i) ensures FirstRoleRow(longer, x, i) {
    }
    if g.granteeType == ROLE && g.privilege !in origType {
      forall j | 0 <= j < |rows| && rows[j].grant.granteeType == ROLE
        ensures rows[j].grant.privilege != g.privilege
      {
        assert rows[j] in rows;
      }
      assert FirstRoleRow(longer, g.privilege, |rows|);
    }
  }

  method RolePrivileges(rows: seq<Row>) returns (rolePrivs: RolePrivs, origType: map<string, string>)
    ensures Gathered(rows, rolePrivs) && Typed(rows, origType)
  {
    rolePrivs, origType := map[], map[];
    for i := 0 to |rows|
      invariant Gathered(rows[..i], rolePrivs) && Typed(rows[..i], origType)
    {
      var g := rows[i].grant;
      assert rows[..i + 1] == rows[..i] + [rows[i]];
      GatherNext(rows[..i], rows[i], rolePrivs);
      TypeNext(rows[..i], rows[i], origType);
      if g.granteeType == ROLE {
        rolePrivs := rolePrivs[g.grantee := Own(rolePrivs, g.grantee) + {g.privilege}];
        if g.privilege !in origType {
          origType := origType[g.privilege := g.objectType];
        }
      }
    }
    assert rows[..|rows|] == rows;
  }

  // What the inherited rows of one call are built from: the query, the object type of
  // each privilege, and the classifier (Classify for this query).
  datatype RowTarget = RowTarget(q: ObjectQuery, origType: map<string, string>, classify: Grant -> Relevance)

  function InheritedRow(name: string, t: GranteeType, priv: string, source: string, target: RowTarget): Row {
    var original := if priv in target.origType then Some(target.origType[priv]) else None;
    var g := MakeInherited(name, t, priv, target.q, source, original);
    Row(g, target.classify(g))
  }

  ghost predicate NoRowTwice(rows: seq<Row>) {
    forall i, j :: 0 <= i < j < |rows| ==> rows[i] != rows[j]
  }

  // added holds exactly one row for every privilege in give[name], for every name.
  ghost predicate Pushed(
      added: seq<Row>, t: GranteeType, give: map<string, map<string, string>>,
      target: RowTarget)
  {
    && NoRowTwice(added)
    && (forall n, x :: n in give && x in give[n] ==> InheritedRow(n, t, x, give[n][x], target) in added)
    && (forall row :: row in added ==>
          var n, x := row.grant.grantee, row.grant.privilege;
          n in give && x in give[n] && row == InheritedRow(n, t, x, give[n][x], target))
  }

  // The loop that appends one inherited row for each privilege of one grantee.
  method AddRows(
      rows: seq<Row>, name: string, t: GranteeType, sources: map<string, string>,
      target: RowTarget) returns (r: seq<Row>, ghost added: seq<Row>)
    ensures r == rows + added && Pushed(added, t, map[name := sources], target)
  {
    r, added := rows, [];
    var rest := sources.Keys;
    ghost var done: map<string, string> := map[];
    while rest != {}
      invariant rest <= sources.Keys && r == rows + added
      invariant done.Keys == sources.Keys - rest && forall x :: x in done ==> done[x] == sources[x]
      invariant Pushed(added, t, map[name := done], target)
      decreases rest
    {
      var priv :| priv in rest;
      rest := rest - {priv};
      var row := InheritedRow(name, t, priv, sources[priv], target);
      r := r + [row];
      PushedOne(added, t, name, done, priv, sources[priv], target);
      done := done[priv := sources[priv]];
      added := added + [row];
    }
    assert done == sources;
  }

  lemma PushedOne(
      added: seq<Row>, t: GranteeType, name: string, done: map<string, string>,
      priv: string, source: string, target: RowTarget)
    requires Pushed(added, t, map[name := done], target) && priv !in done
    ensures Pushed(added + [InheritedRow(name, t, priv, source, target)], t, map[name := done[priv := source]], target)
  {
    var row := InheritedRow(name, t, priv, source, target);
    var give := map[name := done[priv := source]];
    var more := added + [row];
    assert more[|added|] == row;
    forall n, x | n in give && x in give[n] ensures InheritedRow(n, t, x, give[n][x], target) in more {
      if x != priv {
        assert x in map[name := done][name];
        assert InheritedRow(n, t, x, done[x], target) in added;
      }
    }
    forall o | o in more ensures
      var n, x := o.grant.grantee, o.grant.privilege;
      n in give && x in give[n] && o == InheritedRow(n, t, x, give[n][x], target)
    {
      if o != row {
        assert o in added;
      }
    }
  }

  lemma PushedConcat(
      a: seq<Row>, b: seq<Row>, t: GranteeType, give: map<string, map<string, string>>,
      name: string, sources: map<string, string>, target: RowTarget)
    requires Pushed(a, t, give, target) && name !in give
    requires Pushed(b, t, map[name := sources], target)
    ensures Pushed(a + b, t, give[name := sources], target)
  {
    var one := map[name := sources];
    var all := give[name := sources];
    assert forall row :: row in a + b <==> row in a || row in b;
    forall n, x | n in all && x in all[n] ensures InheritedRow(n, t, x, all[n][x], target) in a + b {
      if n == name {
        assert n in one && x in one[n];
      } else {
        assert n in give && x in give[n];
      }
    }
    forall row | row in a + b
      ensures var n, x := row.grant.grantee, row.grant.privilege;
              n in all && x in all[n] && row == InheritedRow(n, t, x, all[n][x], target)
    {
    }
  }

  lemma PushedRows(
      added: seq<Row>, t: GranteeType, give: map<string, map<string, string>>, target: RowTarget,
      name: string, t': GranteeType, x: string)
    requires Pushed(added, t, give, target)
    ensures HasRow(added, name, t', x) <==> t' == t && name in give && x in give[name]
  {
    if t' == t && name in give && x in give[name] {
      var row := InheritedRow(name, t, x, give[name][x], target);
      assert row in added;
    }
  }

  lemma RowsConcat(a: seq<Row>, b: seq<Row>, name: string, t: GranteeType, x: string)
    ensures HasRow(a + b, name, t, x) <==> HasRow(a, name, t, x) || HasRow(b, name, t, x)
  {
    assert forall row :: row in a + b <==> row in a || row in b;
  }

  lemma ListsSome(rows: seq<Row>, name: string, t: GranteeType)
    ensures Lists(rows, name, t) <==> exists x :: HasRow(rows, name, t, x)
  {
    if row :| row in rows && row.grant.grantee == name && row.grant.granteeType == t {
      assert HasRow(rows, name, t, row.grant.privilege);
    }
  }

  // The inherited privileges, each credited to the role they come from.
  function Gift(i: Inheritance): map<string, string> {
    map x | x in i.privs :: i.origin
  }

  // What the child roles receive: nothing for a role that holds privileges itself.
  function ChildGifts(rolePrivs: RolePrivs, inherited: map<string, Inheritance>): map<string, map<string, string>> {
    map c | c in inherited.Keys - rolePrivs.Keys :: Gift(inherited[c])
  }

  function WithChildren(rolePrivs: RolePrivs, inherited: map<string, Inheritance>): RolePrivs {
    map r | r in rolePrivs.Keys + inherited.Keys ::
      if r in rolePrivs then rolePrivs[r] else inherited[r].privs
  }

  method AddChildRoles(
      rows: seq<Row>, rolePrivs: RolePrivs, inherited: map<string, Inheritance>,
      target: RowTarget)
    returns (r: seq<Row>, rolePrivs': RolePrivs, ghost added: seq<Row>)
    ensures r == rows + added && Pushed(added, ROLE, ChildGifts(rolePrivs, inherited), target)
    ensures rolePrivs' == WithChildren(rolePrivs, inherited)
  {
    r, added := rows, [];
    rolePrivs' := rolePrivs;
    var existing := rolePrivs.Keys;
    var rest := inherited.Keys;
    ghost var give: map<string, map<string, string>> := map[];
    while rest != {}
      invariant rest <= inherited.Keys && r == rows + added
      invariant existing == rolePrivs'.Keys == rolePrivs.Keys + give.Keys
      invariant give.Keys == inherited.Keys - rest - rolePrivs.Keys
      invariant forall c :: c in give ==> give[c] == Gift(inherited[c]) && rolePrivs'[c] == inherited[c].privs
      invariant forall c :: c in rolePrivs ==> rolePrivs'[c] == rolePrivs[c]
      invariant Pushed(added, ROLE, give, target)
      decreases rest
    {
      var child :| child in rest;
      rest := rest - {child};
      if child !in existing {
        existing := existing + {child};
        rolePrivs' := rolePrivs'[child := inherited[child].privs];
        ghost var more;
        r, more := AddRows(r, child, ROLE, Gift(inherited[child]), target);
        PushedConcat(added, more, ROLE, give, child, Gift(inherited[child]), target);
        give := give[child := Gift(inherited[child])];
        added := added + more;
      }
    }
    ChildrenDone(rolePrivs, inherited, give, rolePrivs');
  }

  lemma ChildrenDone(
      rolePrivs: RolePrivs, inherited: map<string, Inheritance>,
      give: map<string, map<string, string>>, after: RolePrivs)
    requires give.Keys == inherited.Keys - rolePrivs.Keys && after.Keys == rolePrivs.Keys + give.Keys
    requires forall c :: c in give ==> give[c] == Gift(inherited[c]) && after[c] == inherited[c].privs
    requires forall c :: c in rolePrivs ==> after[c] == rolePrivs[c]
    ensures give == ChildGifts(rolePrivs, inherited) && after == WithChildren(rolePrivs, inherited)
  {
  }

  // ---------------------------------------------------------------------------
  // Step 3: users

  // What one user receives from the roles assigned to it.
  ghost predicate UserGift(parents: Graph, rolePrivs: RolePrivs, roles: seq<string>, gift: map<string, string>) {
    && (forall x :: x in gift ==> CreditedUpward(parents, rolePrivs, roles, x, gift[x]))
    && ((exists r :: r in roles && Own(rolePrivs, r) != {}) ==> DirectPrivs(rolePrivs, roles, gift))
    && ((forall r :: r in roles ==> Own(rolePrivs, r) == {}) ==>
          SearchedPrivs(parents, rolePrivs, roles, 100, gift))
  }

  // As long as the cap leaves no role out, a user gets something exactly when one of its
  // roles reaches a privileged one upward.
  lemma GiftReached(parents: Graph, rolePrivs: RolePrivs, roles: seq<string>, gift: map<string, string>)
    requires UserGift(parents, rolePrivs, roles, gift) && |ReachSet(parents, Elements(roles))| <= 100
    ensures gift != map[] <==> exists x :: ReachedPriv(parents, rolePrivs, roles, x)
  {
    if x :| x in gift {
      CreditedReached(parents, rolePrivs, roles, x, gift[x]);
    }
    if x :| ReachedPriv(parents, rolePrivs, roles, x) {
      GiftOf(parents, rolePrivs, roles, gift, x);
    }
  }

  lemma GiftOf(parents: Graph, rolePrivs: RolePrivs, roles: seq<string>, gift: map<string, string>, x: string)
    requires UserGift(parents, rolePrivs, roles, gift) && |ReachSet(parents, Elements(roles))| <= 100
    requires ReachedPriv(parents, rolePrivs, roles, x)
    ensures gift != map[]
  {
    if r :| r in roles && Own(rolePrivs, r) != {} {
      var y :| y in Own(rolePrivs, r);
      assert HeldBySome(rolePrivs, roles, y);
      assert y in gift;
    } else {
      SearchedMeaning(parents, rolePrivs, roles, 100, gift);
      assert x in gift;
    }
  }

  // What one user receives, and the rows that say so.
  method AddUser(
      rows: seq<Row>, rolePrivs: RolePrivs, user: string, roles: seq<string>, parents: Graph, target: RowTarget)
    returns (r: seq<Row>, ghost added: seq<Row>, ghost gift: map<string, string>)
    ensures r == rows + added && Pushed(added, USER, map[user := gift], target)
    ensures UserGift(parents, rolePrivs, roles, gift)
  {
    var given := BfsUserPrivs(roles, rolePrivs, parents);
    gift := given;
    assert UserGift(parents, rolePrivs, roles, gift);
    r, added := AddRows(rows, user, USER, given, target);
  }

  ghost predicate UserGifts(
      parents: Graph, rolePrivs: RolePrivs, userRoles: Graph, give: map<string, map<string, string>>)
  {
    forall u :: u in give ==> UserGift(parents, rolePrivs, Next(userRoles, u), give[u])
  }

  // The rows and gifts of the users served so far.
  ghost predicate Served(
      rows: seq<Row>, rolePrivs: RolePrivs, userRoles: Graph, parents: Graph, target: RowTarget,
      r: seq<Row>, added: seq<Row>, give: map<string, map<string, string>>)
  {
    r == rows + added && Pushed(added, USER, give, target) && UserGifts(parents, rolePrivs, userRoles, give)
  }

  lemma GiftsNext(
      parents: Graph, rolePrivs: RolePrivs, userRoles: Graph, give: map<string, map<string, string>>,
      user: string, gift: map<string, string>)
    requires UserGifts(parents, rolePrivs, userRoles, give)
    requires UserGift(parents, rolePrivs, Next(userRoles, user), gift)
    ensures UserGifts(parents, rolePrivs, userRoles, give[user := gift])
  {
  }

  lemma ServedNext(
      rows: seq<Row>, rolePrivs: RolePrivs, userRoles: Graph, parents: Graph, target: RowTarget,
      r: seq<Row>, added: seq<Row>, give: map<string, map<string, string>>,
      more: seq<Row>, user: string, gift: map<string, string>)
    requires Served(rows, rolePrivs, userRoles, parents, target, r, added, give) && user !in give
    requires Pushed(more, USER, map[user := gift], target)
    requires UserGift(parents, rolePrivs, Next(userRoles, user), gift)
    ensures Served(rows, rolePrivs, userRoles, parents, target, r + more, added + more, give[user := gift])
  {
    PushedConcat(added, more, USER, give, user, gift, target);
    GiftsNext(parents, rolePrivs, userRoles, give, user, gift);
  }

  method AddUsers(
      rows: seq<Row>, rolePrivs: RolePrivs, users: set<string>, userRoles: Graph, parents: Graph,
      target: RowTarget)
    returns (r: seq<Row>, ghost added: seq<Row>, ghost give: map<string, map<string, string>>)
    ensures r == rows + added && Pushed(added, USER, give, target)
    ensures give.Keys == users && UserGifts(parents, rolePrivs, userRoles, give)
  {
    r, added, give := rows, [], map[];
    var rest := users;
    while rest != {}
      invariant rest <= users && give.Keys == users - rest
      invariant Served(rows, rolePrivs, userRoles, parents, target, r, added, give)
      decreases rest
    {
      var user :| user in rest;
      rest := rest - {user};
      ghost var was := r;
      ghost var gift, more;
      r, more, gift := AddUser(r, rolePrivs, user, Next(userRoles, user), parents, target);
      ServedNext(rows, rolePrivs, userRoles, parents, target, was, added, give, more, user, gift);
      give := give[user := gift];
      added := added + more;
    }
  }

  // A user receives something exactly when one of its own roles is privileged ...
  lemma GiftNonempty(
      childrenOf: Graph, parents: Graph, rolePrivs: RolePrivs, roles: seq<string>, gift: map<string, string>)
    requires IsInverse(childrenOf, parents) && Closed(childrenOf, rolePrivs.Keys)
    requires forall r :: r in rolePrivs ==> rolePrivs[r] != {}
    requires UserGift(parents, rolePrivs, roles, gift)
    ensures gift != map[] <==> exists r :: r in roles && r in rolePrivs
  {
    FastPathMissesNobody(childrenOf, parents, rolePrivs, roles);
    if r :| r in roles && r in rolePrivs {
      var x :| x in rolePrivs[r];
      assert x in Own(rolePrivs, r);
      assert x in gift;
    }
    if x :| x in gift {
      assert CreditedUpward(parents, rolePrivs, roles, x, gift[x]);
      assert ReachedPriv(parents, rolePrivs, roles, x);
    }
  }

  // ... and then exactly the privileges of those roles.
  lemma GiftExact(
      childrenOf: Graph, parents: Graph, rolePrivs: RolePrivs, roles: seq<string>, gift: map<string, string>, x: string)
    requires IsInverse(childrenOf, parents) && Closed(childrenOf, rolePrivs.Keys)
    requires forall r :: r in rolePrivs ==> rolePrivs[r] != {}
    requires UserGift(parents, rolePrivs, roles, gift)
    ensures x in gift <==> exists r :: r in roles && x in Own(rolePrivs, r)
  {
    GiftNonempty(childrenOf, parents, rolePrivs, roles, gift);
    if x in gift {
      var r :| r in roles && r in rolePrivs;
      assert Own(rolePrivs, r) != {};
    }
  }

  // ---------------------------------------------------------------------------
  // Step 5: USAGE conversion and deduplication

  function UsageGrant(g: Grant, q: ObjectQuery): Grant {
    Grant(g.grantee, g.granteeType, q.catalog, q.database, None, q.TypeUpper(), "USAGE", false,
          g.source + " (implicit)")
  }

  function UsageNames(rows: seq<Row>): set<string> {
    set i | 0 <= i < |rows| && rows[i].rel == IMPLICIT_USAGE :: rows[i].grant.grantee
  }

  // The converted rows before deduplication: one USAGE per grantee name.
  function Converted(rows: seq<Row>, q: ObjectQuery): seq<Grant> {
    if rows == [] then []
    else
      var n := |rows| - 1;
      Converted(rows[..n], q) +
      if rows[n].rel != IMPLICIT_USAGE then [rows[n].grant]
      else if rows[n].grant.grantee in UsageNames(rows[..n]) then []
      else [UsageGrant(rows[n].grant, q)]
  }

  // rows[i] is the first row that is turned into a USAGE grant for this name.
  predicate FirstUsage(rows: seq<Row>, name: string, i: int) {
    && 0 <= i < |rows| && rows[i].rel == IMPLICIT_USAGE && rows[i].grant.grantee == name
    && name !in UsageNames(rows[..i])
  }

  // A row of this grantee survives as it is, or is the first USAGE of its name.
  ghost predicate Survives(rows: seq<Row>, name: string, t: GranteeType) {
    || (exists row :: row in rows && row.rel != IMPLICIT_USAGE
                      && row.grant.grantee == name && row.grant.granteeType == t)
    || (exists i :: FirstUsage(rows, name, i) && rows[i].grant.granteeType == t)
  }

  lemma {:induction false} ConvertedGrantees(rows: seq<Row>, q: ObjectQuery, name: string, t: GranteeType)
    ensures ListsGrant(Converted(rows, q), name, t) <==> Survives(rows, name, t)
  {
    if rows != [] {
      var n := |rows| - 1;
      ConvertedGrantees(rows[..n], q, name, t);
      SurvivesNext(rows, name, t);
      ListsConcat(Converted(rows[..n], q), Converted(rows, q)[|Converted(rows[..n], q)|..], name, t);
      assert Converted(rows, q) == Converted(rows[..n], q) + Converted(rows, q)[|Converted(rows[..n], q)|..];
    }
  }

  lemma ListsConcat(a: seq<Grant>, b: seq<Grant>, name: string, t: GranteeType)
    ensures ListsGrant(a + b, name, t) <==> ListsGrant(a, name, t) || ListsGrant(b, name, t)
  {
    assert forall g :: g in a + b <==> g in a || g in b;
  }

  // What the last row adds.
  lemma SurvivesNext(rows: seq<Row>, name: string, t: GranteeType)
    requires rows != []
    ensures var n := |rows| - 1;
            var last := rows[n];
            Survives(rows, name, t) <==>
            || Survives(rows[..n], name, t)
            || (last.grant.grantee == name && last.grant.granteeType == t
                && (last.rel != IMPLICIT_USAGE || name !in UsageNames(rows[..n])))
  {
    var n := |rows| - 1;
    var known := rows[..n];
    assert forall row :: row in rows <==> row in known || row == rows[n];
    forall i | 0 <= i < n ensures FirstUsage(rows, name, i) <==> FirstUsage(known, name, i) {
      assert rows[..i] == known[..i];
    }
    if rows[n].rel == IMPLICIT_USAGE && rows[n].grant.grantee == name && name !in UsageNames(known) {
      assert FirstUsage(rows, name, n);
    }
  }

  // Which grantees the final list names: everyone with a row, except that a name shared
  // by a user and a role keeps only the first of the two when both are owed a USAGE.
  lemma FinalGrantees(rows: seq<Row>, q: ObjectQuery, name: string, t: GranteeType)
    ensures ListsGrant(Unique(Converted(rows, q), ROW_KEY), name, t) <==> Survives(rows, name, t)
    ensures Survives(rows, name, t) ==> Lists(rows, name, t)
    ensures !(Lists(rows, name, USER) && Lists(rows, name, ROLE)) ==>
              (Survives(rows, name, t) <==> Lists(rows, name, t))
    ensures Lists(rows, name, t) ==> Survives(rows, name, USER) || Survives(rows, name, ROLE)
  {
    ConvertedGrantees(rows, q, name, t);
    DedupKeepsGrantees(Converted(rows, q), name, t);
    if row :| row in rows && row.grant.grantee == name && row.grant.granteeType == t {
      if row.rel == IMPLICIT_USAGE {
        var i :| 0 <= i < |rows| && rows[i] == row;
        var k := LeastUsage(rows, name, i);
        assert rows[k] in rows;
        assert Survives(rows, name, rows[k].grant.granteeType);
      }
    }
  }

  // A user and a role of one name with nothing but a USAGE each: the second is lost.
  lemma SharedNameLost()
    ensures var usage := (t: GranteeType) =>
              Grant("ops", t, None, Some("sales"), Some("orders"), "TABLE", "SELECT", false, "direct");
            var q := ObjectQuery(None, Some("sales"), None, Some("DATABASE"));
            var rows := Relevant([usage(USER), usage(ROLE)], q);
            var grants := Unique(Converted(rows, q), ROW_KEY);
            && Lists(rows, "ops", USER) && Lists(rows, "ops", ROLE)
            && ListsGrant(grants, "ops", USER) && !ListsGrant(grants, "ops", ROLE)
  {
    var user := Grant("ops", USER, None, Some("sales"), Some("orders"), "TABLE", "SELECT", false, "direct");
    var role := Grant("ops", ROLE, None, Some("sales"), Some("orders"), "TABLE", "SELECT", false, "direct");
    var q := ObjectQuery(None, Some("sales"), None, Some("DATABASE"));
    UsageOwed(user, q);
    UsageOwed(role, q);
    TwoUsages(user, role, q);
    OnlyFirstUsage(Row(user, IMPLICIT_USAGE), Row(role, IMPLICIT_USAGE), q, "ops");
  }

  lemma TwoUsages(a: Grant, b: Grant, q: ObjectQuery)
    requires Classify(a, q) == IMPLICIT_USAGE && Classify(b, q) == IMPLICIT_USAGE
    ensures Relevant([a, b], q) == [Row(a, IMPLICIT_USAGE), Row(b, IMPLICIT_USAGE)]
  {
    assert [a, b][..1] == [a] && [a][..0] == [];
    assert Relevant([a], q) == [Row(a, IMPLICIT_USAGE)];
  }

  lemma OnlyFirstUsage(a: Row, b: Row, q: ObjectQuery, name: string)
    requires a.rel == IMPLICIT_USAGE && b.rel == IMPLICIT_USAGE
    requires a.grant.grantee == name && b.grant.grantee == name
    requires a.grant.granteeType == USER && b.grant.granteeType == ROLE
    ensures var grants := Unique(Converted([a, b], q), ROW_KEY);
            && Lists([a, b], name, USER) && Lists([a, b], name, ROLE)
            && ListsGrant(grants, name, USER) && !ListsGrant(grants, name, ROLE)
  {
    var rows := [a, b];
    assert rows[0] == a && rows[1] == b;
    FinalGrantees(rows, q, name, USER);
    FinalGrantees(rows, q, name, ROLE);
    assert FirstUsage(rows, name, 0);
    assert rows[..1][0].grant.grantee in UsageNames(rows[..1]);
  }

  lemma {:induction false} LeastUsage(rows: seq<Row>, name: string, i: int) returns (k: int)
    requires 0 <= i < |rows| && rows[i].rel == IMPLICIT_USAGE && rows[i].grant.grantee == name
    ensures FirstUsage(rows, name, k)
    decreases i
  {
    if name in UsageNames(rows[..i]) {
      var j :| 0 <= j < i && rows[..i][j].rel == IMPLICIT_USAGE && rows[..i][j].grant.grantee == name;
      k := LeastUsage(rows, name, j);
    } else {
      k := i;
    }
  }
}
