/** Object-scoped grant resolution: who can do what on the queried object. */
module GrantResolver {
  import opened RoleGraph
  import opened RoleAncestry
  import opened Text
  import opened GrantTypes
  import opened GrantClassifier
  import opened RelevanceLaws
  import opened FirstSeen
  import opened BfsResolver
  import opened InheritanceLaws
  import opened InverseGraph
  import opened GrantRows
  import opened AnswerForm
  import opened SessionRoles

  // ---------------------------------------------------------------------------
  // The whole resolution

  datatype Collected = Collected(
    grants: seq<Grant>,
    userRoleChain: map<string, string>,
    roleChildMap: Graph,
    allUsers: set<string>,
    userRoleMap: Graph)

  // A role is listed when a role with a relevant grant reaches it, itself included.
  ghost predicate RoleListed(c: Collected, q: ObjectQuery, name: string) {
    exists h :: HoldsRelevant(c.grants, q, h, ROLE) && Reaches(c.roleChildMap, h, name)
  }

  // Where the roles assigned to a user are looked up: in memory when the map was
  // collected, else in the database, else nowhere.
  function RolesOfUsers(c: Collected, conn: Option<Db>): Graph {
    if c.userRoleMap != map[] then c.userRoleMap
    else if conn.Some? then conn.value.userRoles
    else map[]
  }

  ghost predicate UserListed(c: Collected, conn: Option<Db>, q: ObjectQuery, name: string) {
    || HoldsRelevant(c.grants, q, name, USER)
    || (name in c.allUsers && exists r :: r in Next(RolesOfUsers(c, conn), name) && RoleListed(c, q, r))
  }

  // The parent edges asked from the database are those of the collected child map. The
  // in-memory path never asks.
  ghost predicate ParentsAgree(c: Collected, conn: Option<Db>) {
    c.userRoleMap != map[] || conn.None? || IsInverse(c.roleChildMap, conn.value.parents)
  }

  // The roles that hold something by relevant grants of their own.
  function Holders(c: Collected, q: ObjectQuery): set<string> {
    var rows := Relevant(c.grants, q);
    set i | 0 <= i < |rows| && rows[i].grant.granteeType == ROLE :: rows[i].grant.grantee
  }

  // g is an inherited grant on what the query names, with the type of the first relevant
  // role grant of its privilege.
  ghost predicate MadeFor(c: Collected, q: ObjectQuery, g: Grant) {
    exists i ::
      FirstRoleRow(Relevant(c.grants, q), g.privilege, i) && PassesOn(g, Relevant(c.grants, q)[i].grant, q)
  }

  // g passes on a privilege that some role holds by a relevant grant and that reaches the
  // grantee: a role along role_child_map, crediting the first nearest holder above it in
  // the one order of the holders; a user through the assigned role that it credits.
  ghost predicate Handed(c: Collected, conn: Option<Db>, q: ObjectQuery, order: seq<string>, g: Grant) {
    || (g.granteeType == ROLE && Elements(order) == Holders(c, q)
        && FirstAbove(c.roleChildMap, order, g.grantee, g.source)
        && exists h :: HoldsPriv(c.grants, q, h, ROLE, g.privilege) && Reaches(c.roleChildMap, h, g.grantee))
    || (g.granteeType == USER && g.source in Next(RolesOfUsers(c, conn), g.grantee)
        && exists h :: HoldsPriv(c.grants, q, h, ROLE, g.privilege) && Reaches(c.roleChildMap, h, g.source))
  }

  // A row is a relevant collected grant or an inherited one.
  ghost predicate RowSound(c: Collected, conn: Option<Db>, q: ObjectQuery, order: seq<string>, row: Row) {
    && row.rel == Classify(row.grant, q)
    && (|| (row.grant in c.grants && row.rel != IRRELEVANT)
        || (MadeFor(c, q, row.grant) && Handed(c, conn, q, order, row.grant)))
  }

  // The classified rows of the relevant collected grants.
  ghost predicate Base(c: Collected, q: ObjectQuery, rows: seq<Row>) {
    && rows == Relevant(c.grants, q)
    && forall row :: row in rows <==>
         row.grant in c.grants && row.rel == Classify(row.grant, q) && row.rel != IRRELEVANT
  }

  lemma RelevantBase(c: Collected, q: ObjectQuery)
    ensures Base(c, q, Relevant(c.grants, q))
  {
    forall row ensures row in Relevant(c.grants, q) <==>
                       row.grant in c.grants && row.rel == Classify(row.grant, q) && row.rel != IRRELEVANT
    {
      RelevantMember(c.grants, q, row);
    }
  }

  // The target of a query over the collected grants.
  ghost predicate TargetFor(c: Collected, q: ObjectQuery, target: RowTarget) {
    && target.q == q && (forall g :: target.classify(g) == Classify(g, q))
    && Typed(Relevant(c.grants, q), target.origType)
  }

  lemma RowMade(
      c: Collected, q: ObjectQuery, target: RowTarget, name: string, t: GranteeType, x: string, source: string,
      h: string)
    requires TargetFor(c, q, target) && HoldsPriv(c.grants, q, h, ROLE, x)
    ensures var row := InheritedRow(name, t, x, source, target);
            row.rel == Classify(row.grant, q) && MadeFor(c, q, row.grant)
  {
    var g :| g in c.grants && g.grantee == h && g.granteeType == ROLE && g.privilege == x
             && Classify(g, q) != IRRELEVANT;
    RelevantMember(c.grants, q, Row(g, Classify(g, q)));
    assert x in target.origType;
    var i :| FirstRoleRow(Relevant(c.grants, q), x, i)
             && target.origType[x] == Relevant(c.grants, q)[i].grant.objectType;
  }

  // The privileged roles after the push to the children.
  ghost predicate AllPrivileged(c: Collected, q: ObjectQuery, rolePrivs: RolePrivs) {
    && (forall r :: r in rolePrivs <==> RoleListed(c, q, r))
    && (forall r :: r in rolePrivs ==> rolePrivs[r] != {})
    && (forall r, x :: r in rolePrivs && x in rolePrivs[r] ==>
          exists h :: HoldsPriv(c.grants, q, h, ROLE, x) && Reaches(c.roleChildMap, h, r))
  }

  // What the roles hold by relevant grants of their own.
  ghost predicate Held(c: Collected, q: ObjectQuery, rolePrivs: RolePrivs) {
    && (forall r :: r in rolePrivs <==> HoldsRelevant(c.grants, q, r, ROLE))
    && (forall r, x :: r in rolePrivs ==> (x in rolePrivs[r] <==> HoldsPriv(c.grants, q, r, ROLE, x)))
  }

  // Own privileges for the holders, inherited ones for the roles below them.
  ghost predicate Spread(c: Collected, q: ObjectQuery, order: seq<string>, rolePrivs: RolePrivs) {
    exists held, inherited ::
      && Held(c, q, held) && ChildRun(c.roleChildMap, held, order, inherited)
      && rolePrivs == WithChildren(held, inherited)
  }

  lemma BaseHolders(c: Collected, q: ObjectQuery, rows: seq<Row>, rolePrivs: RolePrivs)
    requires Base(c, q, rows) && Gathered(rows, rolePrivs)
    ensures forall n, t :: Lists(rows, n, t) <==> HoldsRelevant(c.grants, q, n, t)
    ensures forall n, t, x :: HasRow(rows, n, t, x) <==> HoldsPriv(c.grants, q, n, t, x)
    ensures Held(c, q, rolePrivs)
  {
    forall n, t | HoldsRelevant(c.grants, q, n, t) ensures Lists(rows, n, t) {
      var g :| g in c.grants && g.grantee == n && g.granteeType == t && Classify(g, q) != IRRELEVANT;
      assert Row(g, Classify(g, q)) in rows;
    }
    forall n, t, x | HoldsPriv(c.grants, q, n, t, x) ensures HasRow(rows, n, t, x) {
      var g :| g in c.grants && g.grantee == n && g.granteeType == t && g.privilege == x
               && Classify(g, q) != IRRELEVANT;
      assert Row(g, Classify(g, q)) in rows;
    }
  }

  lemma NoEdges(a: string, b: string)
    requires Reaches(map[], a, b)
    ensures a == b
  {
    var n: nat :| Walk(map[], a, b, n);
  }

  lemma PrivilegedWithoutEdges(c: Collected, q: ObjectQuery, rows: seq<Row>, rolePrivs: RolePrivs)
    requires Base(c, q, rows) && Gathered(rows, rolePrivs)
    requires rolePrivs == map[] || c.roleChildMap == map[]
    ensures AllPrivileged(c, q, rolePrivs)
  {
    BaseHolders(c, q, rows, rolePrivs);
    forall r | RoleListed(c, q, r) ensures r in rolePrivs {
      var h :| HoldsRelevant(c.grants, q, h, ROLE) && Reaches(c.roleChildMap, h, r);
      if c.roleChildMap == map[] {
        NoEdges(h, r);
      }
    }
    forall r | r in rolePrivs ensures Reaches(c.roleChildMap, r, r) {
      ReachesSelf(c.roleChildMap, r);
    }
  }

  lemma InheritedNonempty(g: Graph, rolePrivs: RolePrivs, inherited: map<string, Inheritance>, r: string)
    requires ChildRoles(g, rolePrivs, inherited) && r in inherited
    requires forall h :: h in rolePrivs ==> rolePrivs[h] != {}
    ensures inherited[r].privs != {}
  {
    assert Below(g, rolePrivs.Keys, r);
    var h, n: nat :| h in rolePrivs && n >= 1 && Walk(g, h, r, n);
    assert StrictlyAbove(g, h, r);
    var p := LastReached(g, rolePrivs.Keys, h, r);
    GiverPasses(g, rolePrivs, inherited, p);
    var x :| x in rolePrivs[Giver(rolePrivs.Keys, inherited, p)];
    assert HandedBy(g, rolePrivs, inherited, p, r, x);
    assert Inherits(g, rolePrivs, inherited, r, x);
  }

  lemma ReachedOrBelow(g: Graph, H: set<string>, r: string)
    ensures ReachedFrom(g, H, r) <==> r in H || Below(g, H, r)
  {
    if r in H {
      ReachesSelf(g, r);
    }
  }

  lemma PrivilegedWithChildren(
      c: Collected, q: ObjectQuery, rows: seq<Row>, rolePrivs: RolePrivs, inherited: map<string, Inheritance>)
    requires Base(c, q, rows) && Gathered(rows, rolePrivs) && ChildRoles(c.roleChildMap, rolePrivs, inherited)
    ensures AllPrivileged(c, q, WithChildren(rolePrivs, inherited))
  {
    var g := c.roleChildMap;
    var all := WithChildren(rolePrivs, inherited);
    BaseHolders(c, q, rows, rolePrivs);
    forall r ensures r in all <==> RoleListed(c, q, r) {
      ReachedOrBelow(g, rolePrivs.Keys, r);
    }
    forall r | r in all ensures all[r] != {} {
      if r !in rolePrivs {
        InheritedNonempty(g, rolePrivs, inherited, r);
      }
    }
    forall r, x | r in all && x in all[r] ensures exists h :: HoldsPriv(c.grants, q, h, ROLE, x) && Reaches(g, h, r) {
      var h := PassedFrom(g, rolePrivs, inherited, r, x);
      assert HoldsPriv(c.grants, q, h, ROLE, x);
    }
  }

  lemma PassedFrom(g: Graph, rolePrivs: RolePrivs, inherited: map<string, Inheritance>, r: string, x: string)
    returns (h: string)
    requires ChildRoles(g, rolePrivs, inherited)
    requires r in WithChildren(rolePrivs, inherited) && x in WithChildren(rolePrivs, inherited)[r]
    ensures h in rolePrivs && x in rolePrivs[h] && Reaches(g, h, r)
  {
    if r in rolePrivs {
      h := r;
      ReachesSelf(g, r);
    } else {
      InheritanceSound(g, rolePrivs, inherited, r, x);
      h :| h in rolePrivs && x in rolePrivs[h] && StrictlyAbove(g, h, r);
    }
  }

  // What is known after steps 1 and 2.
  ghost predicate RolesDone(
      c: Collected, conn: Option<Db>, q: ObjectQuery, order: seq<string>, rows: seq<Row>, rolePrivs: RolePrivs) {
    && AllPrivileged(c, q, rolePrivs)
    && Spread(c, q, order, rolePrivs)
    && (forall r, x :: HasRow(rows, r, ROLE, x) <==> x in Own(rolePrivs, r))
    && (forall u, x :: HasRow(rows, u, USER, x) <==> HoldsPriv(c.grants, q, u, USER, x))
    && (forall row :: row in rows ==> RowSound(c, conn, q, order, row))
    && (forall row :: row in rows && row.grant.granteeType == USER ==>
          row.grant in c.grants && row.rel != IRRELEVANT)
  }

  lemma BaseSound(c: Collected, conn: Option<Db>, q: ObjectQuery, order: seq<string>, rows: seq<Row>, row: Row)
    requires Base(c, q, rows) && row in rows
    ensures RowSound(c, conn, q, order, row)
  {
  }

  lemma ChildRowSound(
      c: Collected, conn: Option<Db>, q: ObjectQuery, order: seq<string>, held: RolePrivs, inherited: map<string,
      Inheritance>,
      target: RowTarget, child: string, x: string)
    requires Held(c, q, held) && ChildRun(c.roleChildMap, held, order, inherited) && TargetFor(c, q, target)
    requires child in inherited && x in inherited[child].privs
    ensures RowSound(c, conn, q, order, InheritedRow(child, ROLE, x, inherited[child].origin, target))
  {
    HeldByHolders(c, q, held);
    InheritanceSound(c.roleChildMap, held, inherited, child, x);
    var h :| h in held && x in held[h] && StrictlyAbove(c.roleChildMap, h, child);
    RowMade(c, q, target, child, ROLE, x, inherited[child].origin, h);
    assert Reaches(c.roleChildMap, h, child);
  }

  lemma HeldByHolders(c: Collected, q: ObjectQuery, held: RolePrivs)
    requires Held(c, q, held)
    ensures held.Keys == Holders(c, q)
  {
    var rows := Relevant(c.grants, q);
    forall r ensures r in Holders(c, q) <==> HoldsRelevant(c.grants, q, r, ROLE) {
      if g :| g in c.grants && g.grantee == r && g.granteeType == ROLE && Classify(g, q) != IRRELEVANT {
        RelevantMember(c.grants, q, Row(g, Classify(g, q)));
        var i :| 0 <= i < |rows| && rows[i] == Row(g, Classify(g, q));
      }
      if i :| 0 <= i < |rows| && rows[i].grant.granteeType == ROLE && rows[i].grant.grantee == r {
        RelevantMember(c.grants, q, rows[i]);
      }
    }
  }

  lemma GatheredRows(rows: seq<Row>, rolePrivs: RolePrivs, r: string, x: string)
    requires Gathered(rows, rolePrivs)
    ensures HasRow(rows, r, ROLE, x) <==> x in Own(rolePrivs, r)
  {
    if row :| row in rows && row.grant.grantee == r && row.grant.granteeType == ROLE && row.grant.privilege == x {
      assert Lists(rows, r, ROLE);
    }
  }

  lemma BelowNeedsEdges(g: Graph, H: set<string>, c: string)
    ensures Below(g, H, c) ==> H != {} && g != map[]
  {
    if Below(g, H, c) {
      var h, n: nat :| h in H && n >= 1 && Walk(g, h, c, n);
      var p :| Walk(g, h, p, n - 1) && c in Next(g, p);
      assert p in g;
    }
  }

  lemma SpreadWithoutEdges(c: Collected, q: ObjectQuery, order: seq<string>, rolePrivs: RolePrivs)
    requires Held(c, q, rolePrivs) && (rolePrivs == map[] || c.roleChildMap == map[])
    requires Elements(order) == rolePrivs.Keys && NoRepeats(order)
    ensures Spread(c, q, order, rolePrivs)
  {
    var none: map<string, Inheritance> := map[];
    forall r ensures !Below(c.roleChildMap, rolePrivs.Keys, r) {
      BelowNeedsEdges(c.roleChildMap, rolePrivs.Keys, r);
    }
    assert ChildRun(c.roleChildMap, rolePrivs, order, none);
    assert rolePrivs == WithChildren(rolePrivs, none);
  }

  lemma BaseRolesDone(
      c: Collected, conn: Option<Db>, q: ObjectQuery, order: seq<string>, rows: seq<Row>, rolePrivs: RolePrivs)
    requires Base(c, q, rows) && Gathered(rows, rolePrivs)
    requires rolePrivs == map[] || c.roleChildMap == map[]
    requires Elements(order) == rolePrivs.Keys && NoRepeats(order)
    ensures RolesDone(c, conn, q, order, rows, rolePrivs)
  {
    assert AllPrivileged(c, q, rolePrivs) by {
      PrivilegedWithoutEdges(c, q, rows, rolePrivs);
    }
    assert Spread(c, q, order, rolePrivs) by {
      BaseHolders(c, q, rows, rolePrivs);
      SpreadWithoutEdges(c, q, order, rolePrivs);
    }
    assert forall u, x :: HasRow(rows, u, USER, x) <==> HoldsPriv(c.grants, q, u, USER, x) by {
      BaseHolders(c, q, rows, rolePrivs);
    }
    forall r, x ensures HasRow(rows, r, ROLE, x) <==> x in Own(rolePrivs, r) {
      GatheredRows(rows, rolePrivs, r, x);
    }
    forall row | row in rows ensures RowSound(c, conn, q, order, row) {
      BaseSound(c, conn, q, order, rows, row);
    }
  }

  lemma ChildRows(
      rows: seq<Row>, rolePrivs: RolePrivs,
      inherited: map<string, Inheritance>, added: seq<Row>, target: RowTarget, n: string, x: string)
    requires Gathered(rows, rolePrivs) && Pushed(added, ROLE, ChildGifts(rolePrivs, inherited), target)
    ensures HasRow(rows + added, n, ROLE, x) <==> x in Own(WithChildren(rolePrivs, inherited), n)
    ensures HasRow(rows + added, n, USER, x) <==> HasRow(rows, n, USER, x)
  {
    var give := ChildGifts(rolePrivs, inherited);
    RowsConcat(rows, added, n, ROLE, x);
    RowsConcat(rows, added, n, USER, x);
    PushedRows(added, ROLE, give, target, n, ROLE, x);
    PushedRows(added, ROLE, give, target, n, USER, x);
    GatheredRows(rows, rolePrivs, n, x);
  }

  lemma ChildRowsSound(
      c: Collected, conn: Option<Db>, q: ObjectQuery, order: seq<string>, rows: seq<Row>, held: RolePrivs,
      inherited: map<string, Inheritance>, added: seq<Row>, target: RowTarget, row: Row)
    requires Base(c, q, rows) && Held(c, q, held) && ChildRun(c.roleChildMap, held, order, inherited)
    requires TargetFor(c, q, target) && Pushed(added, ROLE, ChildGifts(held, inherited), target)
    requires row in rows + added
    ensures RowSound(c, conn, q, order, row)
  {
    if row in rows {
      BaseSound(c, conn, q, order, rows, row);
    } else {
      assert row in added;
      ChildRowSound(c, conn, q, order, held, inherited, target, row.grant.grantee, row.grant.privilege);
    }
  }

  lemma ChildRolesDone(
      c: Collected, conn: Option<Db>, q: ObjectQuery, order: seq<string>, rows: seq<Row>, rolePrivs: RolePrivs,
      inherited: map<string, Inheritance>, added: seq<Row>, target: RowTarget)
    requires Base(c, q, rows) && Gathered(rows, rolePrivs) && ChildRun(c.roleChildMap, rolePrivs, order, inherited)
    requires TargetFor(c, q, target)
    requires Pushed(added, ROLE, ChildGifts(rolePrivs, inherited), target)
    ensures RolesDone(c, conn, q, order, rows + added, WithChildren(rolePrivs, inherited))
  {
    var all := WithChildren(rolePrivs, inherited);
    assert AllPrivileged(c, q, all) by {
      PrivilegedWithChildren(c, q, rows, rolePrivs, inherited);
    }
    assert Held(c, q, rolePrivs) && Spread(c, q, order, all) by {
      BaseHolders(c, q, rows, rolePrivs);
    }
    assert forall u, x :: HasRow(rows, u, USER, x) <==> HoldsPriv(c.grants, q, u, USER, x) by {
      BaseHolders(c, q, rows, rolePrivs);
    }
    forall n, x
      ensures HasRow(rows + added, n, ROLE, x) <==> x in Own(all, n)
    {
      ChildRows(rows, rolePrivs, inherited, added, target, n, x);
    }
    forall n, x
      ensures HasRow(rows + added, n, USER, x) <==> HoldsPriv(c.grants, q, n, USER, x)
    {
      ChildRows(rows, rolePrivs, inherited, added, target, n, x);
    }
    forall row | row in rows + added ensures RowSound(c, conn, q, order, row) {
      ChildRowsSound(c, conn, q, order, rows, rolePrivs, inherited, added, target, row);
    }
  }

  lemma PrivilegedClosed(c: Collected, q: ObjectQuery, rolePrivs: RolePrivs)
    requires AllPrivileged(c, q, rolePrivs)
    ensures Closed(c.roleChildMap, rolePrivs.Keys)
  {
    forall v, w | v in rolePrivs && w in Next(c.roleChildMap, v) ensures w in rolePrivs {
      var h :| HoldsRelevant(c.grants, q, h, ROLE) && Reaches(c.roleChildMap, h, v);
      ReachesStep(c.roleChildMap, h, v, w);
      assert RoleListed(c, q, w);
    }
  }

  lemma HandedUp(
      c: Collected, conn: Option<Db>, q: ObjectQuery, rolePrivs: RolePrivs, parents: Graph, user: string, x: string,
      source: string)
    returns (h: string)
    requires AllPrivileged(c, q, rolePrivs) && IsInverse(c.roleChildMap, parents)
    requires CreditedUpward(parents, rolePrivs, Next(RolesOfUsers(c, conn), user), x, source)
    ensures HoldsPriv(c.grants, q, h, ROLE, x) && Reaches(c.roleChildMap, h, source)
  {
    var a :| Reaches(parents, source, a) && x in Own(rolePrivs, a);
    h :| HoldsPriv(c.grants, q, h, ROLE, x) && Reaches(c.roleChildMap, h, a);
    InverseReaches(c.roleChildMap, parents, a, source);
    ReachesTrans(c.roleChildMap, h, a, source);
  }

  lemma UserRowSound(
      c: Collected, conn: Option<Db>, q: ObjectQuery, order: seq<string>, rolePrivs: RolePrivs, parents: Graph,
      target: RowTarget, user: string, x: string, source: string)
    requires AllPrivileged(c, q, rolePrivs) && IsInverse(c.roleChildMap, parents) && TargetFor(c, q, target)
    requires CreditedUpward(parents, rolePrivs, Next(RolesOfUsers(c, conn), user), x, source)
    ensures RowSound(c, conn, q, order, InheritedRow(user, USER, x, source, target))
  {
    var h := HandedUp(c, conn, q, rolePrivs, parents, user, x, source);
    RowMade(c, q, target, user, USER, x, source, h);
    InheritedFields(user, USER, x, source, target);
  }

  lemma InheritedFields(name: string, t: GranteeType, x: string, source: string, target: RowTarget)
    ensures var g := InheritedRow(name, t, x, source, target).grant;
            g.grantee == name && g.granteeType == t && g.privilege == x && g.source == source
  {
  }

  // The privileges listed for a user: its own relevant grants when it has any or is not
  // among the collected users, else those of the roles assigned to it.
  ghost predicate UserPriv(
      c: Collected, conn: Option<Db>, q: ObjectQuery, rolePrivs: RolePrivs, user: string, x: string)
  {
    if user !in c.allUsers || HoldsRelevant(c.grants, q, user, USER) then HoldsPriv(c.grants, q, user, USER, x)
    else exists r :: r in Next(RolesOfUsers(c, conn), user) && x in Own(rolePrivs, r)
  }

  lemma UsersDone(
      c: Collected, conn: Option<Db>, q: ObjectQuery, order: seq<string>, rows: seq<Row>, rolePrivs: RolePrivs,
      parents: Graph,
      added: seq<Row>, give: map<string, map<string, string>>, target: RowTarget)
    requires RolesDone(c, conn, q, order, rows, rolePrivs) && IsInverse(c.roleChildMap, parents)
    requires TargetFor(c, q, target)
    requires Pushed(added, USER, give, target)
    requires forall u :: u in give <==> u in c.allUsers && !Lists(rows, u, USER)
    requires UserGifts(parents, rolePrivs, RolesOfUsers(c, conn), give)
    ensures RowsExact(c, conn, q, rows + added, rolePrivs)
    ensures forall row :: row in rows + added ==> RowSound(c, conn, q, order, row)
  {
    PrivilegedClosed(c, q, rolePrivs);
    forall r, x ensures HasRow(rows + added, r, ROLE, x) <==> x in Own(rolePrivs, r) {
      RowsConcat(rows, added, r, ROLE, x);
      PushedRows(added, USER, give, target, r, ROLE, x);
    }
    forall u, x ensures HasRow(rows + added, u, USER, x) <==> UserPriv(c, conn, q, rolePrivs, u, x) {
      RowsConcat(rows, added, u, USER, x);
      PushedRows(added, USER, give, target, u, USER, x);
      ListsSome(rows, u, USER);
      HoldsSome(c.grants, q, u, USER);
      if u in give {
        GiftExact(c.roleChildMap, parents, rolePrivs, Next(RolesOfUsers(c, conn), u), give[u], x);
      }
    }
    assert forall row :: row in rows + added <==> row in rows || row in added;
    forall row | row in added ensures RowSound(c, conn, q, order, row) {
      var n, x := row.grant.grantee, row.grant.privilege;
      UserRowSound(c, conn, q, order, rolePrivs, parents, target, n, x, give[n][x]);
    }
  }

  lemma HoldsSome(grants: seq<Grant>, q: ObjectQuery, name: string, t: GranteeType)
    ensures HoldsRelevant(grants, q, name, t) <==> exists x :: HoldsPriv(grants, q, name, t, x)
  {
    if g :| g in grants && g.grantee == name && g.granteeType == t && Classify(g, q) != IRRELEVANT {
      assert HoldsPriv(grants, q, name, t, g.privilege);
    }
  }

  // Exactly these privileges are listed.
  ghost predicate RowsExact(c: Collected, conn: Option<Db>, q: ObjectQuery, rows: seq<Row>, rolePrivs: RolePrivs) {
    && (forall r, x :: HasRow(rows, r, ROLE, x) <==> x in Own(rolePrivs, r))
    && (forall u, x :: HasRow(rows, u, USER, x) <==> UserPriv(c, conn, q, rolePrivs, u, x))
  }

  // The classified rows name exactly the right grantees with exactly the privileges
  // their roles pass on, and invent none.
  ghost predicate Resolved(c: Collected, conn: Option<Db>, q: ObjectQuery, rows: seq<Row>) {
    && (forall n :: Lists(rows, n, ROLE) <==> RoleListed(c, q, n))
    && (forall n :: Lists(rows, n, USER) <==> UserListed(c, conn, q, n))
    && exists order, rolePrivs ::
         && Spread(c, q, order, rolePrivs) && RowsExact(c, conn, q, rows, rolePrivs)
         && forall row :: row in rows ==> RowSound(c, conn, q, order, row)
  }

  lemma UserListedSome(c: Collected, conn: Option<Db>, q: ObjectQuery, rolePrivs: RolePrivs, u: string)
    requires AllPrivileged(c, q, rolePrivs)
    ensures UserListed(c, conn, q, u) <==> exists x :: UserPriv(c, conn, q, rolePrivs, u, x)
  {
    HoldsSome(c.grants, q, u, USER);
    if u in c.allUsers && !HoldsRelevant(c.grants, q, u, USER) {
      if r :| r in Next(RolesOfUsers(c, conn), u) && RoleListed(c, q, r) {
        var x :| x in rolePrivs[r];
        assert x in Own(rolePrivs, r);
        assert UserPriv(c, conn, q, rolePrivs, u, x);
      }
      if x :| UserPriv(c, conn, q, rolePrivs, u, x) {
        var r :| r in Next(RolesOfUsers(c, conn), u) && x in Own(rolePrivs, r);
        assert RoleListed(c, q, r);
      }
    } else {
      assert forall x :: UserPriv(c, conn, q, rolePrivs, u, x) <==> HoldsPriv(c.grants, q, u, USER, x);
    }
  }

  lemma ExactIsResolved(
      c: Collected, conn: Option<Db>, q: ObjectQuery, order: seq<string>, rows: seq<Row>, rolePrivs: RolePrivs)
    requires AllPrivileged(c, q, rolePrivs) && Spread(c, q, order, rolePrivs) && RowsExact(c, conn, q, rows, rolePrivs)
    requires forall row :: row in rows ==> RowSound(c, conn, q, order, row)
    ensures Resolved(c, conn, q, rows)
  {
    forall n ensures Lists(rows, n, ROLE) <==> RoleListed(c, q, n) {
      ListsSome(rows, n, ROLE);
      if RoleListed(c, q, n) {
        var x :| x in rolePrivs[n];
        assert x in Own(rolePrivs, n);
      }
    }
    forall n ensures Lists(rows, n, USER) <==> UserListed(c, conn, q, n) {
      ListsSome(rows, n, USER);
      UserListedSome(c, conn, q, rolePrivs, n);
    }
  }

  lemma NoUsersDone(
      c: Collected, conn: Option<Db>, q: ObjectQuery, order: seq<string>, rows: seq<Row>, rolePrivs: RolePrivs)
    requires RolesDone(c, conn, q, order, rows, rolePrivs)
    requires rolePrivs == map[] || c.allUsers == {} || RolesOfUsers(c, conn) == map[]
    ensures Resolved(c, conn, q, rows)
  {
    forall u, x ensures HasRow(rows, u, USER, x) <==> UserPriv(c, conn, q, rolePrivs, u, x) {
      HoldsSome(c.grants, q, u, USER);
    }
    ExactIsResolved(c, conn, q, order, rows, rolePrivs);
  }

  function UserNames(rows: seq<Row>): set<string> {
    set i | 0 <= i < |rows| && rows[i].grant.granteeType == USER :: rows[i].grant.grantee
  }

  lemma ExistingUsers(rows: seq<Row>, existing: set<string>)
    requires existing == UserNames(rows)
    ensures forall u :: u in existing <==> Lists(rows, u, USER)
  {
    forall u ensures u in existing <==> Lists(rows, u, USER) {
      if row :| row in rows && row.grant.grantee == u && row.grant.granteeType == USER {
        var i :| 0 <= i < |rows| && rows[i] == row;
      }
    }
  }

  lemma UsersResolved(
      c: Collected, conn: Option<Db>, q: ObjectQuery, order: seq<string>, rows: seq<Row>, rolePrivs: RolePrivs,
      parents: Graph, added: seq<Row>, give: map<string, map<string, string>>, target: RowTarget, existing: set<string>)
    requires RolesDone(c, conn, q, order, rows, rolePrivs) && IsInverse(c.roleChildMap, parents)
    requires TargetFor(c, q, target)
    requires Pushed(added, USER, give, target)
    requires existing == UserNames(rows) && give.Keys == c.allUsers - existing
    requires UserGifts(parents, rolePrivs, RolesOfUsers(c, conn), give)
    ensures Resolved(c, conn, q, rows + added)
  {
    ExistingUsers(rows, existing);
    UsersDone(c, conn, q, order, rows, rolePrivs, parents, added, give, target);
    ExactIsResolved(c, conn, q, order, rows + added, rolePrivs);
  }

  // ---------------------------------------------------------------------------
  // Users, whatever the parent edges

  // The parent edges of the search for users.
  ghost predicate ParentsUsed(c: Collected, conn: Option<Db>, parents: Graph) {
    if c.userRoleMap != map[] then IsInverse(c.roleChildMap, parents)
    else conn.Some? && parents == conn.value.parents
  }

  // The users looked up: those collected without a relevant grant of their own.
  ghost predicate LookedUp(c: Collected, conn: Option<Db>, q: ObjectQuery, rolePrivs: RolePrivs, u: string) {
    && rolePrivs != map[] && (c.userRoleMap != map[] || conn.Some?)
    && u in c.allUsers && !HoldsRelevant(c.grants, q, u, USER)
  }

  ghost predicate Gifts(
      c: Collected, conn: Option<Db>, q: ObjectQuery, rolePrivs: RolePrivs, parents: Graph,
      gifts: map<string, map<string, string>>)
  {
    && (forall u :: u in gifts <==> LookedUp(c, conn, q, rolePrivs, u))
    && (gifts != map[] ==> ParentsUsed(c, conn, parents))
    && UserGifts(parents, rolePrivs, RolesOfUsers(c, conn), gifts)
  }

  // A user row is a relevant collected grant, or passes on what the search gives the user.
  ghost predicate UserRowGiven(c: Collected, q: ObjectQuery, gifts: map<string, map<string, string>>, row: Row) {
    var g := row.grant;
    && row.rel == Classify(g, q)
    && (|| (g in c.grants && row.rel != IRRELEVANT)
        || (MadeFor(c, q, g) && g.grantee in gifts && g.privilege in gifts[g.grantee]
            && g.source == gifts[g.grantee][g.privilege]))
  }

  ghost predicate RowsGiven(
      c: Collected, conn: Option<Db>, q: ObjectQuery, order: seq<string>, rows: seq<Row>, rolePrivs: RolePrivs,
      gifts: map<string, map<string, string>>)
  {
    && (forall r, x :: HasRow(rows, r, ROLE, x) <==> x in Own(rolePrivs, r))
    && (forall u, x :: HasRow(rows, u, USER, x) <==>
          HoldsPriv(c.grants, q, u, USER, x) || (u in gifts && x in gifts[u]))
    && (forall row :: row in rows && row.grant.granteeType == ROLE ==> RowSound(c, conn, q, order, row))
    && (forall row :: row in rows && row.grant.granteeType == USER ==> UserRowGiven(c, q, gifts, row))
  }

  // The rows list exactly the privileges that the roles get down the child map, and that
  // the users get up the parent edges used.
  ghost predicate ResolvedBy(c: Collected, conn: Option<Db>, q: ObjectQuery, rows: seq<Row>) {
    exists order, rolePrivs, parents, gifts ::
      && AllPrivileged(c, q, rolePrivs) && Spread(c, q, order, rolePrivs)
      && Gifts(c, conn, q, rolePrivs, parents, gifts)
      && RowsGiven(c, conn, q, order, rows, rolePrivs, gifts)
  }

  lemma NobodyLookedUp(c: Collected, conn: Option<Db>, q: ObjectQuery, rolePrivs: RolePrivs)
    requires rolePrivs == map[] || c.allUsers == {} || (c.userRoleMap == map[] && conn.None?)
    ensures Gifts(c, conn, q, rolePrivs, map[], map[])
  {
  }

  lemma NobodyGiven(
      c: Collected, conn: Option<Db>, q: ObjectQuery, order: seq<string>, rows: seq<Row>, rolePrivs: RolePrivs)
    requires RolesDone(c, conn, q, order, rows, rolePrivs)
    requires rolePrivs == map[] || c.allUsers == {} || (c.userRoleMap == map[] && conn.None?)
    ensures ResolvedBy(c, conn, q, rows)
  {
    NobodyLookedUp(c, conn, q, rolePrivs);
    OwnRowsGiven(c, conn, q, order, rows, rolePrivs);
  }

  lemma OwnRowsGiven(
      c: Collected, conn: Option<Db>, q: ObjectQuery, order: seq<string>, rows: seq<Row>, rolePrivs: RolePrivs)
    requires RolesDone(c, conn, q, order, rows, rolePrivs)
    ensures RowsGiven(c, conn, q, order, rows, rolePrivs, map[])
  {
  }

  lemma GivenRowMade(
      c: Collected, conn: Option<Db>, q: ObjectQuery, rolePrivs: RolePrivs, parents: Graph, target: RowTarget,
      u: string, x: string, source: string)
    requires AllPrivileged(c, q, rolePrivs) && TargetFor(c, q, target)
    requires CreditedUpward(parents, rolePrivs, Next(RolesOfUsers(c, conn), u), x, source)
    ensures var row := InheritedRow(u, USER, x, source, target);
            row.rel == Classify(row.grant, q) && MadeFor(c, q, row.grant)
  {
    var a :| Reaches(parents, source, a) && x in Own(rolePrivs, a);
    var h :| HoldsPriv(c.grants, q, h, ROLE, x) && Reaches(c.roleChildMap, h, a);
    RowMade(c, q, target, u, USER, x, source, h);
  }

  lemma AllGiven(
      c: Collected, conn: Option<Db>, q: ObjectQuery, order: seq<string>, rows: seq<Row>, rolePrivs: RolePrivs,
      parents: Graph, added: seq<Row>, give: map<string, map<string, string>>, target: RowTarget)
    requires RolesDone(c, conn, q, order, rows, rolePrivs) && TargetFor(c, q, target)
    requires rolePrivs != map[] && (c.userRoleMap != map[] || conn.Some?) && ParentsUsed(c, conn, parents)
    requires Pushed(added, USER, give, target)
    requires forall u :: u in give <==> u in c.allUsers && !Lists(rows, u, USER)
    requires UserGifts(parents, rolePrivs, RolesOfUsers(c, conn), give)
    ensures ResolvedBy(c, conn, q, rows + added)
  {
    forall u ensures Lists(rows, u, USER) <==> HoldsRelevant(c.grants, q, u, USER) {
      ListsSome(rows, u, USER);
      HoldsSome(c.grants, q, u, USER);
    }
    assert Gifts(c, conn, q, rolePrivs, parents, give);
    forall n, x
      ensures HasRow(rows + added, n, ROLE, x) <==> x in Own(rolePrivs, n)
      ensures HasRow(rows + added, n, USER, x) <==>
              HoldsPriv(c.grants, q, n, USER, x) || (n in give && x in give[n])
    {
      RowsConcat(rows, added, n, ROLE, x);
      RowsConcat(rows, added, n, USER, x);
      PushedRows(added, USER, give, target, n, ROLE, x);
      PushedRows(added, USER, give, target, n, USER, x);
    }
    forall row | row in rows + added && row.grant.granteeType == USER ensures UserRowGiven(c, q, give, row) {
      GivenRow(c, conn, q, order, rows, rolePrivs, parents, added, give, target, row);
    }
    assert forall row :: row in rows + added && row.grant.granteeType == ROLE ==> row in rows;
    assert RowsGiven(c, conn, q, order, rows + added, rolePrivs, give);
  }

  lemma GivenRow(
      c: Collected, conn: Option<Db>, q: ObjectQuery, order: seq<string>, rows: seq<Row>, rolePrivs: RolePrivs,
      parents: Graph, added: seq<Row>, give: map<string, map<string, string>>, target: RowTarget, row: Row)
    requires RolesDone(c, conn, q, order, rows, rolePrivs) && TargetFor(c, q, target)
    requires Pushed(added, USER, give, target)
    requires UserGifts(parents, rolePrivs, RolesOfUsers(c, conn), give)
    requires row in rows + added && row.grant.granteeType == USER
    ensures UserRowGiven(c, q, give, row)
  {
    if row !in rows {
      assert row in added;
      var u, x := row.grant.grantee, row.grant.privilege;
      GivenRowMade(c, conn, q, rolePrivs, parents, target, u, x, give[u][x]);
    }
  }

  // ---------------------------------------------------------------------------
  // The grants of a role and of the roles above it

  function ParentsOf(conn: Option<Db>): Graph {
    if conn.Some? then conn.value.parents else map[]
  }

  function CreditOne(g: Grant, role: string, source: string): Grant {
    if g.grantee == role && g.granteeType == ROLE then g.(source := source) else g
  }

  // The grants after those of `role` were credited to `source`.
  function Attributed(grants: seq<Grant>, role: string, source: string): (r: seq<Grant>)
    ensures |r| == |grants|
  {
    seq(|grants|, i requires 0 <= i < |grants| => CreditOne(grants[i], role, source))
  }

  // The grants of `role`, credited to `source`.
  function RowsOf(grants: seq<Grant>, role: string, source: string): seq<Grant> {
    if grants == [] then []
    else
      var n := |grants| - 1;
      RowsOf(grants[..n], role, source) +
      if grants[n].grantee == role && grants[n].granteeType == ROLE then [grants[n].(source := source)] else []
  }

  lemma RowsOfNext(grants: seq<Grant>, i: nat, role: string, source: string)
    requires i < |grants|
    ensures var g := grants[i];
            RowsOf(grants[..i + 1], role, source) ==
            RowsOf(grants[..i], role, source) +
              if g.grantee == role && g.granteeType == ROLE then [g.(source := source)] else []
  {
    assert grants[..i + 1][..i] == grants[..i];
  }

  function ChainRows(grants: seq<Grant>, order: seq<string>, origin: map<string, string>): seq<Grant>
    requires forall v :: v in order ==> v in origin
  {
    if order == [] then []
    else
      var n := |order| - 1;
      ChainRows(grants, order[..n], origin) + RowsOf(grants, order[n], origin[order[n]])
  }

  // The grants of the role itself, then those of the chain.
  function Report(grants: seq<Grant>, role: string, order: seq<string>, origin: map<string, string>): seq<Grant>
    requires forall v :: v in order ==> v in origin
  {
    RowsOf(grants, role, "direct") + ChainRows(grants, order, origin)
  }

  // The grants after the whole chain was credited.
  function Credited(grants: seq<Grant>, role: string, origin: map<string, string>): (r: seq<Grant>)
    ensures |r| == |grants|
  {
    seq(|grants|, i requires 0 <= i < |grants| =>
      if grants[i].granteeType != ROLE then grants[i]
      else if grants[i].grantee == role then grants[i].(source := "direct")
      else if grants[i].grantee in origin then grants[i].(source := origin[grants[i].grantee])
      else grants[i])
  }

  lemma CreditedNone(grants: seq<Grant>, role: string)
    ensures Attributed(grants, role, "direct") == Credited(grants, role, map[])
  {
  }

  lemma CreditedNext(grants: seq<Grant>, role: string, origin: map<string, string>, parent: string, source: string)
    requires parent != role && parent !in origin
    ensures Attributed(Credited(grants, role, origin), parent, source) ==
            Credited(grants, role, origin[parent := source])
  {
  }

  // Crediting other roles before does not show in the rows of this one.
  lemma {:induction false} RowsOfCredited(
      grants: seq<Grant>, role: string, origin: map<string, string>, parent: string, source: string)
    requires parent != role && parent !in origin
    ensures RowsOf(Credited(grants, role, origin), parent, source) == RowsOf(grants, parent, source)
  {
    if grants != [] {
      var n := |grants| - 1;
      RowsOfCredited(grants[..n], role, origin, parent, source);
      assert Credited(grants, role, origin)[..n] == Credited(grants[..n], role, origin);
    }
  }

  lemma {:induction false} ChainRowsSame(
      grants: seq<Grant>, order: seq<string>, o1: map<string, string>, o2: map<string, string>)
    requires forall v :: v in order ==> v in o1 && v in o2 && o1[v] == o2[v]
    ensures ChainRows(grants, order, o1) == ChainRows(grants, order, o2)
  {
    if order != [] {
      ChainRowsSame(grants, order[..|order| - 1], o1, o2);
    }
  }

  // order lists every role of the chain once.
  ghost predicate Lines(order: seq<string>, origin: map<string, string>) {
    && |order| == |origin|
    && (forall v :: v in order ==> v in origin)
    && (forall v :: v in origin ==> v in order)
  }

  lemma ChainRowsNext(
      grants: seq<Grant>, role: string, order: seq<string>, origin: map<string, string>, parent: string, source: string)
    requires parent != role && parent !in origin && Lines(order, origin)
    ensures Lines(order + [parent], origin[parent := source])
    ensures Report(grants, role, order + [parent], origin[parent := source]) ==
            Report(grants, role, order, origin) + RowsOf(Credited(grants, role, origin), parent, source)
  {
    var longer, more := order + [parent], origin[parent := source];
    assert forall v :: v in longer <==> v in order || v == parent;
    ChainRowsSame(grants, order, origin, more);
    RowsOfCredited(grants, role, origin, parent, source);
    assert longer[..|order|] == order;
    ConcatAssociates(RowsOf(grants, role, "direct"), ChainRows(grants, order, origin), RowsOf(grants, parent, source));
  }

  lemma {:induction false} RowsOfMember(grants: seq<Grant>, role: string, source: string, g: Grant)
    ensures g in RowsOf(grants, role, source) <==>
            exists h :: h in grants && h.granteeType == ROLE && h.grantee == role && g == h.(source := source)
  {
    if grants != [] {
      var init, last := grants[..|grants| - 1], grants[|grants| - 1];
      RowsOfMember(init, role, source, g);
      assert grants == init + [last];
    }
  }

  lemma {:induction false} ChainRowsMember(
      grants: seq<Grant>, order: seq<string>, origin: map<string, string>, g: Grant)
    requires forall v :: v in order ==> v in origin
    ensures g in ChainRows(grants, order, origin) <==>
            g.grantee in order && g in RowsOf(grants, g.grantee, origin[g.grantee])
  {
    if order != [] {
      var init, last := order[..|order| - 1], order[|order| - 1];
      ChainRowsMember(grants, init, origin, g);
      assert order == init + [last];
      RowsOfMember(grants, last, origin[last], g);
    }
  }

  // g is a collected grant of the role or of an ancestor listed, under its source.
  ghost predicate Reported(
      grants: seq<Grant>, role: string, order: seq<string>, origin: map<string, string>, g: Grant)
    requires forall v :: v in order ==> v in origin
  {
    && g.granteeType == ROLE
    && (exists h :: h in grants && g == h.(source := g.source))
    && ((g.grantee == role && g.source == "direct") || (g.grantee in order && g.source == origin[g.grantee]))
  }

  // Exactly these are listed, and they are what the collected grants hold afterwards.
  lemma ReportExact(
      grants: seq<Grant>, role: string, order: seq<string>, origin: map<string, string>, g: Grant)
    requires Lines(order, origin) && role !in origin
    ensures g in Report(grants, role, order, origin) <==> Reported(grants, role, order, origin, g)
    ensures g in Report(grants, role, order, origin) ==> g in Credited(grants, role, origin)
  {
    RowsOfMember(grants, role, "direct", g);
    ChainRowsMember(grants, order, origin, g);
    if g.grantee in order {
      RowsOfMember(grants, g.grantee, origin[g.grantee], g);
    }
    if Reported(grants, role, order, origin, g) {
      var h :| h in grants && g == h.(source := g.source);
      assert h.grantee == g.grantee && h.granteeType == ROLE && g == h.(source := g.source);
      var i :| 0 <= i < |grants| && grants[i] == h;
      assert Credited(grants, role, origin)[i] == g;
    }
  }

  // The collected grants of the other roles and of the users are not changed.
  lemma OthersStay(grants: seq<Grant>, role: string, origin: map<string, string>, i: nat)
    requires i < |grants|
    requires grants[i].granteeType == ROLE ==> grants[i].grantee != role && grants[i].grantee !in origin
    ensures Credited(grants, role, origin)[i] == grants[i]
  {
  }

  ghost predicate ForRoleInv(
      g: Graph, role: string, s: Search, visited: set<string>, order: seq<string>, origin: map<string, string>)
  {
    && Climbing(g, role, s, visited) && origin == Minus(s.origin, role) && Lines(order, origin)
    && ByDistance(g, Elements(Next(g, role)), order)
  }

  lemma ForRoleStart(g: Graph, role: string)
    ensures ForRoleInv(g, role, Start(Next(g, role)), {role}, [], map[])
  {
    StartClimbing(g, role);
  }

  lemma ForRoleSkip(
      g: Graph, role: string, s: Search, visited: set<string>, order: seq<string>, origin: map<string, string>)
    returns (t: Search)
    requires ForRoleInv(g, role, s, visited, order, origin) && s.queue != [] && s.queue[0].0 in visited
    ensures ForRoleInv(g, role, t, visited, order, origin) && t.queue == s.queue[1..]
  {
    t := ClimbPast(g, role, s, visited);
  }

  lemma ForRoleStep(
      grants: seq<Grant>, g: Graph, role: string, s: Search, visited: set<string>,
      order: seq<string>, origin: map<string, string>)
    returns (t: Search, order': seq<string>, origin': map<string, string>)
    requires ForRoleInv(g, role, s, visited, order, origin) && s.queue != [] && s.queue[0].0 !in visited
    ensures var (parent, source) := s.queue[0];
            && ForRoleInv(g, role, t, visited + {parent}, order', origin')
            && t.queue == s.queue[1..] + Tag(Next(g, parent), source)
            && Attributed(Credited(grants, role, origin), parent, source) == Credited(grants, role, origin')
            && Report(grants, role, order', origin') ==
               Report(grants, role, order, origin) + RowsOf(Credited(grants, role, origin), parent, source)
  {
    var (parent, source) := s.queue[0];
    CreditedNext(grants, role, origin, parent, source);
    ChainRowsNext(grants, role, order, origin, parent, source);
    forall u | u in order ensures NoFarther(g, Elements(Next(g, role)), u, parent) {
      ClimbNearest(g, role, s, visited, u, parent);
    }
    ByDistanceNext(g, Elements(Next(g, role)), order, parent);
    t := ClimbTo(g, role, s, visited);
    order', origin' := order + [parent], origin[parent := source];
  }

  // ---------------------------------------------------------------------------
  // Sessions without the list of all users

  predicate ChainCase(c: Collected) {
    c.allUsers == {} && c.userRoleChain != map[]
  }

  function GrantedUsers(c: Collected): set<string> {
    set i | 0 <= i < |c.grants| && c.grants[i].granteeType == USER :: c.grants[i].grantee
  }

  // The user of the session is any one of the users with collected grants, unless the one
  // taken has no name.
  ghost predicate SessionUser(c: Collected, user: Option<string>) {
    && (user.Some? ==> ChainCase(c) && user.value in GrantedUsers(c) && user.value != "")
    && (user.None? ==> !ChainCase(c) || GrantedUsers(c) == {} || "" in GrantedUsers(c))
  }

  // The rows behind the final conversion, with those of the session where there is one.
  ghost predicate AllRows(c: Collected, conn: Option<Db>, q: ObjectQuery, user: Option<string>, rows: seq<Row>) {
    if ChainCase(c) then
      exists base :: Resolved(c, conn, q, base) && ChainAdded(base, q, c.userRoleChain, conn, user, rows)
    else Resolved(c, conn, q, rows)
  }

  ghost predicate RoleNamed(c: Collected, conn: Option<Db>, q: ObjectQuery, n: string) {
    || RoleListed(c, q, n)
    || (ChainCase(c) && n in c.userRoleChain && conn.Some?
        && exists a :: a in Ancestors(conn.value.parents, n) && RoleListed(c, q, a))
  }

  ghost predicate UserNamed(c: Collected, conn: Option<Db>, q: ObjectQuery, user: Option<string>, n: string) {
    UserListed(c, conn, q, n) || (ChainCase(c) && user == Some(n) && exists r :: RoleListed(c, q, r))
  }

  lemma ChainNamesRole(
      c: Collected, conn: Option<Db>, q: ObjectQuery, user: Option<string>, base: seq<Row>, rows: seq<Row>, n: string)
    requires ChainCase(c) && Resolved(c, conn, q, base)
    requires ChainAdded(base, q, c.userRoleChain, conn, user, rows)
    ensures Lists(rows, n, ROLE) <==> RoleNamed(c, conn, q, n)
  {
    ListsSome(rows, n, ROLE);
    ListsSome(base, n, ROLE);
    if x :| HasRow(rows, n, ROLE, x) {
      ChainAddedRows(base, q, c.userRoleChain, conn, user, rows, n, x);
      ChainRowNamed(c, conn, q, base, n, x);
    }
    if RoleNamed(c, conn, q, n) {
      var x := NamedRow(c, conn, q, base, n);
      ChainAddedRows(base, q, c.userRoleChain, conn, user, rows, n, x);
    }
  }

  lemma ChainRowNamed(c: Collected, conn: Option<Db>, q: ObjectQuery, base: seq<Row>, n: string, x: string)
    requires ChainCase(c) && Resolved(c, conn, q, base)
    requires HasRow(base, n, ROLE, x) || ChainPriv(base, c.userRoleChain.Keys, conn, n, x)
    ensures RoleNamed(c, conn, q, n)
  {
    ListsSome(base, n, ROLE);
    if !HasRow(base, n, ROLE, x) {
      var a :| a in Ancestors(conn.value.parents, n) && HasRow(base, a, ROLE, x);
      ListsSome(base, a, ROLE);
    }
  }

  lemma NamedRow(c: Collected, conn: Option<Db>, q: ObjectQuery, base: seq<Row>, n: string) returns (x: string)
    requires ChainCase(c) && Resolved(c, conn, q, base) && RoleNamed(c, conn, q, n)
    ensures HasRow(base, n, ROLE, x) || ChainPriv(base, c.userRoleChain.Keys, conn, n, x)
  {
    ListsSome(base, n, ROLE);
    if RoleListed(c, q, n) {
      x :| HasRow(base, n, ROLE, x);
    } else {
      var a :| a in Ancestors(conn.value.parents, n) && RoleListed(c, q, a);
      ListsSome(base, a, ROLE);
      x :| HasRow(base, a, ROLE, x);
    }
  }

  lemma ChainNamesUser(
      c: Collected, conn: Option<Db>, q: ObjectQuery, user: Option<string>, base: seq<Row>, rows: seq<Row>, n: string)
    requires ChainCase(c) && Resolved(c, conn, q, base)
    requires ChainAdded(base, q, c.userRoleChain, conn, user, rows)
    ensures Lists(rows, n, USER) <==> UserNamed(c, conn, q, user, n)
  {
    UserAdded(q, c.userRoleChain, conn, user, base, rows, n);
    SomeRoleListed(c, conn, q, base);
  }

  lemma UserAdded(
      q: ObjectQuery, chain: map<string, string>, conn: Option<Db>, user: Option<string>, base: seq<Row>,
      rows: seq<Row>, n: string)
    requires ChainAdded(base, q, chain, conn, user, rows)
    ensures Lists(rows, n, USER) <==> Lists(base, n, USER) || (user == Some(n) && exists x :: HeldByRole(base, x))
  {
    forall x ensures HasRow(rows, n, USER, x) <==>
                     HasRow(base, n, USER, x) || (user == Some(n) && HeldByRole(base, x))
    {
      ChainAddedRows(base, q, chain, conn, user, rows, n, x);
    }
    ListsSome(rows, n, USER);
    ListsSome(base, n, USER);
  }

  lemma SomeRoleListed(c: Collected, conn: Option<Db>, q: ObjectQuery, base: seq<Row>)
    requires Resolved(c, conn, q, base)
    ensures (exists r :: RoleListed(c, q, r)) <==> exists x :: HeldByRole(base, x)
  {
    if r :| RoleListed(c, q, r) {
      ListsSome(base, r, ROLE);
      var x :| HasRow(base, r, ROLE, x);
      assert HeldByRole(base, x);
    }
    if x :| HeldByRole(base, x) {
      var r :| HasRow(base, r, ROLE, x);
      ListsSome(base, r, ROLE);
      assert RoleListed(c, q, r);
    }
  }

  // Exactly these names are listed.
  lemma NamesAll(c: Collected, conn: Option<Db>, q: ObjectQuery, user: Option<string>, rows: seq<Row>, n: string)
    requires AllRows(c, conn, q, user, rows)
    ensures Lists(rows, n, ROLE) <==> RoleNamed(c, conn, q, n)
    ensures Lists(rows, n, USER) <==> UserNamed(c, conn, q, user, n)
  {
    if ChainCase(c) {
      var base :| Resolved(c, conn, q, base) && ChainAdded(base, q, c.userRoleChain, conn, user, rows);
      ChainNamesRole(c, conn, q, user, base, rows, n);
      ChainNamesUser(c, conn, q, user, base, rows, n);
    }
  }

  // Where a grant of the answer comes from: it was collected and is relevant, or it passes
  // on a relevant grant of some role, or it is a USAGE on what is queried.
  ghost predicate Sourced(c: Collected, q: ObjectQuery, g: Grant) {
    || (g in c.grants && Classify(g, q) !in {IRRELEVANT, IMPLICIT_USAGE})
    || PassedOn(c, q, g)
    || exists h :: UsageOf(g, q, h)
  }

  ghost predicate PassedOn(c: Collected, q: ObjectQuery, g: Grant) {
    exists h :: h in c.grants && h.granteeType == ROLE && Classify(h, q) != IRRELEVANT && PassesOn(g, h, q)
  }

  // A row holds a relevant collected grant or passes one on.
  ghost predicate RowSourced(c: Collected, q: ObjectQuery, row: Row) {
    && row.rel == Classify(row.grant, q)
    && ((row.grant in c.grants && row.rel != IRRELEVANT) || PassedOn(c, q, row.grant))
  }

  lemma MadeIsPassedOn(c: Collected, q: ObjectQuery, g: Grant)
    requires MadeFor(c, q, g)
    ensures PassedOn(c, q, g)
  {
    var rows := Relevant(c.grants, q);
    var i :| FirstRoleRow(rows, g.privilege, i) && PassesOn(g, rows[i].grant, q);
    RelevantMember(c.grants, q, rows[i]);
  }

  lemma BaseSourced(c: Collected, conn: Option<Db>, q: ObjectQuery, rows: seq<Row>, row: Row)
    requires Resolved(c, conn, q, rows) || ResolvedBy(c, conn, q, rows)
    requires row in rows
    ensures RowSourced(c, q, row)
  {
    if MadeFor(c, q, row.grant) {
      MadeIsPassedOn(c, q, row.grant);
    }
  }

  lemma ChainSourced(
      c: Collected, conn: Option<Db>, q: ObjectQuery, user: Option<string>, base: seq<Row>, rows: seq<Row>, row: Row)
    requires Resolved(c, conn, q, base) && ChainAdded(base, q, c.userRoleChain, conn, user, rows) && row in rows
    ensures RowSourced(c, q, row)
  {
    AddedRowFields(base, q, c.userRoleChain, conn, user, rows, row);
    if row in base {
      BaseSourced(c, conn, q, base, row);
    } else {
      var h :| RoleGrant(base, h) && PassesOn(row.grant, h, q);
      var from :| from in base && from.grant == h;
      BaseSourced(c, conn, q, base, from);
      if PassedOn(c, q, h) {
        var k :| k in c.grants && k.granteeType == ROLE && Classify(k, q) != IRRELEVANT && PassesOn(h, k, q);
        PassesOnTwice(row.grant, h, k, q);
      }
    }
  }

  lemma AnswerSourced(c: Collected, q: ObjectQuery, rows: seq<Row>, grants: seq<Grant>, g: Grant)
    requires forall row :: row in rows ==> RowSourced(c, q, row)
    requires NormalForm(rows, q, grants) && g in grants
    ensures Sourced(c, q, g)
  {
    AnswerIs(rows, q, grants, g);
  }

  lemma RowsSourced(c: Collected, conn: Option<Db>, q: ObjectQuery, user: Option<string>, rows: seq<Row>)
    requires ResolvedBy(c, conn, q, rows) || AllRows(c, conn, q, user, rows)
    ensures forall row :: row in rows ==> RowSourced(c, q, row)
  {
    forall row | row in rows ensures RowSourced(c, q, row) {
      if ResolvedBy(c, conn, q, rows) || !ChainCase(c) {
        BaseSourced(c, conn, q, rows, row);
      } else {
        var base :| Resolved(c, conn, q, base) && ChainAdded(base, q, c.userRoleChain, conn, user, rows);
        ChainSourced(c, conn, q, user, base, rows, row);
      }
    }
  }

  lemma AnswerSources(
      c: Collected, conn: Option<Db>, q: ObjectQuery, user: Option<string>, rows: seq<Row>, grants: seq<Grant>)
    requires ResolvedBy(c, conn, q, rows) || AllRows(c, conn, q, user, rows)
    requires NormalForm(rows, q, grants)
    ensures forall g :: g in grants ==> Sourced(c, q, g)
  {
    RowsSourced(c, conn, q, user, rows);
    forall g | g in grants ensures Sourced(c, q, g) {
      AnswerSourced(c, q, rows, grants, g);
    }
  }

  // ---------------------------------------------------------------------------
  // Queries for the system

  ghost predicate HoldsOnSystem(grants: seq<Grant>, n: string, t: GranteeType) {
    exists g :: g in grants && g.grantee == n && g.granteeType == t && Upper(g.objectType) == "SYSTEM"
  }

  // A role with a grant on the system reaches n.
  ghost predicate OnSystem(c: Collected, n: string) {
    exists h :: HoldsOnSystem(c.grants, h, ROLE) && Reaches(c.roleChildMap, h, n)
  }

  // By the collected map if there is one, else by the database.
  predicate AssignedTo(c: Collected, conn: Option<Db>, n: string, r: string) {
    if c.userRoleMap != map[] then r in Next(c.userRoleMap, n)
    else conn.Some? && r in Next(conn.value.userRoles, n)
  }

  // n holds such a grant itself or is assigned such a role.
  ghost predicate UserOnSystem(c: Collected, conn: Option<Db>, n: string) {
    || HoldsOnSystem(c.grants, n, USER)
    || (n in c.allUsers && exists r :: OnSystem(c, r) && AssignedTo(c, conn, n, r))
  }

  lemma SystemRelevant(c: Collected, q: ObjectQuery, n: string, t: GranteeType)
    requires q.TypeUpper() == "SYSTEM"
    ensures HoldsRelevant(c.grants, q, n, t) <==> HoldsOnSystem(c.grants, n, t)
  {
    forall g ensures Classify(g, q) != IRRELEVANT <==> Upper(g.objectType) == "SYSTEM" {
      SystemLaw(g, q);
    }
  }

  lemma SystemListed(c: Collected, conn: Option<Db>, q: ObjectQuery, n: string)
    requires q.TypeUpper() == "SYSTEM"
    ensures RoleListed(c, q, n) <==> OnSystem(c, n)
    ensures UserListed(c, conn, q, n) <==> UserOnSystem(c, conn, n)
  {
    forall m, t ensures HoldsRelevant(c.grants, q, m, t) <==> HoldsOnSystem(c.grants, m, t) {
      SystemRelevant(c, q, m, t);
    }
    forall r ensures RoleListed(c, q, r) <==> OnSystem(c, r) {
    }
  }

  lemma SystemOwesNothing(c: Collected, q: ObjectQuery, rows: seq<Row>)
    requires q.TypeUpper() == "SYSTEM" && forall row :: row in rows ==> RowSourced(c, q, row)
    ensures forall row :: row in rows ==> row.rel != IMPLICIT_USAGE
  {
    forall row | row in rows ensures row.rel != IMPLICIT_USAGE {
      SystemLaw(row.grant, q);
    }
  }

  lemma GivenRoles(c: Collected, conn: Option<Db>, q: ObjectQuery, rows: seq<Row>, n: string)
    requires ResolvedBy(c, conn, q, rows)
    ensures Lists(rows, n, ROLE) <==> RoleListed(c, q, n)
  {
    var order, rolePrivs, parents, gifts :|
      && AllPrivileged(c, q, rolePrivs) && Spread(c, q, order, rolePrivs)
      && Gifts(c, conn, q, rolePrivs, parents, gifts)
      && RowsGiven(c, conn, q, order, rows, rolePrivs, gifts);
    ListsSome(rows, n, ROLE);
    if RoleListed(c, q, n) {
      var x :| x in rolePrivs[n];
      assert x in Own(rolePrivs, n);
    }
  }

  // A query for the system is answered with exactly the roles below one with a grant on
  // the system, and with the users assigned one of these.
  ghost predicate SystemAnswer(c: Collected, conn: Option<Db>, q: ObjectQuery, grants: seq<Grant>) {
    && (forall n :: ListsGrant(grants, n, ROLE) <==> OnSystem(c, n))
    && (ParentsAgree(c, conn) ==> forall n :: ListsGrant(grants, n, USER) <==> UserOnSystem(c, conn, n))
  }

  lemma SystemAnswers(c: Collected, conn: Option<Db>, q: ObjectQuery, rows: seq<Row>, grants: seq<Grant>)
    requires q.TypeUpper() == "SYSTEM" && ResolvedBy(c, conn, q, rows) && NormalForm(rows, q, grants)
    requires forall row :: row in rows ==> RowSourced(c, q, row)
    requires ParentsAgree(c, conn) ==> Resolved(c, conn, q, rows)
    ensures SystemAnswer(c, conn, q, grants)
  {
    SystemOwesNothing(c, q, rows);
    forall n ensures ListsGrant(grants, n, ROLE) <==> OnSystem(c, n) {
      ListsNames(rows, q, grants, n, ROLE);
      GivenRoles(c, conn, q, rows, n);
      SystemListed(c, conn, q, n);
    }
    if ParentsAgree(c, conn) {
      forall n ensures ListsGrant(grants, n, USER) <==> UserOnSystem(c, conn, n) {
        ListsNames(rows, q, grants, n, USER);
        SystemListed(c, conn, q, n);
      }
    }
  }

  // The answer names these and no others; where a user and a role share a name, at least
  // one of the two.
  ghost predicate NamesExactly(
      c: Collected, conn: Option<Db>, q: ObjectQuery, user: Option<string>, grants: seq<Grant>)
  {
    forall n ::
      && (ListsGrant(grants, n, ROLE) ==> RoleNamed(c, conn, q, n))
      && (ListsGrant(grants, n, USER) ==> UserNamed(c, conn, q, user, n))
      && (RoleNamed(c, conn, q, n) || UserNamed(c, conn, q, user, n) ==>
            ListsGrant(grants, n, ROLE) || ListsGrant(grants, n, USER))
      && (!(UserNamed(c, conn, q, user, n) && RoleNamed(c, conn, q, n)) ==>
            && (ListsGrant(grants, n, ROLE) <==> RoleNamed(c, conn, q, n))
            && (ListsGrant(grants, n, USER) <==> UserNamed(c, conn, q, user, n)))
  }

  lemma AnswerNames(c: Collected, conn: Option<Db>, q: ObjectQuery, user: Option<string>, rows: seq<Row>)
    requires AllRows(c, conn, q, user, rows)
    ensures NamesExactly(c, conn, q, user, Unique(Converted(rows, q), ROW_KEY))
  {
    forall n
      ensures Lists(rows, n, ROLE) <==> RoleNamed(c, conn, q, n)
      ensures Lists(rows, n, USER) <==> UserNamed(c, conn, q, user, n)
    {
      NamesAll(c, conn, q, user, rows, n);
    }
    var grants := Unique(Converted(rows, q), ROW_KEY);
    forall n, t ensures (ListsGrant(grants, n, t) <==> Survives(rows, n, t))
                        && (Survives(rows, n, t) ==> Lists(rows, n, t))
                        && (Lists(rows, n, t) ==> Survives(rows, n, USER) || Survives(rows, n, ROLE))
                        && (!(Lists(rows, n, USER) && Lists(rows, n, ROLE)) ==>
                              (Survives(rows, n, t) <==> Lists(rows, n, t)))
    {
      FinalGrantees(rows, q, n, t);
    }
  }

  class Resolver {
    var collected: Collected
    const conn: Option<Db>

    constructor (collected: Collected, conn: Option<Db>)
      ensures this.collected == collected && this.conn == conn
    {
      this.collected := collected;
      this.conn := conn;
    }

    // Steps 1 and 2. `order` is the order in which the holders are taken.
    method ResolveRoles(q: ObjectQuery)
      returns (rows: seq<Row>, rolePrivs: RolePrivs, target: RowTarget, ghost order: seq<string>)
      ensures RolesDone(collected, conn, q, order, rows, rolePrivs)
      ensures TargetFor(collected, q, target)
    {
      rows := ClassifyAll(collected.grants, q);
      RelevantBase(collected, q);
      var origType;
      rolePrivs, origType := RolePrivileges(rows);
      target := RowTarget(q, origType, g => Classify(g, q));
      if rolePrivs != map[] && collected.roleChildMap != map[] {
        var inherited;
        inherited, order := BfsChildRoles(rolePrivs, collected.roleChildMap);
        ghost var base, held, added := rows, rolePrivs, [];
        rows, rolePrivs, added := AddChildRoles(rows, rolePrivs, inherited, target);
        ChildRolesDone(collected, conn, q, order, base, held, inherited, added, target);
      } else {
        order := OrderOf(rolePrivs.Keys);
        BaseRolesDone(collected, conn, q, order, rows, rolePrivs);
      }
    }

    // Step 3. Whatever parent edges are used, every user gets exactly what the search over
    // them finds; when they agree with the child map, that is what the model of the whole
    // resolution says.
    method ResolveUsers(
        q: ObjectQuery, rows: seq<Row>, rolePrivs: RolePrivs, target: RowTarget, ghost order: seq<string>)
      returns (r: seq<Row>)
      requires RolesDone(collected, conn, q, order, rows, rolePrivs)
      requires TargetFor(collected, q, target)
      ensures ResolvedBy(collected, conn, q, r)
      ensures ParentsAgree(collected, conn) || collected.allUsers == {} ==> Resolved(collected, conn, q, r)
    {
      r := rows;
      if rolePrivs == map[] || collected.allUsers == {} || (collected.userRoleMap == map[] && conn.None?) {
        NoUsersDone(collected, conn, q, order, rows, rolePrivs);
        NobodyGiven(collected, conn, q, order, rows, rolePrivs);
        return;
      }
      var existing := UserNames(rows);
      var roles, parents := RolesOfUsers(collected, conn), map[];
      if collected.userRoleMap != map[] {
        parents := InvertChildMap(collected.roleChildMap);
      } else {
        parents := conn.value.parents;
      }
      ghost var added, give;
      r, added, give := AddUsers(rows, rolePrivs, collected.allUsers - existing, roles, parents, target);
      ExistingUsers(rows, existing);
      AllGiven(collected, conn, q, order, rows, rolePrivs, parents, added, give, target);
      if ParentsAgree(collected, conn) {
        UsersResolved(collected, conn, q, order, rows, rolePrivs, parents, added, give, target, existing);
      }
    }

    // Step 4.
    method ResolveSession(q: ObjectQuery, rows: seq<Row>) returns (r: seq<Row>, ghost user: Option<string>)
      ensures SessionUser(collected, user)
      ensures Resolved(collected, conn, q, rows) ==> AllRows(collected, conn, q, user, r)
      ensures !ChainCase(collected) ==> r == rows
    {
      r, user := rows, None;
      if ChainCase(collected) {
        r, user := AddChain(rows, q, collected.userRoleChain, conn, GrantedUsers(collected));
      }
    }

    // The resolution of an object query. Before the final conversion the rows list exactly
    // the right grantees and privileges. The answer says what the rows say, once, and so
    // names the right grantees, for every name that is not both a user and a role; of two
    // that share a name it keeps at least one.
    method ForObject(q: ObjectQuery) returns (grants: seq<Grant>, ghost user: Option<string>, ghost rows: seq<Row>)
      ensures SessionUser(collected, user)
      ensures NormalForm(rows, q, grants)
      ensures forall g :: g in grants ==> Sourced(collected, q, g)
      ensures !ChainCase(collected) ==> ResolvedBy(collected, conn, q, rows)
      ensures ParentsAgree(collected, conn) || ChainCase(collected) ==>
                AllRows(collected, conn, q, user, rows) && NamesExactly(collected, conn, q, user, grants)
      ensures q.TypeUpper() == "SYSTEM" && !ChainCase(collected) ==> SystemAnswer(collected, conn, q, grants)
    {
      var classified, rolePrivs, target, order := ResolveRoles(q);
      classified := ResolveUsers(q, classified, rolePrivs, target, order);
      classified, user := ResolveSession(q, classified);
      grants := Finalize(classified, q);
      rows := classified;
      AnswerSources(collected, conn, q, user, rows, grants);
      if ParentsAgree(collected, conn) || ChainCase(collected) {
        AnswerNames(collected, conn, q, user, rows);
      }
      if q.TypeUpper() == "SYSTEM" && !ChainCase(collected) {
        RowsSourced(collected, conn, q, user, rows);
        SystemAnswers(collected, conn, q, rows, grants);
      }
    }

    // The loop that credits the grants of one role to `source`, in place, and lists them.
    method Attribute(role: string, source: string, results: seq<Grant>) returns (r: seq<Grant>)
      modifies this
      ensures collected == old(collected).(grants := Attributed(old(collected.grants), role, source))
      ensures r == results + RowsOf(old(collected.grants), role, source)
    {
      r := results;
      ghost var grants := collected.grants;
      for i := 0 to |collected.grants|
        invariant |collected.grants| == |grants| && collected == old(collected).(grants := collected.grants)
        invariant forall k :: 0 <= k < |grants| ==>
                    collected.grants[k] == if k < i then CreditOne(grants[k], role, source) else grants[k]
        invariant r == results + RowsOf(grants[..i], role, source)
      {
        RowsOfNext(grants, i, role, source);
        var g := collected.grants[i];
        if g.grantee == role && g.granteeType == ROLE {
          var credited := g.(source := source);
          collected := collected.(grants := collected.grants[i := credited]);
          r := r + [credited];
        }
      }
      assert grants[..|grants|] == grants;
    }

    // A role's own grants, then those of the roles above it, nearest roles first and at
    // most 99 of them. The collected grants listed are overwritten with their source.
    method ForRole(role: string)
      returns (results: seq<Grant>, ghost order: seq<string>, ghost origin: map<string, string>)
      modifies this
      ensures AncestorChain(ParentsOf(conn), role, 99, origin)
      ensures Lines(order, origin) && ByDistance(ParentsOf(conn), Elements(Next(ParentsOf(conn), role)), order)
      ensures results == Report(old(collected.grants), role, order, origin)
      ensures collected == old(collected).(grants := Credited(old(collected.grants), role, origin))
    {
      ghost var grants := collected.grants;
      ghost var g := ParentsOf(conn);
      results := Attribute(role, "direct", []);
      var visited := {role};
      var queue := SelfTag(Next(ParentsOf(conn), role));
      ghost var s := Start(Next(g, role));
      order, origin := [], map[];
      ForRoleStart(g, role);
      CreditedNone(grants, role);
      while queue != [] && |visited| < 100
        invariant queue == s.queue && |visited| <= 100
        invariant ForRoleInv(g, role, s, visited, order, origin)
        invariant results == Report(grants, role, order, origin)
        invariant collected == old(collected).(grants := Credited(grants, role, origin))
        decreases 100 - |visited|, |queue|
      {
        var (parent, source) := queue[0];
        queue := queue[1..];
        if parent in visited {
          s := ForRoleSkip(g, role, s, visited, order, origin);
          continue;
        }
        s, order, origin := ForRoleStep(grants, g, role, s, visited, order, origin);
        visited := visited + {parent};
        results := Attribute(parent, source, results);
        queue := queue + Tag(Next(ParentsOf(conn), parent), source);
      }
      ClimbDone(g, role, s, visited, 99);
    }
  }
}
