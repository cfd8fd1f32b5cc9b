/**
  The step of the resolution for a session without the list of all users: the roles of the
  session's own chain inherit from their ancestors, and the session's user from every role.
 */
module SessionRoles {
  import opened RoleGraph
  import opened RoleAncestry
  import opened GrantTypes
  import opened GrantClassifier
  import opened FirstSeen
  import opened GrantRows
  import opened AnswerForm

  // A row of a role holds this grant.
  ghost predicate RoleGrant(rows: seq<Row>, g: Grant) {
    g.granteeType == ROLE && exists row :: row in rows && row.grant == g
  }

  // {role: grants} of the role rows.
  ghost predicate GroupedByRole(rows: seq<Row>, byRole: map<string, seq<Grant>>) {
    && (forall r :: r in byRole <==> Lists(rows, r, ROLE))
    && (forall r, g :: r in byRole ==> (g in byRole[r] <==> RoleGrant(rows, g) && g.grantee == r))
    && (forall r :: GrantsUnder(byRole, r) == RoleGrants(rows, r))
  }

  // The grants in the rows of one role, in order.
  function RoleGrants(rows: seq<Row>, r: string): seq<Grant> {
    if rows == [] then []
    else
      var n := |rows| - 1;
      var g := rows[n].grant;
      RoleGrants(rows[..n], r) + if g.granteeType == ROLE && g.grantee == r then [g] else []
  }

  lemma RoleGrantsNext(rows: seq<Row>, row: Row, byRole: map<string, seq<Grant>>, r: string)
    requires GrantsUnder(byRole, r) == RoleGrants(rows, r)
    ensures GrantsUnder(WithRow(byRole, row), r) == RoleGrants(rows + [row], r)
  {
    assert (rows + [row])[..|rows|] == rows;
  }

  // byRole with the grant of one more row.
  function WithRow(byRole: map<string, seq<Grant>>, row: Row): map<string, seq<Grant>> {
    var g := row.grant;
    if g.granteeType == ROLE then byRole[g.grantee := GrantsUnder(byRole, g.grantee) + [g]] else byRole
  }

  lemma GroupedOne(rows: seq<Row>, row: Row, byRole: map<string, seq<Grant>>, r: string, h: Grant)
    requires GroupedByRole(rows, byRole)
    ensures r in WithRow(byRole, row) <==> Lists(rows + [row], r, ROLE)
    ensures r in WithRow(byRole, row) ==>
              (h in WithRow(byRole, row)[r] <==> RoleGrant(rows + [row], h) && h.grantee == r)
  {
    OneMoreRow(rows, row, r, h);
    if RoleGrant(rows, h) {
      assert Lists(rows, h.grantee, ROLE);
    }
  }

  lemma OneMoreRow(rows: seq<Row>, row: Row, r: string, h: Grant)
    ensures Lists(rows + [row], r, ROLE) <==>
            Lists(rows, r, ROLE) || (row.grant.granteeType == ROLE && row.grant.grantee == r)
    ensures RoleGrant(rows + [row], h) <==> RoleGrant(rows, h) || (row.grant == h && h.granteeType == ROLE)
  {
    assert forall o :: o in rows + [row] <==> o in rows || o == row;
  }

  lemma GroupNext(rows: seq<Row>, row: Row, byRole: map<string, seq<Grant>>)
    requires GroupedByRole(rows, byRole)
    ensures GroupedByRole(rows + [row], WithRow(byRole, row))
  {
    forall r, h
      ensures r in WithRow(byRole, row) <==> Lists(rows + [row], r, ROLE)
      ensures r in WithRow(byRole, row) ==>
                (h in WithRow(byRole, row)[r] <==> RoleGrant(rows + [row], h) && h.grantee == r)
    {
      GroupedOne(rows, row, byRole, r, h);
    }
    forall r ensures GrantsUnder(WithRow(byRole, row), r) == RoleGrants(rows + [row], r) {
      RoleGrantsNext(rows, row, byRole, r);
    }
  }

  function GrantsUnder(byRole: map<string, seq<Grant>>, role: string): seq<Grant> {
    if role in byRole then byRole[role] else []
  }

  method GroupByRole(rows: seq<Row>) returns (byRole: map<string, seq<Grant>>)
    ensures GroupedByRole(rows, byRole)
  {
    byRole := map[];
    for i := 0 to |rows|
      invariant GroupedByRole(rows[..i], byRole)
    {
      var g := rows[i].grant;
      GroupNext(rows[..i], rows[i], byRole);
      assert rows[..i + 1] == rows[..i] + [rows[i]];
      if g.granteeType == ROLE {
        byRole := byRole[g.grantee := GrantsUnder(byRole, g.grantee) + [g]];
      }
    }
    assert rows[..|rows|] == rows;
  }

  // The row that hands g on to a grantee, crediting `source`.
  function HandedRow(g: Grant, q: ObjectQuery, name: string, t: GranteeType, source: string): Row {
    var i := Inherited(g, q, name, t, source);
    Row(i, Classify(i, q))
  }

  // ---------------------------------------------------------------------------
  // Roles between the session and the holders

  // The row hands a grant of one of these roles on to `role`.
  ghost predicate FromRoles(
      byRole: map<string, seq<Grant>>, q: ObjectQuery, role: string, ancestors: set<string>, row: Row)
  {
    exists g: Grant ::
      && g.grantee in ancestors && g in GrantsUnder(byRole, g.grantee)
      && row == HandedRow(g, q, role, ROLE, g.grantee)
  }

  // The grants of one ancestor, handed on in order.
  function HandedRows(grants: seq<Grant>, q: ObjectQuery, role: string, ancestor: string): (r: seq<Row>)
    ensures |r| == |grants| && forall i :: 0 <= i < |r| ==> r[i] == HandedRow(grants[i], q, role, ROLE, ancestor)
  {
    seq(|grants|, i requires 0 <= i < |grants| => HandedRow(grants[i], q, role, ROLE, ancestor))
  }

  lemma HandedNext(grants: seq<Grant>, g: Grant, q: ObjectQuery, role: string, ancestor: string)
    ensures HandedRows(grants + [g], q, role, ancestor) ==
            HandedRows(grants, q, role, ancestor) + [HandedRow(g, q, role, ROLE, ancestor)]
  {
  }

  // Ancestor by ancestor.
  function RowsFrom(byRole: map<string, seq<Grant>>, q: ObjectQuery, role: string, ancestors: seq<string>): seq<Row> {
    if ancestors == [] then []
    else
      var n := |ancestors| - 1;
      RowsFrom(byRole, q, role, ancestors[..n]) + HandedRows(GrantsUnder(byRole, ancestors[n]), q, role, ancestors[n])
  }

  lemma RowsFromNext(
      byRole: map<string, seq<Grant>>, q: ObjectQuery, role: string, ancestors: seq<string>, i: nat)
    requires i < |ancestors|
    ensures RowsFrom(byRole, q, role, ancestors[..i + 1]) ==
            RowsFrom(byRole, q, role, ancestors[..i]) +
              HandedRows(GrantsUnder(byRole, ancestors[i]), q, role, ancestors[i])
  {
    assert ancestors[..i + 1][..i] == ancestors[..i];
  }

  method AddFromRole(
      rows: seq<Row>, byRole: map<string, seq<Grant>>, q: ObjectQuery, role: string, ancestor: string)
    returns (r: seq<Row>)
    ensures r == rows + HandedRows(GrantsUnder(byRole, ancestor), q, role, ancestor)
  {
    r := rows;
    var grants := GrantsUnder(byRole, ancestor);
    for i := 0 to |grants|
      invariant r == rows + HandedRows(grants[..i], q, role, ancestor)
    {
      assert grants[..i + 1] == grants[..i] + [grants[i]];
      HandedNext(grants[..i], grants[i], q, role, ancestor);
      r := r + [HandedRow(grants[i], q, role, ROLE, ancestor)];
    }
    assert grants[..|grants|] == grants;
  }

  // What one role of the chain inherits: every grant of every ancestor that has a row.
  method AddFromAncestors(
      rows: seq<Row>, byRole: map<string, seq<Grant>>, q: ObjectQuery, role: string, ancestors: seq<string>)
    returns (r: seq<Row>)
    ensures r == rows + RowsFrom(byRole, q, role, ancestors)
  {
    r := rows;
    for i := 0 to |ancestors|
      invariant r == rows + RowsFrom(byRole, q, role, ancestors[..i])
    {
      RowsFromNext(byRole, q, role, ancestors, i);
      r := AddFromRole(r, byRole, q, role, ancestors[i]);
    }
    assert ancestors[..|ancestors|] == ancestors;
  }

  lemma HandedMember(grants: seq<Grant>, q: ObjectQuery, role: string, ancestor: string, row: Row)
    ensures row in HandedRows(grants, q, role, ancestor) <==>
            exists g :: g in grants && row == HandedRow(g, q, role, ROLE, ancestor)
  {
    if g :| g in grants && row == HandedRow(g, q, role, ROLE, ancestor) {
      var i :| 0 <= i < |grants| && grants[i] == g;
      assert HandedRows(grants, q, role, ancestor)[i] == row;
    }
  }

  lemma {:induction false} RowsFromMember(
      byRole: map<string, seq<Grant>>, q: ObjectQuery, role: string, ancestors: seq<string>, row: Row)
    requires forall a, g :: a in byRole && g in byRole[a] ==> g.grantee == a
    ensures row in RowsFrom(byRole, q, role, ancestors) <==> FromRoles(byRole, q, role, Elements(ancestors), row)
  {
    if ancestors != [] {
      var n := |ancestors| - 1;
      RowsFromMember(byRole, q, role, ancestors[..n], row);
      HandedMember(GrantsUnder(byRole, ancestors[n]), q, role, ancestors[n], row);
      ElementsTake(ancestors, n);
      assert ancestors[..n + 1] == ancestors;
      FromOneMore(byRole, q, role, Elements(ancestors[..n]), ancestors[n], row);
    }
  }

  lemma FromOneMore(
      byRole: map<string, seq<Grant>>, q: ObjectQuery, role: string, roles: set<string>, a: string, row: Row)
    requires forall r, g :: r in byRole && g in byRole[r] ==> g.grantee == r
    ensures FromRoles(byRole, q, role, roles + {a}, row) <==>
            || FromRoles(byRole, q, role, roles, row)
            || exists g :: g in GrantsUnder(byRole, a) && row == HandedRow(g, q, role, ROLE, a)
  {
  }

  // The row hands a grant of an ancestor to a role of the chain that has no row of its own.
  ghost predicate FromAbove(rows: seq<Row>, q: ObjectQuery, chain: set<string>, parents: Graph, row: Row) {
    var role := row.grant.grantee;
    && role in chain && !Lists(rows, role, ROLE)
    && FromAncestor(rows, q, role, parents, row)
  }

  // The row hands a grant of an ancestor on to the role.
  ghost predicate FromAncestor(rows: seq<Row>, q: ObjectQuery, role: string, parents: Graph, row: Row) {
    exists g: Grant ::
      && RoleGrant(rows, g) && g.grantee in Ancestors(parents, role)
      && row == HandedRow(g, q, role, ROLE, g.grantee)
  }

  lemma HandedToRole(rows: seq<Row>, q: ObjectQuery, role: string, parents: Graph, row: Row)
    requires FromAncestor(rows, q, role, parents, row)
    ensures row.grant.grantee == role
  {
  }

  lemma FromRolesMeaning(
      rows: seq<Row>, byRole: map<string, seq<Grant>>, q: ObjectQuery, role: string, parents: Graph,
      found: seq<string>, row: Row)
    requires GroupedByRole(rows, byRole)
    requires forall a :: a in found <==> a in byRole && a in Ancestors(parents, role)
    ensures FromRoles(byRole, q, role, Elements(found), row) <==> FromAncestor(rows, q, role, parents, row)
  {
    if g: Grant :| g.grantee in Elements(found) && g in GrantsUnder(byRole, g.grantee)
                   && row == HandedRow(g, q, role, ROLE, g.grantee)
    {
      assert RoleGrant(rows, g);
    }
    if g: Grant :| RoleGrant(rows, g) && g.grantee in Ancestors(parents, role)
                   && row == HandedRow(g, q, role, ROLE, g.grantee)
    {
      assert Lists(rows, g.grantee, ROLE);
      assert g in GrantsUnder(byRole, g.grantee);
    }
  }

  // The ancestors with rows, each once.
  ghost predicate AncestorsWithRows(
      byRole: map<string, seq<Grant>>, parents: Graph, role: string, found: seq<string>)
  {
    NoRepeats(found) && forall a :: a in found <==> a in byRole && a in Ancestors(parents, role)
  }

  // The rows for one role of the chain.
  method AddForRole(
      rows: seq<Row>, byRole: map<string, seq<Grant>>, q: ObjectQuery, role: string, parents: Graph)
    returns (r: seq<Row>, ghost found: seq<string>)
    ensures AncestorsWithRows(byRole, parents, role, found)
    ensures r == rows + RowsFrom(byRole, q, role, found)
  {
    var ancestors := FindAncestorsWithGrants(parents, role, byRole.Keys);
    found := ancestors;
    r := AddFromAncestors(rows, byRole, q, role, ancestors);
  }

  // A role of the chain and its ancestors with rows.
  datatype Branch = Branch(role: string, ancestors: seq<string>)

  // Every role of the chain without a row, once, with its ancestors.
  ghost predicate Planned(
      byRole: map<string, seq<Grant>>, chain: set<string>, parents: Graph, plan: seq<Branch>)
  {
    && (forall i, j :: 0 <= i < j < |plan| ==> plan[i].role != plan[j].role)
    && (forall b :: b in plan ==> b.role in chain && b.role !in byRole)
    && (forall b :: b in plan ==> AncestorsWithRows(byRole, parents, b.role, b.ancestors))
    && (forall role :: role in chain && role !in byRole ==> exists b :: b in plan && b.role == role)
  }

  // Role by role.
  function PlanRows(byRole: map<string, seq<Grant>>, q: ObjectQuery, plan: seq<Branch>): seq<Row> {
    if plan == [] then []
    else
      var n := |plan| - 1;
      PlanRows(byRole, q, plan[..n]) + RowsFrom(byRole, q, plan[n].role, plan[n].ancestors)
  }

  lemma PlanNext(
      byRole: map<string, seq<Grant>>, q: ObjectQuery, chain: set<string>, parents: Graph, plan: seq<Branch>, b: Branch)
    requires Planned(byRole, chain, parents, plan) && b.role !in chain && b.role !in byRole
    requires AncestorsWithRows(byRole, parents, b.role, b.ancestors)
    ensures Planned(byRole, chain + {b.role}, parents, plan + [b])
    ensures PlanRows(byRole, q, plan + [b]) ==
            PlanRows(byRole, q, plan) + RowsFrom(byRole, q, b.role, b.ancestors)
  {
    assert (plan + [b])[..|plan|] == plan;
    forall i | 0 <= i < |plan| ensures plan[i].role != b.role {
      assert plan[i] in plan;
    }
    forall role | role in chain + {b.role} && role !in byRole ensures exists o :: o in plan + [b] && o.role == role {
      if role == b.role {
        assert b in plan + [b];
      } else {
        var o :| o in plan && o.role == role;
        assert o in plan + [b];
      }
    }
  }

  lemma PlanSkip(
      byRole: map<string, seq<Grant>>, chain: set<string>, parents: Graph, plan: seq<Branch>, role: string)
    requires Planned(byRole, chain, parents, plan) && role in byRole
    ensures Planned(byRole, chain + {role}, parents, plan)
  {
  }

  lemma {:induction false} PlanRowsMember(
      byRole: map<string, seq<Grant>>, q: ObjectQuery, plan: seq<Branch>, row: Row)
    ensures row in PlanRows(byRole, q, plan) <==>
            exists b :: b in plan && row in RowsFrom(byRole, q, b.role, b.ancestors)
  {
    if plan != [] {
      var n := |plan| - 1;
      PlanRowsMember(byRole, q, plan[..n], row);
      assert plan == plan[..n] + [plan[n]];
    }
  }

  lemma BranchMeaning(
      rows: seq<Row>, byRole: map<string, seq<Grant>>, q: ObjectQuery, parents: Graph, b: Branch, row: Row)
    requires GroupedByRole(rows, byRole) && AncestorsWithRows(byRole, parents, b.role, b.ancestors)
    ensures row in RowsFrom(byRole, q, b.role, b.ancestors) <==> FromAncestor(rows, q, b.role, parents, row)
  {
    RowsFromMember(byRole, q, b.role, b.ancestors, row);
    FromRolesMeaning(rows, byRole, q, b.role, parents, b.ancestors, row);
  }

  lemma BranchAbove(
      rows: seq<Row>, byRole: map<string, seq<Grant>>, q: ObjectQuery, chain: set<string>, parents: Graph,
      b: Branch, row: Row)
    requires GroupedByRole(rows, byRole) && b.role in chain && b.role !in byRole
    requires FromAncestor(rows, q, b.role, parents, row)
    ensures FromAbove(rows, q, chain, parents, row)
  {
    HandedToRole(rows, q, b.role, parents, row);
  }

  // Exactly the grants of the ancestors are handed on.
  lemma PlanMeaning(
      rows: seq<Row>, byRole: map<string, seq<Grant>>, q: ObjectQuery, chain: set<string>, parents: Graph,
      plan: seq<Branch>, row: Row)
    requires GroupedByRole(rows, byRole) && Planned(byRole, chain, parents, plan)
    ensures row in PlanRows(byRole, q, plan) <==> FromAbove(rows, q, chain, parents, row)
  {
    PlanRowsMember(byRole, q, plan, row);
    if b :| b in plan && row in RowsFrom(byRole, q, b.role, b.ancestors) {
      BranchMeaning(rows, byRole, q, parents, b, row);
      BranchAbove(rows, byRole, q, chain, parents, b, row);
    }
    if FromAbove(rows, q, chain, parents, row) {
      var b :| b in plan && b.role == row.grant.grantee;
      BranchMeaning(rows, byRole, q, parents, b, row);
    }
  }

  // The loop over the roles of the chain.
  method AddIntermediate(
      rows: seq<Row>, byRole: map<string, seq<Grant>>, q: ObjectQuery, chain: set<string>, parents: Graph)
    returns (r: seq<Row>, ghost added: seq<Row>, ghost plan: seq<Branch>)
    requires GroupedByRole(rows, byRole)
    ensures Planned(byRole, chain, parents, plan)
    ensures r == rows + added && added == PlanRows(byRole, q, plan)
    ensures forall row :: row in added <==> FromAbove(rows, q, chain, parents, row)
  {
    r, plan := AddBranches(rows, byRole, q, chain, parents);
    added := PlanRows(byRole, q, plan);
    forall row ensures row in added <==> FromAbove(rows, q, chain, parents, row) {
      PlanMeaning(rows, byRole, q, chain, parents, plan, row);
    }
  }

  // The roles dealt with so far have their rows behind `rows`.
  ghost predicate Branched(
      rows: seq<Row>, byRole: map<string, seq<Grant>>, q: ObjectQuery, done: set<string>, parents: Graph,
      plan: seq<Branch>, r: seq<Row>)
  {
    Planned(byRole, done, parents, plan) && r == rows + PlanRows(byRole, q, plan)
  }

  lemma BranchedNext(
      rows: seq<Row>, byRole: map<string, seq<Grant>>, q: ObjectQuery, done: set<string>, parents: Graph,
      plan: seq<Branch>, r: seq<Row>, role: string, found: seq<string>)
    requires Branched(rows, byRole, q, done, parents, plan, r) && role !in done && role !in byRole
    requires AncestorsWithRows(byRole, parents, role, found)
    ensures Branched(rows, byRole, q, done + {role}, parents, plan + [Branch(role, found)],
                     r + RowsFrom(byRole, q, role, found))
  {
    PlanNext(byRole, q, done, parents, plan, Branch(role, found));
    ConcatAssociates(rows, PlanRows(byRole, q, plan), RowsFrom(byRole, q, role, found));
  }

  // One role of the chain, unless it has a row.
  method AddBranch(
      r0: seq<Row>, byRole: map<string, seq<Grant>>, q: ObjectQuery, role: string, parents: Graph,
      ghost rows: seq<Row>, ghost done: set<string>, ghost plan0: seq<Branch>)
    returns (r: seq<Row>, ghost plan: seq<Branch>)
    requires Branched(rows, byRole, q, done, parents, plan0, r0) && role !in done
    ensures Branched(rows, byRole, q, done + {role}, parents, plan, r)
  {
    if role in byRole {
      PlanSkip(byRole, done, parents, plan0, role);
      r, plan := r0, plan0;
    } else {
      ghost var found;
      r, found := AddForRole(r0, byRole, q, role, parents);
      plan := plan0 + [Branch(role, found)];
      BranchedNext(rows, byRole, q, done, parents, plan0, r0, role, found);
    }
  }

  method AddBranches(
      rows: seq<Row>, byRole: map<string, seq<Grant>>, q: ObjectQuery, chain: set<string>, parents: Graph)
    returns (r: seq<Row>, ghost plan: seq<Branch>)
    ensures Branched(rows, byRole, q, chain, parents, plan, r)
  {
    r, plan := rows, [];
    var rest := chain;
    ghost var done: set<string> := {};
    while rest != {}
      invariant rest <= chain && done == chain - rest
      invariant Branched(rows, byRole, q, done, parents, plan, r)
      decreases rest
    {
      var role :| role in rest;
      r, plan := AddBranch(r, byRole, q, role, parents, rows, done, plan);
      rest := rest - {role};
      done := done + {role};
    }
    assert done == chain;
  }

  // ---------------------------------------------------------------------------
  // The user of the session

  // role_chain.get(role, role)
  function ChainSource(chain: map<string, string>, role: string): string {
    if role in chain then chain[role] else role
  }

  // Each privilege of these grants, with the source and the type of one of them.
  ghost predicate Summed(
      grants: set<Grant>, chain: map<string, string>, sources: map<string, string>, types: map<string, string>)
  {
    && sources.Keys == types.Keys
    && (forall g :: g in grants ==> g.privilege in sources)
    && (forall x :: x in sources ==> SummedFrom(grants, chain, x, sources[x], types[x]))
  }

  ghost predicate SummedFrom(
      grants: set<Grant>, chain: map<string, string>, x: string, source: string, objectType: string)
  {
    exists g :: g in grants && SumsUp(chain, g, x, source, objectType)
  }

  predicate SumsUp(chain: map<string, string>, g: Grant, x: string, source: string, objectType: string) {
    g.privilege == x && source == ChainSource(chain, g.grantee) && objectType == g.objectType
  }

  lemma SumNext(
      grants: set<Grant>, chain: map<string, string>, sources: map<string, string>, types: map<string, string>,
      g: Grant)
    requires Summed(grants, chain, sources, types)
    ensures if g.privilege in sources then Summed(grants + {g}, chain, sources, types)
            else Summed(grants + {g}, chain, sources[g.privilege := ChainSource(chain, g.grantee)],
                        types[g.privilege := g.objectType])
  {
    assert SumsUp(chain, g, g.privilege, ChainSource(chain, g.grantee), g.objectType);
    forall x | x in sources ensures SummedFrom(grants + {g}, chain, x, sources[x], types[x]) {
      SummedMore(grants, chain, x, sources[x], types[x], g);
    }
  }

  lemma SummedMore(
      grants: set<Grant>, chain: map<string, string>, x: string, source: string, objectType: string, g: Grant)
    requires SummedFrom(grants, chain, x, source, objectType)
    ensures SummedFrom(grants + {g}, chain, x, source, objectType)
  {
    var h :| h in grants && SumsUp(chain, h, x, source, objectType);
    assert h in grants + {g};
  }

  function SetOf(grants: seq<Grant>): set<Grant> {
    set g | g in grants
  }

  lemma SetOfNext(grants: seq<Grant>, i: nat, seen: set<Grant>)
    requires i < |grants|
    ensures seen + SetOf(grants[..i + 1]) == seen + SetOf(grants[..i]) + {grants[i]}
  {
    assert grants[..i + 1] == grants[..i] + [grants[i]];
  }

  // The grants of one role.
  method SumRole(
      grants: seq<Grant>, role: string, chain: map<string, string>, sources: map<string, string>,
      types: map<string, string>, ghost seen: set<Grant>)
    returns (sources': map<string, string>, types': map<string, string>)
    requires Summed(seen, chain, sources, types) && forall g :: g in grants ==> g.grantee == role
    ensures Summed(seen + SetOf(grants), chain, sources', types')
  {
    sources', types' := sources, types;
    for i := 0 to |grants|
      invariant Summed(seen + SetOf(grants[..i]), chain, sources', types')
    {
      var g := grants[i];
      SumNext(seen + SetOf(grants[..i]), chain, sources', types', g);
      SetOfNext(grants, i, seen);
      if g.privilege !in sources' {
        sources' := sources'[g.privilege := ChainSource(chain, role)];
        types' := types'[g.privilege := g.objectType];
      }
    }
    assert grants[..|grants|] == grants;
  }

  ghost function GrantsOf(byRole: map<string, seq<Grant>>, roles: set<string>): set<Grant> {
    set r, g | r in roles && g in GrantsUnder(byRole, r) :: g
  }

  // The privileges of all role rows.
  method SumGrants(byRole: map<string, seq<Grant>>, chain: map<string, string>)
    returns (sources: map<string, string>, types: map<string, string>)
    requires forall r, g :: r in byRole && g in byRole[r] ==> g.grantee == r
    ensures Summed(GrantsOf(byRole, byRole.Keys), chain, sources, types)
  {
    sources, types := map[], map[];
    var rest := byRole.Keys;
    while rest != {}
      invariant rest <= byRole.Keys && Summed(GrantsOf(byRole, byRole.Keys - rest), chain, sources, types)
      decreases rest
    {
      var role :| role in rest;
      ghost var seen := GrantsOf(byRole, byRole.Keys - rest);
      sources, types := SumRole(byRole[role], role, chain, sources, types, seen);
      rest := rest - {role};
      OneMoreGroup(byRole, byRole.Keys - rest - {role}, role);
      assert byRole.Keys - rest == byRole.Keys - rest - {role} + {role};
    }
    assert byRole.Keys - rest == byRole.Keys;
  }

  lemma OneMoreGroup(byRole: map<string, seq<Grant>>, roles: set<string>, role: string)
    requires role in byRole
    ensures GrantsOf(byRole, roles + {role}) == GrantsOf(byRole, roles) + SetOf(byRole[role])
  {
    forall g | g in GrantsOf(byRole, roles) || g in byRole[role] ensures g in GrantsOf(byRole, roles + {role}) {
      if g in byRole[role] {
        assert g in GrantsUnder(byRole, role);
      }
    }
  }

  lemma AllGroups(rows: seq<Row>, byRole: map<string, seq<Grant>>)
    requires GroupedByRole(rows, byRole)
    ensures forall g :: g in GrantsOf(byRole, byRole.Keys) <==> RoleGrant(rows, g)
  {
    forall g | RoleGrant(rows, g) ensures g in GrantsOf(byRole, byRole.Keys) {
      assert Lists(rows, g.grantee, ROLE);
      assert g in GrantsUnder(byRole, g.grantee);
    }
  }

  function SessionTarget(q: ObjectQuery, types: map<string, string>): RowTarget {
    RowTarget(q, types, g => Classify(g, q))
  }

  // Exactly one row for the user for every privilege of a role row, which hands on some
  // grant of it and credits the role, or what the chain names for it.
  ghost predicate SessionRows(
      rows: seq<Row>, chain: map<string, string>, q: ObjectQuery, user: string, added: seq<Row>)
  {
    && NoRowTwice(added)
    && (forall row :: row in added ==> HandsToUser(rows, chain, q, user, row))
    && (forall g :: RoleGrant(rows, g) ==> HasRow(added, user, USER, g.privilege))
    && (forall i, j :: 0 <= i < j < |added| ==> added[i].grant.privilege != added[j].grant.privilege)
  }

  ghost predicate HandsToUser(
      rows: seq<Row>, chain: map<string, string>, q: ObjectQuery, user: string, row: Row)
  {
    exists g :: RoleGrant(rows, g) && row == HandedRow(g, q, user, USER, ChainSource(chain, g.grantee))
  }

  lemma SummedRow(
      q: ObjectQuery, user: string, chain: map<string, string>, types: map<string, string>, g: Grant, x: string,
      source: string)
    requires x in types && SumsUp(chain, g, x, source, types[x])
    ensures InheritedRow(user, USER, x, source, SessionTarget(q, types)) ==
            HandedRow(g, q, user, USER, ChainSource(chain, g.grantee))
  {
    assert MakeInherited(user, USER, x, q, source, Some(types[x])) ==
           Inherited(g, q, user, USER, ChainSource(chain, g.grantee));
  }

  lemma SummedHands(
      rows: seq<Row>, grants: set<Grant>, chain: map<string, string>, q: ObjectQuery, user: string,
      types: map<string, string>, x: string, source: string)
    requires x in types && SummedFrom(grants, chain, x, source, types[x])
    requires forall g :: g in grants ==> RoleGrant(rows, g)
    ensures HandsToUser(rows, chain, q, user, InheritedRow(user, USER, x, source, SessionTarget(q, types)))
  {
    var g :| g in grants && SumsUp(chain, g, x, source, types[x]);
    SummedRow(q, user, chain, types, g, x, source);
  }

  lemma SummedRows(
      rows: seq<Row>, grants: set<Grant>, chain: map<string, string>, q: ObjectQuery, user: string,
      sources: map<string, string>, types: map<string, string>, added: seq<Row>)
    requires Summed(grants, chain, sources, types) && forall g :: g in grants <==> RoleGrant(rows, g)
    requires Pushed(added, USER, map[user := sources], SessionTarget(q, types))
    ensures SessionRows(rows, chain, q, user, added)
  {
    forall row | row in added ensures HandsToUser(rows, chain, q, user, row) {
      var x := row.grant.privilege;
      SummedHands(rows, grants, chain, q, user, types, x, sources[x]);
    }
    forall g | RoleGrant(rows, g) ensures HasRow(added, user, USER, g.privilege) {
      PushedRows(added, USER, map[user := sources], SessionTarget(q, types), user, USER, g.privilege);
    }
    OnePerPrivilege(user, sources, SessionTarget(q, types), added);
  }

  lemma OnePerPrivilege(user: string, sources: map<string, string>, target: RowTarget, added: seq<Row>)
    requires Pushed(added, USER, map[user := sources], target)
    ensures forall i, j :: 0 <= i < j < |added| ==> added[i].grant.privilege != added[j].grant.privilege
  {
    forall i, j | 0 <= i < j < |added| ensures added[i].grant.privilege != added[j].grant.privilege {
      assert added[i] in added && added[j] in added;
    }
  }

  method AddSelf(
      rows: seq<Row>, byRole: map<string, seq<Grant>>, q: ObjectQuery, chain: map<string, string>, user: string,
      ghost base: seq<Row>)
    returns (r: seq<Row>, ghost added: seq<Row>)
    requires GroupedByRole(base, byRole)
    ensures r == rows + added && SessionRows(base, chain, q, user, added)
  {
    var sources, types := SumGrants(byRole, chain);
    r, added := AddRows(rows, user, USER, sources, SessionTarget(q, types));
    AllGroups(base, byRole);
    SummedRows(base, GrantsOf(byRole, byRole.Keys), chain, q, user, sources, types, added);
  }

  // ---------------------------------------------------------------------------
  // The whole step

  ghost predicate FromChain(
      rows: seq<Row>, q: ObjectQuery, chain: set<string>, conn: Option<Db>, above: seq<Row>)
  {
    && (forall row :: row in above <==> conn.Some? && FromAbove(rows, q, chain, conn.value.parents, row))
    && (conn.Some? ==> exists byRole, plan ::
          GroupedByRole(rows, byRole) && Planned(byRole, chain, conn.value.parents, plan)
          && above == PlanRows(byRole, q, plan))
  }

  // The rows of the chain and those of the user, if there is one.
  ghost predicate ChainParts(
      rows: seq<Row>, q: ObjectQuery, chain: map<string, string>, conn: Option<Db>, user: Option<string>,
      above: seq<Row>, own: seq<Row>)
  {
    && FromChain(rows, q, chain.Keys, conn, above)
    && if user.Some? then SessionRows(rows, chain, q, user.value, own) else own == []
  }

  // They come behind the rows that were there.
  ghost predicate ChainAdded(
      rows: seq<Row>, q: ObjectQuery, chain: map<string, string>, conn: Option<Db>, user: Option<string>,
      after: seq<Row>)
  {
    exists above, own :: ChainParts(rows, q, chain, conn, user, above, own) && after == rows + above + own
  }

  // `names` are the users with collected grants; the source takes any one of them for the
  // user of the session.
  method AddChain(
      rows: seq<Row>, q: ObjectQuery, chain: map<string, string>, conn: Option<Db>, names: set<string>)
    returns (r: seq<Row>, ghost user: Option<string>)
    ensures ChainAdded(rows, q, chain, conn, user, r)
    ensures user.Some? ==> user.value in names && user.value != ""
    ensures user.None? ==> names == {} || "" in names
  {
    var byRole := GroupByRole(rows);
    ghost var above, own := [], [];
    r, user := rows, None;
    if conn.Some? {
      ghost var plan;
      r, above, plan := AddIntermediate(rows, byRole, q, chain.Keys, conn.value.parents);
    }
    if names != {} {
      var name :| name in names;
      if name != "" {
        r, own := AddSelf(r, byRole, q, chain, name, rows);
        user := Some(name);
      }
    }
    assert ChainParts(rows, q, chain, conn, user, above, own);
    assert r == rows + above + own;
  }

  // n is a role of the chain without a row of its own, below a role with x.
  ghost predicate ChainPriv(rows: seq<Row>, chain: set<string>, conn: Option<Db>, n: string, x: string) {
    && n in chain && !Lists(rows, n, ROLE) && conn.Some?
    && exists a :: a in Ancestors(conn.value.parents, n) && HasRow(rows, a, ROLE, x)
  }

  lemma FromChainRows(
      rows: seq<Row>, q: ObjectQuery, chain: set<string>, conn: Option<Db>, above: seq<Row>, n: string, x: string)
    requires FromChain(rows, q, chain, conn, above)
    ensures HasRow(above, n, ROLE, x) <==> ChainPriv(rows, chain, conn, n, x)
    ensures !HasRow(above, n, USER, x)
  {
    if ChainPriv(rows, chain, conn, n, x) {
      var a :| a in Ancestors(conn.value.parents, n) && HasRow(rows, a, ROLE, x);
      var row :| row in rows && row.grant.grantee == a && row.grant.granteeType == ROLE && row.grant.privilege == x;
      assert RoleGrant(rows, row.grant);
      assert FromAbove(rows, q, chain, conn.value.parents, HandedRow(row.grant, q, n, ROLE, a));
      assert HandedRow(row.grant, q, n, ROLE, a) in above;
    }
    if row :| row in above && row.grant.grantee == n && row.grant.granteeType == ROLE && row.grant.privilege == x {
      var g: Grant :| RoleGrant(rows, g) && g.grantee in Ancestors(conn.value.parents, n)
                      && row == HandedRow(g, q, n, ROLE, g.grantee);
      assert HasRow(rows, g.grantee, ROLE, x);
    }
  }

  ghost predicate HeldByRole(rows: seq<Row>, x: string) {
    exists r :: HasRow(rows, r, ROLE, x)
  }

  lemma SessionRowsHave(
      rows: seq<Row>, chain: map<string, string>, q: ObjectQuery, user: string, own: seq<Row>, n: string, x: string)
    requires SessionRows(rows, chain, q, user, own)
    ensures HasRow(own, n, USER, x) <==> n == user && HeldByRole(rows, x)
    ensures !HasRow(own, n, ROLE, x)
  {
    if n == user {
      if r :| HasRow(rows, r, ROLE, x) {
        var row :| row in rows && row.grant.grantee == r && row.grant.granteeType == ROLE && row.grant.privilege == x;
        assert RoleGrant(rows, row.grant);
      }
    }
    if row :| row in own && row.grant.grantee == n && row.grant.granteeType == USER && row.grant.privilege == x {
      var g :| RoleGrant(rows, g) && row == HandedRow(g, q, user, USER, ChainSource(chain, g.grantee));
      assert HasRow(rows, g.grantee, ROLE, x);
    }
  }

  // Exactly what is listed after the step: every role of the chain without a row has all
  // the privileges of all its ancestors, and the user those of all roles.
  lemma ChainAddedRows(
      rows: seq<Row>, q: ObjectQuery, chain: map<string, string>, conn: Option<Db>, user: Option<string>,
      after: seq<Row>, n: string, x: string)
    requires ChainAdded(rows, q, chain, conn, user, after)
    ensures HasRow(after, n, ROLE, x) <==> HasRow(rows, n, ROLE, x) || ChainPriv(rows, chain.Keys, conn, n, x)
    ensures HasRow(after, n, USER, x) <==>
            HasRow(rows, n, USER, x) || (user == Some(n) && HeldByRole(rows, x))
  {
    var above, own :| ChainParts(rows, q, chain, conn, user, above, own) && after == rows + above + own;
    forall t ensures HasRow(after, n, t, x) <==>
                     HasRow(rows, n, t, x) || HasRow(above, n, t, x) || HasRow(own, n, t, x)
    {
      RowsConcat(rows, above, n, t, x);
      RowsConcat(rows + above, own, n, t, x);
    }
    FromChainRows(rows, q, chain.Keys, conn, above, n, x);
    if user.Some? {
      SessionRowsHave(rows, chain, q, user.value, own, n, x);
    }
  }

  // A role of the chain without a row gets a grant of one of its ancestors, credited to it.
  ghost predicate FromAncestorRow(rows: seq<Row>, chain: set<string>, parents: Graph, g: Grant, h: Grant) {
    && g.granteeType == ROLE && g.grantee in chain && !Lists(rows, g.grantee, ROLE)
    && h.grantee in Ancestors(parents, g.grantee) && g.source == h.grantee
  }

  // The user gets a grant of any role, credited to the direct role of the chain that leads
  // to it, or to the role itself outside the chain.
  predicate FromRoleRow(chain: map<string, string>, user: Option<string>, g: Grant, h: Grant) {
    && g.granteeType == USER && user == Some(g.grantee)
    && if h.grantee in chain then g.source == chain[h.grantee] else g.source == h.grantee
  }

  ghost predicate AddedFor(
      rows: seq<Row>, chain: map<string, string>, conn: Option<Db>, user: Option<string>, g: Grant, h: Grant)
  {
    || (conn.Some? && FromAncestorRow(rows, chain.Keys, conn.value.parents, g, h))
    || FromRoleRow(chain, user, g, h)
  }

  // Field by field, what a row of the step hands on.
  ghost predicate AddedRow(
      rows: seq<Row>, q: ObjectQuery, chain: map<string, string>, conn: Option<Db>, user: Option<string>, row: Row)
  {
    && row.rel == Classify(row.grant, q)
    && exists h :: RoleGrant(rows, h) && PassesOn(row.grant, h, q) && AddedFor(rows, chain, conn, user, row.grant, h)
  }

  lemma HandedPassesOn(h: Grant, q: ObjectQuery, name: string, t: GranteeType, source: string)
    ensures var row := HandedRow(h, q, name, t, source);
            && PassesOn(row.grant, h, q) && row.rel == Classify(row.grant, q)
            && row.grant.grantee == name && row.grant.granteeType == t && row.grant.source == source
  {
  }

  lemma AboveAdded(
      rows: seq<Row>, q: ObjectQuery, chain: map<string, string>, conn: Option<Db>, user: Option<string>, row: Row)
    requires conn.Some? && FromAbove(rows, q, chain.Keys, conn.value.parents, row)
    ensures AddedRow(rows, q, chain, conn, user, row)
  {
    var role := row.grant.grantee;
    var h: Grant :| RoleGrant(rows, h) && h.grantee in Ancestors(conn.value.parents, role)
                    && row == HandedRow(h, q, role, ROLE, h.grantee);
    HandedPassesOn(h, q, role, ROLE, h.grantee);
    assert AddedFor(rows, chain, conn, user, row.grant, h);
  }

  lemma OwnAdded(
      rows: seq<Row>, q: ObjectQuery, chain: map<string, string>, conn: Option<Db>, user: string, row: Row)
    requires HandsToUser(rows, chain, q, user, row)
    ensures AddedRow(rows, q, chain, conn, Some(user), row)
  {
    var h :| RoleGrant(rows, h) && row == HandedRow(h, q, user, USER, ChainSource(chain, h.grantee));
    HandedPassesOn(h, q, user, USER, ChainSource(chain, h.grantee));
    assert AddedFor(rows, chain, conn, Some(user), row.grant, h);
  }

  lemma AddedRowFields(
      rows: seq<Row>, q: ObjectQuery, chain: map<string, string>, conn: Option<Db>, user: Option<string>,
      after: seq<Row>, row: Row)
    requires ChainAdded(rows, q, chain, conn, user, after) && row in after
    ensures row in rows || AddedRow(rows, q, chain, conn, user, row)
  {
    var above, own :| ChainParts(rows, q, chain, conn, user, above, own) && after == rows + above + own;
    if row in above {
      AboveAdded(rows, q, chain, conn, user, row);
    } else if row in own {
      OwnAdded(rows, q, chain, conn, user.value, row);
    }
  }
}
