/** What the drawn role graphs show: which nodes lead to which, and what the nodes say. */
module DrawnRoles {
  import opened GrantTypes
  import opened FirstSeen
  import opened RoleGraph
  import opened RoleHelpers
  import opened DagBuilder
  import opened RoleDag
  import opened RoleHierarchy

  // ---------------------------------------------------------------------------
  // Drawn ways

  predicate Drawn(edges: seq<DagEdge>, s: string, t: string) {
    exists i :: 0 <= i < |edges| && edges[i].source == s && edges[i].target == t
  }

  // n drawn edges lead from s to t.
  ghost predicate DrawnWalk(edges: seq<DagEdge>, s: string, t: string, n: nat)
    decreases n
  {
    if n == 0 then s == t else exists c :: Drawn(edges, s, c) && DrawnWalk(edges, c, t, n - 1)
  }

  lemma FirstDrawn(edges: seq<DagEdge>, s: string, t: string, n: nat) returns (c: string)
    requires n > 0 && DrawnWalk(edges, s, t, n)
    ensures Drawn(edges, s, c) && DrawnWalk(edges, c, t, n - 1)
  {
    c :| Drawn(edges, s, c) && DrawnWalk(edges, c, t, n - 1);
  }

  ghost predicate LeadsTo(edges: seq<DagEdge>, s: string, t: string) {
    exists n: nat :: DrawnWalk(edges, s, t, n)
  }

  lemma StepLeads(edges: seq<DagEdge>, s: string, c: string, t: string)
    requires Drawn(edges, s, c) && LeadsTo(edges, c, t)
    ensures LeadsTo(edges, s, t)
  {
    var n: nat :| DrawnWalk(edges, c, t, n);
    assert DrawnWalk(edges, s, t, n + 1);
  }

  // ---------------------------------------------------------------------------
  // Inheritance

  // An edge from a parent to the role that names it.
  ghost predicate ParentEdge(g: Graph, order: seq<string>, s: string, t: string) {
    exists u, v :: v in order && u in Next(g, v) && s == RoleId(u) && t == RoleId(v)
  }

  lemma SameRole(a: string, b: string)
    requires RoleId(a) == RoleId(b)
    ensures a == b
  {
    assert RoleId(a)[2..] == a && RoleId(b)[2..] == b;
  }

  lemma RoleIsNoUser(role: string, user: string)
    ensures RoleId(role) != UserId(user)
  {
    assert RoleId(role)[0] != UserId(user)[0];
  }

  lemma LinkDrawn(g: Graph, order: seq<string>, first: nat, s: string, t: string)
    ensures Drawn(LinkEdges(Links(g, order), first), s, t) <==> ParentEdge(g, order, s, t)
  {
    var links := Links(g, order);
    var edges := LinkEdges(links, first);
    if i :| 0 <= i < |edges| && edges[i].source == s && edges[i].target == t {
      LinkMember(g, order, links[i]);
      assert links[i] in links;
    }
    if u, v :| v in order && u in Next(g, v) && s == RoleId(u) && t == RoleId(v) {
      LinkMember(g, order, Link(u, v));
      var i :| 0 <= i < |links| && links[i] == Link(u, v);
      assert edges[i] == LinkEdge(links[i], first + i);
    }
  }

  lemma ChildAt(g: Graph, order: seq<string>, u: string, t: string) returns (w: string)
    requires ParentEdge(g, order, RoleId(u), t)
    ensures w in order && u in Next(g, w) && t == RoleId(w)
  {
    var p, c :| c in order && p in Next(g, c) && RoleId(u) == RoleId(p) && t == RoleId(c);
    SameRole(u, p);
    w := c;
  }

  ghost predicate InheritanceEdges(g: Graph, order: seq<string>, first: nat, edges: seq<DagEdge>) {
    edges == LinkEdges(Links(g, order), first)
  }

  // The first edge leads to a child of u.
  lemma FirstChild(
      g: Graph, order: seq<string>, first: nat, edges: seq<DagEdge>, u: string, v: string, n: nat)
    returns (w: string)
    requires InheritanceEdges(g, order, first, edges) && n > 0 && DrawnWalk(edges, RoleId(u), RoleId(v), n)
    ensures u in Next(g, w) && DrawnWalk(edges, RoleId(w), RoleId(v), n - 1)
  {
    var c := FirstDrawn(edges, RoleId(u), RoleId(v), n);
    LinkDrawn(g, order, first, RoleId(u), c);
    w := ChildAt(g, order, u, c);
  }

  lemma {:induction false} DrawnDown(
      g: Graph, order: seq<string>, first: nat, edges: seq<DagEdge>, u: string, v: string, n: nat)
    requires InheritanceEdges(g, order, first, edges) && DrawnWalk(edges, RoleId(u), RoleId(v), n)
    ensures Walk(g, v, u, n)
    decreases n
  {
    if n == 0 {
      SameRole(u, v);
      assert Walk(g, v, u, 0);
    } else {
      var w := FirstChild(g, order, first, edges, u, v, n);
      DrawnDown(g, order, first, edges, w, v, n - 1);
      WalkStep(g, v, w, u, n - 1);
      assert Walk(g, v, u, n);
    }
  }

  lemma {:induction false} AncestorDrawn(
      g: Graph, order: seq<string>, first: nat, edges: seq<DagEdge>, u: string, v: string, n: nat)
    requires InheritanceEdges(g, order, first, edges) && v in order && Walk(g, v, u, n)
    requires forall r, p :: r in order && p in Next(g, r) ==> p in order
    ensures u in order && LeadsTo(edges, RoleId(u), RoleId(v))
    decreases n
  {
    if n == 0 {
      assert DrawnWalk(edges, RoleId(u), RoleId(v), 0);
    } else {
      var c := LastStep(g, v, u, n);
      AncestorDrawn(g, order, first, edges, c, v, n - 1);
      LinkDrawn(g, order, first, RoleId(u), RoleId(c));
      assert ParentEdge(g, order, RoleId(u), RoleId(c));
      StepLeads(edges, RoleId(u), RoleId(c), RoleId(v));
    }
  }

  // The inheritance edges of a walk lead from one role down to another exactly when the
  // first is the other one or an ancestor of it.
  lemma AncestryDrawn(
      g: Graph, seeds: seq<string>, order: seq<string>, first: nat, edges: seq<DagEdge>, u: string, v: string)
    requires Processed(g, seeds, order) && v in order && InheritanceEdges(g, order, first, edges)
    ensures LeadsTo(edges, RoleId(u), RoleId(v)) <==> Reaches(g, v, u)
  {
    if LeadsTo(edges, RoleId(u), RoleId(v)) {
      var n: nat :| DrawnWalk(edges, RoleId(u), RoleId(v), n);
      DrawnDown(g, order, first, edges, u, v, n);
    }
    if Reaches(g, v, u) {
      var n: nat :| Walk(g, v, u, n);
      OrderClosed(g, seeds, order);
      AncestorDrawn(g, order, first, edges, u, v, n);
    }
  }

  lemma OrderClosed(g: Graph, seeds: seq<string>, order: seq<string>)
    requires Processed(g, seeds, order)
    ensures forall r, p :: r in order && p in Next(g, r) ==> p in order
  {
    forall r, p | r in order && p in Next(g, r) ensures p in order {
      var a :| a in Elements(seeds) && Reaches(g, a, r);
      ReachesStep(g, a, r, p);
    }
  }

  // ---------------------------------------------------------------------------
  // The hierarchy of a user

  ghost predicate UserEdge(roles: seq<string>, user: string, s: string, t: string) {
    exists r :: r in roles && s == RoleId(r) && t == UserId(user)
  }

  lemma AssignmentDrawn(roles: seq<string>, user: string, s: string, t: string)
    ensures Drawn(AssignmentEdges(roles, user), s, t) <==> UserEdge(roles, user, s, t)
  {
    var edges := AssignmentEdges(roles, user);
    if r :| r in roles && s == RoleId(r) && t == UserId(user) {
      var i :| 0 <= i < |roles| && roles[i] == r;
      assert edges[i].source == s;
    }
  }

  lemma DrawnConcat(a: seq<DagEdge>, b: seq<DagEdge>, s: string, t: string)
    ensures Drawn(a + b, s, t) <==> Drawn(a, s, t) || Drawn(b, s, t)
  {
    if i :| 0 <= i < |a| && a[i].source == s && a[i].target == t {
      assert (a + b)[i] == a[i];
    }
    if i :| 0 <= i < |b| && b[i].source == s && b[i].target == t {
      assert (a + b)[|a| + i] == b[i];
    }
  }

  // The edges of a hierarchy: assignments, then inheritance.
  ghost predicate HierarchyEdges(
      g: Graph, roles: seq<string>, order: seq<string>, user: string, edges: seq<DagEdge>)
  {
    edges == AssignmentEdges(roles, user) + LinkEdges(Links(g, order), |roles|)
  }

  lemma HierarchyDrawn(
      g: Graph, roles: seq<string>, order: seq<string>, user: string, edges: seq<DagEdge>, s: string, t: string)
    requires HierarchyEdges(g, roles, order, user, edges)
    ensures Drawn(edges, s, t) <==> UserEdge(roles, user, s, t) || ParentEdge(g, order, s, t)
  {
    DrawnConcat(AssignmentEdges(roles, user), LinkEdges(Links(g, order), |roles|), s, t);
    AssignmentDrawn(roles, user, s, t);
    LinkDrawn(g, order, |roles|, s, t);
  }

  lemma AssignedReached(g: Graph, roles: seq<string>, user: string, u: string, t: string)
    requires UserEdge(roles, user, RoleId(u), t)
    ensures ReachedFrom(g, Elements(roles), u)
  {
    var r :| r in roles && RoleId(u) == RoleId(r);
    SameRole(u, r);
    ReachesSelf(g, r);
    assert r in Elements(roles);
  }

  lemma ParentReached(g: Graph, seeds: set<string>, w: string, u: string)
    requires ReachedFrom(g, seeds, w) && u in Next(g, w)
    ensures ReachedFrom(g, seeds, u)
  {
    var a :| a in seeds && Reaches(g, a, w);
    ReachesStep(g, a, w, u);
  }

  lemma {:induction false} DrawnToUser(
      g: Graph, roles: seq<string>, order: seq<string>, user: string, edges: seq<DagEdge>, u: string, n: nat)
    requires HierarchyEdges(g, roles, order, user, edges) && DrawnWalk(edges, RoleId(u), UserId(user), n)
    ensures ReachedFrom(g, Elements(roles), u)
    decreases n
  {
    RoleIsNoUser(u, user);
    var w := HierarchyStep(g, roles, order, user, edges, u, n);
    if w.Some? {
      DrawnToUser(g, roles, order, user, edges, w.value, n - 1);
      ParentReached(g, Elements(roles), w.value, u);
    }
  }

  // The first edge leads to the user, or to a child of u.
  lemma HierarchyStep(
      g: Graph, roles: seq<string>, order: seq<string>, user: string, edges: seq<DagEdge>, u: string, n: nat)
    returns (w: Option<string>)
    requires HierarchyEdges(g, roles, order, user, edges) && n > 0 && DrawnWalk(edges, RoleId(u), UserId(user), n)
    ensures w.None? ==> ReachedFrom(g, Elements(roles), u)
    ensures w.Some? ==> u in Next(g, w.value) && DrawnWalk(edges, RoleId(w.value), UserId(user), n - 1)
  {
    var c := FirstDrawn(edges, RoleId(u), UserId(user), n);
    HierarchyDrawn(g, roles, order, user, edges, RoleId(u), c);
    if UserEdge(roles, user, RoleId(u), c) {
      AssignedReached(g, roles, user, u, c);
      w := None;
    } else {
      var v := ChildAt(g, order, u, c);
      w := Some(v);
    }
  }

  lemma {:induction false} UserDrawn(
      g: Graph, roles: seq<string>, order: seq<string>, user: string, edges: seq<DagEdge>, a: string, u: string,
      n: nat)
    requires HierarchyEdges(g, roles, order, user, edges) && a in roles && Walk(g, a, u, n)
    requires forall v :: ReachedFrom(g, Elements(roles), v) ==> v in order
    ensures LeadsTo(edges, RoleId(u), UserId(user))
    decreases n
  {
    if n == 0 {
      HierarchyDrawn(g, roles, order, user, edges, RoleId(u), UserId(user));
      assert UserEdge(roles, user, RoleId(u), UserId(user));
      assert DrawnWalk(edges, UserId(user), UserId(user), 0);
      StepLeads(edges, RoleId(u), UserId(user), UserId(user));
    } else {
      var c := LastStep(g, a, u, n);
      UserDrawn(g, roles, order, user, edges, a, c, n - 1);
      assert a in Elements(roles) && Reaches(g, a, c);
      assert c in order;
      HierarchyDrawn(g, roles, order, user, edges, RoleId(u), RoleId(c));
      assert ParentEdge(g, order, RoleId(u), RoleId(c));
      StepLeads(edges, RoleId(u), RoleId(c), UserId(user));
    }
  }

  // No role leads to the user but those it has; and all of them do, unless the cap leaves
  // roles out.
  lemma HierarchyShown(
      g: Graph, roles: seq<string>, order: seq<string>, user: string, edges: seq<DagEdge>, u: string)
    requires HierarchyEdges(g, roles, order, user, edges) && CappedOrder(g, Elements(roles), 100, order)
    ensures LeadsTo(edges, RoleId(u), UserId(user)) ==> ReachedFrom(g, Elements(roles), u)
    ensures |ReachSet(g, Elements(roles))| <= 100 && ReachedFrom(g, Elements(roles), u) ==>
              LeadsTo(edges, RoleId(u), UserId(user))
  {
    if LeadsTo(edges, RoleId(u), UserId(user)) {
      var n: nat :| DrawnWalk(edges, RoleId(u), UserId(user), n);
      DrawnToUser(g, roles, order, user, edges, u, n);
    }
    if |ReachSet(g, Elements(roles))| <= 100 && ReachedFrom(g, Elements(roles), u) {
      AllInOrder(g, roles, order);
      var a :| a in Elements(roles) && Reaches(g, a, u);
      var n: nat :| Walk(g, a, u, n);
      UserDrawn(g, roles, order, user, edges, a, u, n);
    }
  }

  lemma AllInOrder(g: Graph, roles: seq<string>, order: seq<string>)
    requires CappedOrder(g, Elements(roles), 100, order) && |ReachSet(g, Elements(roles))| <= 100
    ensures forall v :: ReachedFrom(g, Elements(roles), v) ==> v in order
  {
    var origin: map<string, string> :|
      origin.Keys == Elements(order) && NearestChain(g, Elements(roles), 100, origin);
    UncappedChain(g, Elements(roles), 100, origin);
    forall v | ReachedFrom(g, Elements(roles), v) ensures v in order {
      assert v in origin.Keys;
    }
  }

  // ---------------------------------------------------------------------------
  // Nodes

  // Root is a kind of its own, the other built-in roles are one, all others the third.
  lemma CategoryExact(role: string)
    ensures RoleCategory(role) == "root" <==> role == "root"
    ensures RoleCategory(role) == "builtin" <==>
            role in {"db_admin", "user_admin", "cluster_admin", "security_admin", "public"}
    ensures RoleCategory(role) in {"root", "builtin", "custom"}
  {
  }

  // The node shows the role under its own name and nothing else.
  predicate ShowsParent(n: DagNode, role: string, data: Metadata) {
    && n.id == RoleId(role) && n.caption == role && n.nodeType == "role"
    && n.nodeRole == None && n.metadata == Some(data)
  }

  // Every node that the links add shows a parent, and every parent whose id was not there
  // before has its node.
  lemma ParentNodes(known: set<string>, links: seq<Link>, meta: string -> Metadata, n: DagNode)
    ensures n in NewNodes(known, links, meta) ==>
              n.id !in known && exists l :: l in links && ShowsParent(n, l.parent, meta(l.parent))
    ensures forall l :: l in links && RoleId(l.parent) !in known ==>
              exists m :: m in NewNodes(known, links, meta) && ShowsParent(m, l.parent, meta(l.parent))
  {
    var ns := LinkNodes(links, meta);
    UniqueKeeps(ns, NODE_ID);
    WithoutKeys(Unique(ns, NODE_ID), NODE_ID, known);
    if n in NewNodes(known, links, meta) {
      NewNodeIs(known, links, meta, n);
    }
    forall l | l in links && RoleId(l.parent) !in known
      ensures exists m :: m in NewNodes(known, links, meta) && ShowsParent(m, l.parent, meta(l.parent))
    {
      ParentHasNode(known, links, meta, l);
    }
  }

  lemma {:induction false} WithoutMember(ns: seq<DagNode>, gone: set<string>, n: DagNode)
    requires n in Without(ns, NODE_ID, gone)
    ensures n in ns && n.id !in gone
  {
    var k := |ns| - 1;
    if n in Without(ns[..k], NODE_ID, gone) {
      WithoutMember(ns[..k], gone, n);
    }
  }

  lemma NewNodeIs(known: set<string>, links: seq<Link>, meta: string -> Metadata, n: DagNode)
    requires n in NewNodes(known, links, meta)
    ensures n.id !in known && exists l :: l in links && ShowsParent(n, l.parent, meta(l.parent))
  {
    var ns := LinkNodes(links, meta);
    UniqueKeeps(ns, NODE_ID);
    WithoutMember(Unique(ns, NODE_ID), known, n);
    var i :| 0 <= i < |ns| && ns[i] == n;
    assert ns[i] == RoleNode(links[i].parent, meta);
    assert links[i] in links && ShowsParent(n, links[i].parent, meta(links[i].parent));
  }

  lemma ParentHasNode(known: set<string>, links: seq<Link>, meta: string -> Metadata, l: Link)
    requires l in links && RoleId(l.parent) !in known
    ensures exists m :: m in NewNodes(known, links, meta) && ShowsParent(m, l.parent, meta(l.parent))
  {
    var ns, id := LinkNodes(links, meta), RoleId(l.parent);
    UniqueKeeps(ns, NODE_ID);
    WithoutKeys(Unique(ns, NODE_ID), NODE_ID, known);
    MentionKnown(links, l, meta);
    var all := NewNodes(known, links, meta);
    assert Keys(all, NODE_ID) == Keys(ns, NODE_ID) - known;
    assert id in Keys(all, NODE_ID);
    var k :| 0 <= k < |all| && NODE_ID(all[k]) == id;
    NewNodeIs(known, links, meta, all[k]);
    var o :| o in links && ShowsParent(all[k], o.parent, meta(o.parent));
    SameRole(o.parent, l.parent);
    assert all[k] in all && ShowsParent(all[k], l.parent, meta(l.parent));
  }
}
