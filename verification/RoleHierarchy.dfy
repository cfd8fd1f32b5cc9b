/** The role hierarchy of one user: a capped upward search drawn as a graph. */
module RoleHierarchy {
  import opened GrantTypes
  import opened FirstSeen
  import opened RoleGraph
  import opened RoleHelpers
  import opened DagBuilder
  import opened RoleDag

  function UserId(user: string): string {
    "u_" + user
  }

  const CATEGORIES := (role: string) => map["role_category" := RoleCategory(role)]

  function UserNode(user: string): DagNode {
    DagNode(UserId(user), user, "user", None, None)
  }

  function AssignmentEdges(roles: seq<string>, user: string): (r: seq<DagEdge>)
    ensures |r| == |roles|
    ensures forall i :: 0 <= i < |r| ==> r[i] == DagEdge(EdgeId(i), RoleId(roles[i]), UserId(user), "assignment")
  {
    seq(|roles|, i requires 0 <= i < |roles| => DagEdge(EdgeId(i), RoleId(roles[i]), UserId(user), "assignment"))
  }

  // The graph before any parent is looked at: the user and the direct roles.
  function DirectNodes(roles: seq<string>, user: string): seq<DagNode> {
    [UserNode(user)] + NewNodes({UserId(user)}, LinksTo(roles, user), CATEGORIES)
  }

  ghost predicate Assigned(dag: DAGBuilder, roles: seq<string>, user: string)
    reads dag
  {
    dag.nodes == DirectNodes(roles, user) && dag.edges == AssignmentEdges(roles, user)
  }

  lemma DirectStep(roles: seq<string>, role: string, user: string)
    ensures var node := RoleNode(role, CATEGORIES);
            DirectNodes(roles + [role], user) == DirectNodes(roles, user) +
              if node.id in Keys(DirectNodes(roles, user), NODE_ID) then [] else [node]
    ensures AssignmentEdges(roles + [role], user) ==
            AssignmentEdges(roles, user) + [DagEdge(EdgeId(|roles|), RoleId(role), UserId(user), "assignment")]
  {
    DirectKnown(roles, user);
    NewRole([UserNode(user)], {UserId(user)}, roles, role, user, CATEGORIES);
  }

  lemma NewRole(
      before: seq<DagNode>, known: set<string>, roles: seq<string>, role: string, user: string,
      meta: string -> Metadata)
    ensures var links, node := LinksTo(roles, user), RoleNode(role, meta);
            before + NewNodes(known, LinksTo(roles + [role], user), meta) == before + NewNodes(known, links, meta) +
              if node.id in known + Keys(roles, RoleId) then [] else [node]
  {
    var links := LinksTo(roles, user);
    assert LinksTo(roles + [role], user) == links + [Link(role, user)];
    NewNodesStep(known, links, Link(role, user), meta);
    assert Keys(LinkNodes(links, meta), NODE_ID) == Keys(roles, RoleId) by {
      forall i | 0 <= i < |roles| ensures NODE_ID(LinkNodes(links, meta)[i]) == RoleId(roles[i]) {
      }
    }
  }

  lemma DirectKnown(roles: seq<string>, user: string)
    ensures Keys(DirectNodes(roles, user), NODE_ID) == {UserId(user)} + Keys(roles, RoleId)
    ensures DistinctKeys(DirectNodes(roles, user), NODE_ID)
  {
    var links, known := LinksTo(roles, user), {UserId(user)};
    var ns := LinkNodes(links, CATEGORIES);
    var u := Unique(ns, NODE_ID);
    UniqueKeeps(ns, NODE_ID);
    WithoutKeys(u, NODE_ID, known);
    WithoutDistinct(u, NODE_ID, known);
    assert Keys([UserNode(user)], NODE_ID) == known by {
      assert NODE_ID([UserNode(user)][0]) == UserId(user);
    }
    KeysConcat([UserNode(user)], Without(u, NODE_ID, known), NODE_ID);
    ConcatDistinct([UserNode(user)], Without(u, NODE_ID, known), NODE_ID);
    assert Keys(ns, NODE_ID) == Keys(roles, RoleId) by {
      forall i | 0 <= i < |roles| ensures NODE_ID(ns[i]) == RoleId(roles[i]) {
      }
    }
  }

  // The direct roles: a node each, unless it is there, and an assignment edge each.
  method AddDirectRoles(dag: DAGBuilder, roles: seq<string>, user: string)
    requires dag.Valid() && Assigned(dag, [], user)
    modifies dag
    ensures dag.Valid() && Assigned(dag, roles, user)
  {
    ghost var done := [];
    for i := 0 to |roles|
      invariant dag.Valid() && Assigned(dag, done, user) && done == roles[..i]
    {
      var role := roles[i];
      DirectStep(done, role, user);
      TakeNext(roles, i);
      var _ := dag.AddNode(RoleId(role), role, "role", Some(CATEGORIES(role)), None, true);
      var _ := dag.AddEdge(RoleId(role), UserId(user), "assignment", false);
      done := done + [role];
    }
    assert roles[..|roles|] == roles;
  }

  method StartHierarchy(user: string, roles: seq<string>) returns (dag: DAGBuilder)
    ensures fresh(dag) && dag.Valid() && Assigned(dag, roles, user)
  {
    dag := new DAGBuilder();
    var _ := dag.AddNode(UserId(user), user, "user", None, None, true);
    assert Assigned(dag, [], user);
    AddDirectRoles(dag, roles, user);
  }

  // The parents dealt with so far have been linked, and queued unless visited.
  ghost predicate QueuedSoFar(
      links: seq<Link>, queue: seq<string>, visited: set<string>, done: seq<string>, role: string,
      sofar: seq<Link>, q: seq<string>)
  {
    sofar == links + LinksTo(done, role) && q == queue + Fresh(done, visited)
  }

  lemma QueueStep(
      links: seq<Link>, queue: seq<string>, visited: set<string>, done: seq<string>, role: string,
      sofar: seq<Link>, q: seq<string>, parent: string)
    requires QueuedSoFar(links, queue, visited, done, role, sofar, q)
    ensures QueuedSoFar(links, queue, visited, done + [parent], role, sofar + [Link(parent, role)],
                        if parent in visited then q else q + [parent])
  {
    assert LinksTo(done + [parent], role) == LinksTo(done, role) + [Link(parent, role)];
    assert (done + [parent])[..|done|] == done;
  }

  // The loop over the parents of one role, which queues those not visited yet.
  method QueueAndLink(
      dag: DAGBuilder, role: string, parents: seq<string>, queue: seq<string>, visited: set<string>,
      meta: string -> Metadata, ghost links: seq<Link>, ghost nodes: seq<DagNode>, ghost edges: seq<DagEdge>)
    returns (q: seq<string>)
    requires dag.Valid() && Added(dag, nodes, edges, links, meta)
    modifies dag
    ensures dag.Valid() && Added(dag, nodes, edges, links + LinksTo(parents, role), meta)
    ensures q == queue + Fresh(parents, visited)
  {
    q := queue;
    ghost var sofar, done := links, [];
    for i := 0 to |parents|
      invariant dag.Valid() && Added(dag, nodes, edges, sofar, meta)
      invariant done == parents[..i] && QueuedSoFar(links, queue, visited, done, role, sofar, q)
    {
      var parent := parents[i];
      QueueStep(links, queue, visited, done, role, sofar, q, parent);
      TakeNext(parents, i);
      if parent !in visited {
        q := q + [parent];
      }
      AddLink(dag, parent, role, meta, sofar, nodes, edges);
      done := done + [parent];
      sofar := sofar + [Link(parent, role)];
    }
    assert parents[..|parents|] == parents;
  }

  // The search behind the loop: the queue holds roles without their origins.
  ghost predicate Searching(
      g: Graph, seeds: set<string>, s: Search, order: seq<string>, queue: seq<string>, visited: set<string>)
  {
    && Inv(g, seeds, s) && visited == s.dist.Keys == Elements(order)
    && NoRepeats(order) && ByDistance(g, seeds, order)
    && |queue| == |s.queue| && forall i :: 0 <= i < |queue| ==> queue[i] == s.queue[i].0
  }

  lemma SearchSkip(
      g: Graph, seeds: set<string>, s: Search, order: seq<string>, queue: seq<string>, visited: set<string>)
    requires Searching(g, seeds, s, order, queue, visited) && queue != [] && queue[0] in visited
    ensures Searching(g, seeds, Skip(s), order, queue[1..], visited)
  {
    SkipInv(g, seeds, s);
  }

  lemma SearchVisit(
      g: Graph, seeds: set<string>, s: Search, order: seq<string>, queue: seq<string>, visited: set<string>)
    returns (t: Search)
    requires Searching(g, seeds, s, order, queue, visited) && queue != [] && queue[0] !in visited
    ensures var v := queue[0];
            Searching(g, seeds, t, order + [v], queue[1..] + Fresh(Next(g, v), visited + {v}), visited + {v})
  {
    var v := queue[0];
    var pushed := Fresh(Next(g, v), visited + {v});
    ExpandsAll(g, s, pushed);
    VisitInv(g, seeds, s, pushed);
    ElementsAppend(order, v);
    OneMoreOnce(order, v);
    VisitByDistance(g, seeds, s, order, v);
    t := Visit(s, pushed);
  }

  lemma VisitByDistance(g: Graph, seeds: set<string>, s: Search, order: seq<string>, v: string)
    requires Inv(g, seeds, s) && Elements(order) == s.dist.Keys && ByDistance(g, seeds, order) && v !in s.dist
    ensures ByDistance(g, seeds, order + [v])
  {
    forall u | u in order ensures NoFarther(g, seeds, u, v) {
      assert u in Elements(order);
      SearchNearest(g, seeds, s, u, v);
    }
    ByDistanceNext(g, seeds, order, v);
  }

  // The processed roles: as many as the cap allows, the nearest ones, each once, nearer
  // ones first.
  ghost predicate CappedOrder(g: Graph, seeds: set<string>, cap: nat, order: seq<string>) {
    && NoRepeats(order) && ByDistance(g, seeds, order)
    && exists origin: map<string, string> :: origin.Keys == Elements(order) && NearestChain(g, seeds, cap, origin)
  }

  lemma SearchStops(
      g: Graph, seeds: set<string>, s: Search, order: seq<string>, queue: seq<string>, visited: set<string>, cap: nat)
    requires Searching(g, seeds, s, order, queue, visited) && |visited| <= cap && (queue == [] || |visited| == cap)
    ensures CappedOrder(g, seeds, cap, order)
  {
    assert |s.dist| == |s.dist.Keys| == |visited|;
    SearchChain(g, seeds, s, cap);
    assert s.origin.Keys == Elements(order);
  }

  // Queued and processed roles are direct roles, or named as a parent by a processed role.
  ghost predicate Named(known: set<string>, links: seq<Link>, roles: seq<string>) {
    forall r :: r in roles ==> RoleId(r) in known + Keys(LinkNodes(links, CATEGORIES), NODE_ID)
  }

  lemma NamedNext(
      known: set<string>, links: seq<Link>, order: seq<string>, queue: seq<string>, parents: seq<string>,
      pushed: seq<string>)
    requires Named(known, links, order + queue) && queue != [] && forall p :: p in pushed ==> p in parents
    ensures var more := links + LinksTo(parents, queue[0]);
            Named(known, more, order + [queue[0]] + (queue[1..] + pushed))
  {
    var role := queue[0];
    var more := links + LinksTo(parents, role);
    assert LinkNodes(more, CATEGORIES) == LinkNodes(links, CATEGORIES) + LinkNodes(LinksTo(parents, role), CATEGORIES);
    KeysConcat(LinkNodes(links, CATEGORIES), LinkNodes(LinksTo(parents, role), CATEGORIES), NODE_ID);
    forall r | r in order + [role] + (queue[1..] + pushed)
      ensures RoleId(r) in known + Keys(LinkNodes(more, CATEGORIES), NODE_ID)
    {
      if r in pushed {
        var i :| 0 <= i < |parents| && parents[i] == r;
        assert LinksTo(parents, role)[i] == Link(r, role);
        MentionKnown(more, Link(r, role), CATEGORIES);
      } else {
        assert r in order + queue;
      }
    }
  }

  lemma NamedSkip(known: set<string>, links: seq<Link>, order: seq<string>, queue: seq<string>)
    requires Named(known, links, order + queue) && queue != []
    ensures Named(known, links, order + queue[1..])
  {
    assert forall r :: r in order + queue[1..] ==> r in order + queue;
  }

  lemma NamedAll(known: set<string>, g: Graph, order: seq<string>, queue: seq<string>)
    requires Named(known, Links(g, order), order + queue)
    ensures AllNamed(known, g, order, CATEGORIES)
  {
    assert forall r :: r in order ==> r in order + queue;
  }

  lemma NamedStart(roles: seq<string>, user: string)
    ensures Named(Keys(DirectNodes(roles, user), NODE_ID), [], [] + roles)
    ensures NoDangling(DirectNodes(roles, user), AssignmentEdges(roles, user))
  {
    DirectKnown(roles, user);
    forall i | 0 <= i < |roles| ensures RoleId(roles[i]) in Keys(roles, RoleId) {
    }
  }

  // What the capped loop keeps: the search behind it, and a node for every role met.
  ghost predicate HierarchyClimb(
      g: Graph, seeds: set<string>, known: set<string>, s: Search, order: seq<string>, queue: seq<string>,
      visited: set<string>)
  {
    Searching(g, seeds, s, order, queue, visited) && Named(known, Links(g, order), order + queue)
  }

  lemma ClimbStart(g: Graph, roles: seq<string>, user: string)
    ensures HierarchyClimb(g, Elements(roles), Keys(DirectNodes(roles, user), NODE_ID), Start(roles), [], roles, {})
  {
    StartInv(g, roles);
    NamedStart(roles, user);
  }

  lemma ClimbSkip(
      g: Graph, seeds: set<string>, known: set<string>, s: Search, order: seq<string>, queue: seq<string>,
      visited: set<string>)
    requires HierarchyClimb(g, seeds, known, s, order, queue, visited) && queue != [] && queue[0] in visited
    ensures HierarchyClimb(g, seeds, known, Skip(s), order, queue[1..], visited)
  {
    SearchSkip(g, seeds, s, order, queue, visited);
    NamedSkip(known, Links(g, order), order, queue);
  }

  lemma ClimbVisit(
      g: Graph, seeds: set<string>, known: set<string>, s: Search, order: seq<string>, queue: seq<string>,
      visited: set<string>)
    returns (t: Search)
    requires HierarchyClimb(g, seeds, known, s, order, queue, visited) && queue != [] && queue[0] !in visited
    ensures var v := queue[0];
            HierarchyClimb(g, seeds, known, t, order + [v],
                           queue[1..] + Fresh(Next(g, v), visited + {v}), visited + {v})
    ensures Links(g, order + [queue[0]]) == Links(g, order) + LinksTo(Next(g, queue[0]), queue[0])
    ensures |visited + {queue[0]}| == |visited| + 1
  {
    var v := queue[0];
    t := SearchVisit(g, seeds, s, order, queue, visited);
    LinksNext(g, order, v);
    NamedNext(known, Links(g, order), order, queue, Next(g, v), Fresh(Next(g, v), visited + {v}));
    OneMore(visited, v);
  }

  // The capped loop: it links the nearest 100 roles to their parents.
  method Climb(dag: DAGBuilder, roles: seq<string>, user: string, parentsOf: Graph) returns (ghost order: seq<string>)
    requires dag.Valid() && Assigned(dag, roles, user)
    modifies dag
    ensures dag.Valid()
    ensures CappedOrder(parentsOf, Elements(roles), CHAIN_CAP, order)
    ensures Added(dag, DirectNodes(roles, user), AssignmentEdges(roles, user), Links(parentsOf, order), CATEGORIES)
    ensures AllNamed(Keys(DirectNodes(roles, user), NODE_ID), parentsOf, order, CATEGORIES)
  {
    ghost var nodes, edges, seeds := dag.nodes, dag.edges, Elements(roles);
    ghost var known := Keys(nodes, NODE_ID);
    ghost var s := Start(roles);
    ClimbStart(parentsOf, roles, user);
    NothingAdded(dag, CATEGORIES);
    var visited: set<string> := {};
    var queue := roles;
    order := [];
    while queue != [] && |visited| < CHAIN_CAP
      invariant dag.Valid() && Added(dag, nodes, edges, Links(parentsOf, order), CATEGORIES)
      invariant HierarchyClimb(parentsOf, seeds, known, s, order, queue, visited) && |visited| <= CHAIN_CAP
      decreases CHAIN_CAP - |visited|, |queue|
    {
      var role := queue[0];
      if role in visited {
        ClimbSkip(parentsOf, seeds, known, s, order, queue, visited);
        s := Skip(s);
        queue := queue[1..];
        continue;
      }
      ghost var links := Links(parentsOf, order);
      s := ClimbVisit(parentsOf, seeds, known, s, order, queue, visited);
      visited := visited + {role};
      order := order + [role];
      queue := QueueAndLink(dag, role, Next(parentsOf, role), queue[1..], visited, CATEGORIES, links, nodes, edges);
    }
    SearchStops(parentsOf, seeds, s, order, queue, visited, CHAIN_CAP);
    NamedAll(known, parentsOf, order, queue);
  }

  // The hierarchy of one user: the user and the direct roles with their assignments, then
  // the links of the nearest 100 roles. Node ids differ, and no edge dangles, although a
  // role named by the last one processed may itself be left out by the cap.
  method BuildRoleHierarchy(user: string, granted: seq<string>, parentsOf: Graph)
    returns (graph: DagGraph, ghost order: seq<string>)
    ensures var roles := DirectRoles(granted, true);
            && CappedOrder(parentsOf, DirectSet(granted, true), 100, order)
            && graph.edges == AssignmentEdges(roles, user) + LinkEdges(Links(parentsOf, order), |roles|)
            && graph.nodes == DirectNodes(roles, user) +
                 NewNodes({UserId(user)} + Keys(roles, RoleId), Links(parentsOf, order), CATEGORIES)
    ensures graph.nodes != [] && graph.nodes[0] == DagNode("u_" + user, user, "user", None, None)
    ensures DistinctKeys(graph.nodes, NODE_ID) && NoDangling(graph.nodes, graph.edges) && Dense(graph.edges)
  {
    var roles := DirectRoles(granted, true);
    var dag := StartHierarchy(user, roles);
    order := Climb(dag, roles, user, parentsOf);
    DirectRolesAre(granted, true);
    DirectKnown(roles, user);
    NamedStart(roles, user);
    GraphIsWhole(dag, DirectNodes(roles, user), AssignmentEdges(roles, user), parentsOf, order, CATEGORIES);
    graph := dag.Build();
  }
}
