/** The role graphs: the upward walk shared by the inheritance graphs, and the role hierarchy. */
module RoleDag {
  import opened GrantTypes
  import opened FirstSeen
  import opened RoleGraph
  import opened DagBuilder

  const BUILTIN_ROLES: set<string> := {"root", "db_admin", "user_admin", "cluster_admin", "security_admin", "public"}

  function RoleCategory(name: string): string {
    if name == "root" then "root" else if name in BUILTIN_ROLES then "builtin" else "custom"
  }

  function RoleId(role: string): string {
    "r_" + role
  }

  // ---------------------------------------------------------------------------
  // What a list of processed roles adds

  // A link of the role graph: a parent and the role that names it.
  datatype Link = Link(parent: string, role: string)

  function LinksTo(parents: seq<string>, role: string): (r: seq<Link>)
    ensures |r| == |parents| && forall i :: 0 <= i < |r| ==> r[i] == Link(parents[i], role)
  {
    seq(|parents|, i requires 0 <= i < |parents| => Link(parents[i], role))
  }

  // One link per occurrence of a parent in the list of a role, role by role.
  function Links(g: Graph, order: seq<string>): seq<Link> {
    if order == [] then []
    else
      var n := |order| - 1;
      Links(g, order[..n]) + LinksTo(Next(g, order[n]), order[n])
  }

  function LinkEdge(l: Link, i: nat): DagEdge {
    DagEdge(EdgeId(i), RoleId(l.parent), RoleId(l.role), "inheritance")
  }

  // The edges for these links, numbered from `first` on.
  function LinkEdges(links: seq<Link>, first: nat): (r: seq<DagEdge>)
    ensures |r| == |links| && forall i :: 0 <= i < |r| ==> r[i] == LinkEdge(links[i], first + i)
  {
    seq(|links|, i requires 0 <= i < |links| => LinkEdge(links[i], first + i))
  }

  function RoleNode(role: string, meta: string -> Metadata): DagNode {
    DagNode(RoleId(role), role, "role", None, Some(meta(role)))
  }

  // The nodes of the parents, in order of first mention.
  function LinkNodes(links: seq<Link>, meta: string -> Metadata): (r: seq<DagNode>)
    ensures |r| == |links| && forall i :: 0 <= i < |r| ==> r[i] == RoleNode(links[i].parent, meta)
  {
    seq(|links|, i requires 0 <= i < |links| => RoleNode(links[i].parent, meta))
  }

  function NewNodes(known: set<string>, links: seq<Link>, meta: string -> Metadata): seq<DagNode> {
    Without(Unique(LinkNodes(links, meta), NODE_ID), NODE_ID, known)
  }

  // One more link: its node is added exactly when its id is neither known nor mentioned.
  lemma NewNodesStep(known: set<string>, links: seq<Link>, l: Link, meta: string -> Metadata)
    ensures var node := RoleNode(l.parent, meta);
            NewNodes(known, links + [l], meta) == NewNodes(known, links, meta) +
              if node.id in known + Keys(LinkNodes(links, meta), NODE_ID) then [] else [node]
  {
    var ns, node := LinkNodes(links, meta), RoleNode(l.parent, meta);
    var all := LinkNodes(links + [l], meta);
    assert all == ns + [node] && all[..|ns|] == ns;
    var u := Unique(ns, NODE_ID);
    if node.id !in Keys(ns, NODE_ID) {
      assert Unique(all, NODE_ID) == u + [node];
      assert (u + [node])[..|u|] == u;
    }
  }

  lemma LinkEdgesStep(links: seq<Link>, l: Link, first: nat)
    ensures LinkEdges(links + [l], first) == LinkEdges(links, first) + [LinkEdge(l, first + |links|)]
  {
  }

  // ---------------------------------------------------------------------------
  // The walk

  // `met` lists the seeds and behind them every other role met so far, each once.
  ghost predicate Met(g: Graph, seeds: seq<string>, met: seq<string>) {
    && seeds <= met
    && NoRepeats(met[|seeds|..])
    && (forall v :: v in met[|seeds|..] ==> v !in seeds)
    && forall v :: v in met ==> ReachedFrom(g, Elements(seeds), v)
  }

  lemma MetStart(g: Graph, seeds: seq<string>)
    ensures Met(g, seeds, seeds)
  {
    forall v | v in seeds ensures ReachedFrom(g, Elements(seeds), v) {
      ReachesSelf(g, v);
    }
  }

  lemma OneMoreOnce(vs: seq<string>, p: string)
    requires NoRepeats(vs) && p !in vs
    ensures NoRepeats(vs + [p])
  {
  }

  lemma MetAnother(g: Graph, seeds: seq<string>, met: seq<string>, v: string, p: string)
    requires Met(g, seeds, met) && v in met && p in Next(g, v) && p !in met
    ensures Met(g, seeds, met + [p])
  {
    var n := |seeds|;
    OneMoreOnce(met[n..], p);
    assert (met + [p])[n..] == met[n..] + [p];
    assert forall i :: 0 <= i < n ==> seeds[i] == met[i];
    var a :| a in Elements(seeds) && Reaches(g, a, v);
    ReachesStep(g, a, v, p);
  }

  lemma MetBounded(g: Graph, seeds: seq<string>, met: seq<string>)
    requires Met(g, seeds, met)
    ensures Elements(met) <= Universe(g, Elements(seeds))
  {
    ReachSetExact(g, Elements(seeds));
  }

  // v is met within distance k.
  ghost predicate MetWithin(met: seq<string>, d: seq<nat>, v: string, k: nat)
    requires |d| == |met|
  {
    exists i :: 0 <= i < |met| && met[i] == v && d[i] <= k
  }

  ghost predicate AtDistance(g: Graph, seeds: set<string>, v: string, n: nat) {
    && (exists a :: a in seeds && Walk(g, a, v, n))
    && forall a, m: nat :: a in seeds && Walk(g, a, v, m) ==> n <= m
  }

  // d gives the distances of the roles met, which are met in that order; the parents of
  // the first n have been met too, and nothing beyond those of the next one.
  ghost predicate Levels(g: Graph, seeds: seq<string>, met: seq<string>, d: seq<nat>, n: nat) {
    && seeds <= met && |d| == |met| && n <= |met|
    && (forall i, j :: 0 <= i < j < |d| ==> d[i] <= d[j])
    && (forall i :: 0 <= i < |seeds| ==> d[i] == 0)
    && (forall i :: 0 <= i < |met| ==> AtDistance(g, Elements(seeds), met[i], d[i]))
    && (n < |met| ==> forall i :: 0 <= i < |met| ==> d[i] <= d[n] + 1)
    && forall i, p :: 0 <= i < n && p in Next(g, met[i]) ==> MetWithin(met, d, p, d[i] + 1)
  }

  lemma LevelsStart(g: Graph, seeds: seq<string>)
    ensures Levels(g, seeds, seeds, seq(|seeds|, i => 0), 0)
  {
    forall i | 0 <= i < |seeds| ensures AtDistance(g, Elements(seeds), seeds[i], 0) {
      assert seeds[i] in Elements(seeds) && Walk(g, seeds[i], seeds[i], 0);
    }
  }

  // Whatever is still to be met lies behind the role whose parents are met next.
  lemma {:induction false} LevelFrontier(
      g: Graph, seeds: seq<string>, met: seq<string>, d: seq<nat>, n: nat, a: string, v: string, m: nat)
    requires Levels(g, seeds, met, d, n) && a in Elements(seeds) && Walk(g, a, v, m)
    ensures MetWithin(met, d, v, m) || (n < |met| && d[n] < m)
    decreases m
  {
    if m == 0 {
      var i :| 0 <= i < |seeds| && seeds[i] == v;
      assert met[i] == v && d[i] == 0;
    } else {
      var c := LastStep(g, a, v, m);
      LevelFrontier(g, seeds, met, d, n, a, c, m - 1);
      if MetWithin(met, d, c, m - 1) {
        NextWithin(g, seeds, met, d, n, c, v, m - 1);
      }
    }
  }

  lemma NextWithin(
      g: Graph, seeds: seq<string>, met: seq<string>, d: seq<nat>, n: nat, c: string, v: string, k: nat)
    requires Levels(g, seeds, met, d, n) && MetWithin(met, d, c, k) && v in Next(g, c)
    ensures MetWithin(met, d, v, k + 1) || (n < |met| && d[n] < k + 1)
  {
    var i :| 0 <= i < |met| && met[i] == c && d[i] <= k;
    if i < n {
      MetLater(met, d, v, d[i] + 1, k + 1);
    } else {
      assert n == i || d[n] <= d[i];
    }
  }

  lemma MetLater(met: seq<string>, d: seq<nat>, v: string, k: nat, m: nat)
    requires |d| == |met| && MetWithin(met, d, v, k) && k <= m
    ensures MetWithin(met, d, v, m)
  {
  }

  lemma MetMore(met: seq<string>, d: seq<nat>, v: string, k: nat, p: string, n: nat)
    requires |d| == |met| && MetWithin(met, d, v, k)
    ensures MetWithin(met + [p], d + [n], v, k)
  {
    var i :| 0 <= i < |met| && met[i] == v && d[i] <= k;
    assert (met + [p])[i] == v && (d + [n])[i] == d[i];
  }

  // A parent of the role under way that was not met yet is one step farther.
  lemma LevelsMeet(g: Graph, seeds: seq<string>, met: seq<string>, d: seq<nat>, n: nat, p: string)
    requires Levels(g, seeds, met, d, n) && n < |met| && p in Next(g, met[n]) && p !in met
    ensures Levels(g, seeds, met + [p], d + [d[n] + 1], n)
  {
    var more, ds := met + [p], d + [d[n] + 1];
    ParentAtDistance(g, seeds, met, d, n, p);
    StillAtDistance(g, seeds, met, d, n, p);
    forall i, q | 0 <= i < n && q in Next(g, more[i]) ensures MetWithin(more, ds, q, ds[i] + 1) {
      StillMet(g, seeds, met, d, n, i, q, p);
    }
  }

  lemma StillAtDistance(g: Graph, seeds: seq<string>, met: seq<string>, d: seq<nat>, n: nat, p: string)
    requires Levels(g, seeds, met, d, n) && n < |met| && AtDistance(g, Elements(seeds), p, d[n] + 1)
    ensures forall i :: 0 <= i <= |met| ==> AtDistance(g, Elements(seeds), (met + [p])[i], (d + [d[n] + 1])[i])
  {
    forall i | 0 <= i <= |met| ensures AtDistance(g, Elements(seeds), (met + [p])[i], (d + [d[n] + 1])[i]) {
      if i < |met| {
        assert AtDistance(g, Elements(seeds), met[i], d[i]);
      }
    }
  }

  lemma StillMet(
      g: Graph, seeds: seq<string>, met: seq<string>, d: seq<nat>, n: nat, i: nat, q: string, p: string)
    requires Levels(g, seeds, met, d, n) && i < n < |met| && q in Next(g, met[i])
    ensures MetWithin(met + [p], d + [d[n] + 1], q, d[i] + 1)
  {
    assert MetWithin(met, d, q, d[i] + 1);
    MetMore(met, d, q, d[i] + 1, p, d[n] + 1);
  }

  lemma ParentAtDistance(g: Graph, seeds: seq<string>, met: seq<string>, d: seq<nat>, n: nat, p: string)
    requires Levels(g, seeds, met, d, n) && n < |met| && p in Next(g, met[n]) && p !in met
    ensures AtDistance(g, Elements(seeds), p, d[n] + 1)
  {
    assert AtDistance(g, Elements(seeds), met[n], d[n]);
    var a :| a in Elements(seeds) && Walk(g, a, met[n], d[n]);
    WalkStep(g, a, met[n], p, d[n]);
    forall b, m: nat | b in Elements(seeds) && Walk(g, b, p, m) ensures d[n] + 1 <= m {
      LevelFrontier(g, seeds, met, d, n, b, p, m);
    }
  }

  // All parents of the role under way have been met.
  lemma LevelsOn(g: Graph, seeds: seq<string>, met: seq<string>, d: seq<nat>, n: nat)
    requires Levels(g, seeds, met, d, n) && n < |met| && forall p :: p in Next(g, met[n]) ==> p in met
    ensures Levels(g, seeds, met, d, n + 1)
  {
    forall p | p in Next(g, met[n]) ensures MetWithin(met, d, p, d[n] + 1) {
      var i :| 0 <= i < |met| && met[i] == p;
    }
  }

  lemma LevelsByDistance(g: Graph, seeds: seq<string>, met: seq<string>, d: seq<nat>, n: nat)
    requires Levels(g, seeds, met, d, n)
    ensures ByDistance(g, Elements(seeds), met)
  {
    forall i, j | 0 <= i < j < |met| ensures NoFarther(g, Elements(seeds), met[i], met[j]) {
      assert AtDistance(g, Elements(seeds), met[i], d[i]) && AtDistance(g, Elements(seeds), met[j], d[j]);
    }
  }

  // Everything that was met was processed: exactly the roles reached from the seeds.
  lemma MetAll(g: Graph, seeds: seq<string>, met: seq<string>)
    requires Met(g, seeds, met) && Closed(g, Elements(met))
    ensures forall v :: v in met <==> ReachedFrom(g, Elements(seeds), v)
  {
    forall v | v in seeds ensures v in met {
      var i :| 0 <= i < |seeds| && seeds[i] == v;
      assert met[i] == v;
    }
    ClosureIsReach(g, Elements(seeds), Elements(met));
  }

  // The seeds first, then every other ancestor once.
  ghost predicate Processed(g: Graph, seeds: seq<string>, order: seq<string>) {
    && Met(g, seeds, order)
    && forall v :: v in order <==> ReachedFrom(g, Elements(seeds), v)
  }

  // Every role is processed exactly once when the seeds are distinct, and only then.
  lemma ProcessedOnce(g: Graph, seeds: seq<string>, order: seq<string>)
    requires Processed(g, seeds, order)
    ensures NoRepeats(order) <==> NoRepeats(seeds)
  {
    assert forall i :: 0 <= i < |seeds| ==> seeds[i] == order[i];
    if NoRepeats(seeds) {
      SeedsThenOthers(seeds, order);
    }
  }

  lemma SeedsThenOthers(seeds: seq<string>, order: seq<string>)
    requires seeds <= order && NoRepeats(seeds) && NoRepeats(order[|seeds|..])
    requires forall v :: v in order[|seeds|..] ==> v !in seeds
    ensures NoRepeats(order)
  {
    var n := |seeds|;
    forall i, j | 0 <= i < j < |order| ensures order[i] != order[j] {
      if j < n {
        assert order[i] == seeds[i] && order[j] == seeds[j];
      } else {
        assert order[j] == order[n..][j - n];
        assert order[j] in order[n..];
        if i < n {
          assert order[i] == seeds[i] && seeds[i] in seeds;
        } else {
          assert order[i] == order[n..][i - n];
        }
      }
    }
  }

  lemma {:induction false} NoRepeatsCount(vs: seq<string>, v: string)
    requires NoRepeats(vs)
    ensures multiset(vs)[v] == if v in vs then 1 else 0
  {
    if vs != [] {
      var init, last := vs[..|vs| - 1], vs[|vs| - 1];
      assert vs == init + [last] && last !in init;
      NoRepeatsCount(init, v);
    }
  }

  // A seed is processed as often as it is listed, every other ancestor once.
  lemma TimesProcessed(g: Graph, seeds: seq<string>, order: seq<string>, r: string)
    requires Processed(g, seeds, order)
    ensures multiset(order)[r] == if r in seeds then multiset(seeds)[r]
                                  else if ReachedFrom(g, Elements(seeds), r) then 1 else 0
  {
    var others := order[|seeds|..];
    assert order == seeds + others;
    NoRepeatsCount(others, r);
  }

  // ---------------------------------------------------------------------------
  // The loops

  // Nodes and edges that the walk has added to what the builder held before.
  ghost predicate Added(
      dag: DAGBuilder, nodes: seq<DagNode>, edges: seq<DagEdge>, links: seq<Link>, meta: string -> Metadata)
    reads dag
  {
    && dag.nodes == nodes + NewNodes(Keys(nodes, NODE_ID), links, meta)
    && dag.edges == edges + LinkEdges(links, |edges|)
  }

  // What the walk keeps between its steps: the roles processed, and those still queued.
  ghost predicate Walking(
      g: Graph, seeds: seq<string>, order: seq<string>, queue: seq<string>, visited: set<string>)
  {
    Met(g, seeds, order + queue) && visited == Elements(order + queue)
  }

  // Room for roles not met yet, and the roles queued.
  ghost function Room(g: Graph, seeds: seq<string>, queue: seq<string>, visited: set<string>): nat {
    Left(g, Elements(seeds), visited) + |queue|
  }

  lemma QueueAnother(
      g: Graph, seeds: seq<string>, order: seq<string>, queue: seq<string>, visited: set<string>, v: string, p: string)
    requires Walking(g, seeds, order, queue, visited) && v in order && p in Next(g, v) && p !in visited
    ensures Walking(g, seeds, order, queue + [p], visited + {p})
    ensures Room(g, seeds, queue + [p], visited + {p}) <= Room(g, seeds, queue, visited)
  {
    var met := order + queue;
    MetAnother(g, seeds, met, v, p);
    ElementsAppend(met, p);
    ConcatAssociates(order, queue, [p]);
    MetBounded(g, seeds, met + [p]);
    assert p in met + [p];
    var all := Universe(g, Elements(seeds));
    assert all - visited == (all - (visited + {p})) + {p};
  }

  // One link: the node of the parent, unless it is there, and the edge.
  method AddLink(
      dag: DAGBuilder, parent: string, current: string, meta: string -> Metadata,
      ghost links: seq<Link>, ghost nodes: seq<DagNode>, ghost edges: seq<DagEdge>)
    requires dag.Valid() && Added(dag, nodes, edges, links, meta)
    modifies dag
    ensures dag.Valid() && Added(dag, nodes, edges, links + [Link(parent, current)], meta)
    ensures dag.tracked == old(dag.tracked)
  {
    var l, known := Link(parent, current), Keys(nodes, NODE_ID);
    NewNodesStep(known, links, l, meta);
    LinkEdgesStep(links, l, |edges|);
    KnownSoFar(dag, nodes, edges, links, meta);
    ConcatAssociates(nodes, NewNodes(known, links, meta), [RoleNode(parent, meta)]);
    ConcatAssociates(edges, LinkEdges(links, |edges|), [LinkEdge(l, |edges| + |links|)]);
    var _ := dag.AddNode(RoleId(parent), parent, "role", Some(meta(parent)), None, true);
    var _ := dag.AddEdge(RoleId(parent), RoleId(current), "inheritance", false);
  }

  // The ids known so far are those known before and those mentioned.
  lemma KnownSoFar(
      dag: DAGBuilder, nodes: seq<DagNode>, edges: seq<DagEdge>, links: seq<Link>, meta: string -> Metadata)
    requires dag.Valid() && Added(dag, nodes, edges, links, meta)
    ensures dag.nodeIds == Keys(nodes, NODE_ID) + Keys(LinkNodes(links, meta), NODE_ID)
  {
    var known, ns := Keys(nodes, NODE_ID), LinkNodes(links, meta);
    KeysConcat(nodes, NewNodes(known, links, meta), NODE_ID);
    WithoutKeys(Unique(ns, NODE_ID), NODE_ID, known);
    UniqueKeeps(ns, NODE_ID);
  }

  // The parents not visited before, in order of first mention.
  function Newly(parents: seq<string>, visited: set<string>): seq<string> {
    if parents == [] then []
    else
      var n := |parents| - 1;
      Newly(parents[..n], visited) +
      if parents[n] in visited || parents[n] in parents[..n] then [] else [parents[n]]
  }

  lemma NewlyNext(parents: seq<string>, p: string, visited: set<string>)
    ensures Newly(parents + [p], visited) ==
            if p in visited + Elements(parents) then Newly(parents, visited) else Newly(parents, visited) + [p]
  {
    assert (parents + [p])[..|parents|] == parents;
  }

  // A parent not met yet joins the queue.
  method Meet(
      ghost g: Graph, ghost seeds: seq<string>, ghost order: seq<string>, ghost current: string,
      parent: string, queue: seq<string>, visited: set<string>)
    returns (q: seq<string>, met: set<string>)
    requires parent in Next(g, current) && current in order && Walking(g, seeds, order, queue, visited)
    ensures Walking(g, seeds, order, q, met) && met == visited + {parent}
    ensures q == if parent in visited then queue else queue + [parent]
    ensures Room(g, seeds, q, met) <= Room(g, seeds, queue, visited)
  {
    q, met := queue, visited;
    if parent !in visited {
      QueueAnother(g, seeds, order, queue, visited, current, parent);
      met := met + {parent};
      q := q + [parent];
    }
    assert met == visited + {parent};
  }

  // The loop over the parents of one role.
  method AddParents(
      dag: DAGBuilder, ghost g: Graph, ghost seeds: seq<string>, ghost order: seq<string>, current: string,
      parents: seq<string>, queue: seq<string>, visited: set<string>, meta: string -> Metadata,
      ghost links: seq<Link>, ghost nodes: seq<DagNode>, ghost edges: seq<DagEdge>)
    returns (q: seq<string>, met: set<string>)
    requires dag.Valid() && Added(dag, nodes, edges, links, meta)
    requires parents == Next(g, current) && current in order && Walking(g, seeds, order, queue, visited)
    modifies dag
    ensures dag.Valid() && Added(dag, nodes, edges, links + LinksTo(parents, current), meta)
    ensures dag.tracked == old(dag.tracked)
    ensures Walking(g, seeds, order, q, met) && met == visited + Elements(parents)
    ensures q == queue + Newly(parents, visited)
    ensures Room(g, seeds, q, met) <= Room(g, seeds, queue, visited)
  {
    q, met := queue, visited;
    ghost var sofar, done := links, [];
    for i := 0 to |parents|
      invariant dag.Valid() && Added(dag, nodes, edges, sofar, meta) && dag.tracked == old(dag.tracked)
      invariant Walking(g, seeds, order, q, met)
      invariant Room(g, seeds, q, met) <= Room(g, seeds, queue, visited)
      invariant done == parents[..i] && Progress(links, queue, visited, done, current, sofar, q, met)
    {
      ghost var before, waiting := met, q;
      var parent := parents[i];
      q, met := Meet(g, seeds, order, current, parent, q, met);
      AddLink(dag, parent, current, meta, sofar, nodes, edges);
      TakeNext(parents, i);
      ProgressStep(links, queue, visited, done, current, sofar, waiting, before, parent);
      done := done + [parent];
      sofar := sofar + [Link(parent, current)];
    }
    assert parents[..|parents|] == parents;
  }

  // The parents dealt with so far have been linked and met.
  ghost predicate Progress(
      links: seq<Link>, queue: seq<string>, visited: set<string>, done: seq<string>, current: string,
      sofar: seq<Link>, q: seq<string>, met: set<string>)
  {
    && sofar == links + LinksTo(done, current) && met == visited + Elements(done)
    && q == queue + Newly(done, visited)
  }

  lemma ProgressStep(
      links: seq<Link>, queue: seq<string>, visited: set<string>, done: seq<string>, current: string,
      sofar: seq<Link>, q: seq<string>, met: set<string>, parent: string)
    requires Progress(links, queue, visited, done, current, sofar, q, met)
    ensures Progress(links, queue, visited, done + [parent], current, sofar + [Link(parent, current)],
                     if parent in met then q else q + [parent], met + {parent})
  {
    ElementsAppend(done, parent);
    assert LinksTo(done + [parent], current) == LinksTo(done, current) + [Link(parent, current)];
    NewlyNext(done, parent, visited);
  }

  // ---------------------------------------------------------------------------
  // The inheritance graph

  // Every parent of a processed role has been met.
  ghost predicate ParentsMet(g: Graph, order: seq<string>, visited: set<string>) {
    forall r, p :: r in order && p in Next(g, r) ==> p in visited
  }

  lemma WalkOn(g: Graph, seeds: seq<string>, order: seq<string>, queue: seq<string>, visited: set<string>)
    requires Walking(g, seeds, order, queue, visited) && queue != []
    ensures Walking(g, seeds, order + [queue[0]], queue[1..], visited)
    ensures Room(g, seeds, queue[1..], visited) < Room(g, seeds, queue, visited)
  {
    assert order + [queue[0]] + queue[1..] == order + queue;
  }

  // All parents of the next role are met, one after another.
  lemma {:induction false} LevelsMeetAll(
      g: Graph, seeds: seq<string>, met: seq<string>, d: seq<nat>, n: nat, ps: seq<string>, visited: set<string>)
    returns (ds: seq<nat>)
    requires Levels(g, seeds, met, d, n) && n < |met| && visited == Elements(met)
    requires forall p :: p in ps ==> p in Next(g, met[n])
    ensures Levels(g, seeds, met + Newly(ps, visited), ds, n)
    ensures Elements(met + Newly(ps, visited)) == visited + Elements(ps)
    decreases |ps|
  {
    if ps == [] {
      ds := d;
      assert met + [] == met;
    } else {
      var init, p := ps[..|ps| - 1], ps[|ps| - 1];
      assert ps == init + [p];
      ds := LevelsMeetAll(g, seeds, met, d, n, init, visited);
      NewlyNext(init, p, visited);
      ElementsAppend(init, p);
      if p !in visited + Elements(init) {
        ds := LevelsMeetOne(g, seeds, met, ds, n, Newly(init, visited), p);
      }
    }
  }

  lemma LevelsMeetOne(
      g: Graph, seeds: seq<string>, met: seq<string>, d: seq<nat>, n: nat, more: seq<string>, p: string)
    returns (ds: seq<nat>)
    requires Levels(g, seeds, met + more, d, n) && n < |met| && p in Next(g, met[n]) && p !in Elements(met + more)
    ensures Levels(g, seeds, met + (more + [p]), ds, n)
    ensures Elements(met + (more + [p])) == Elements(met + more) + {p}
  {
    ConcatAssociates(met, more, [p]);
    ElementsAppend(met + more, p);
    assert (met + more)[n] == met[n];
    LevelsMeet(g, seeds, met + more, d, n, p);
    ds := d + [d[n] + 1];
  }

  // The next role is processed.
  lemma LevelsProcess(
      g: Graph, seeds: seq<string>, order: seq<string>, before: seq<string>, d: seq<nat>, current: string,
      visited: set<string>, after: seq<string>)
    returns (ds: seq<nat>)
    requires order != [] && order[|order| - 1] == current && order <= before && visited == Elements(before)
    requires Levels(g, seeds, before, d, |order| - 1)
    requires after == before + Newly(Next(g, current), visited)
    ensures Levels(g, seeds, after, ds, |order|)
  {
    var n := |order| - 1;
    assert before[n] == current;
    ds := LevelsMeetAll(g, seeds, before, d, n, Next(g, current), visited);
    LevelsOnAll(g, seeds, after, ds, n, current, visited);
  }

  lemma LevelsOnAll(
      g: Graph, seeds: seq<string>, met: seq<string>, d: seq<nat>, n: nat, current: string, visited: set<string>)
    requires Levels(g, seeds, met, d, n) && n < |met| && met[n] == current
    requires Elements(met) == visited + Elements(Next(g, current))
    ensures Levels(g, seeds, met, d, n + 1)
  {
    forall p | p in Next(g, current) ensures p in met {
      assert p in Elements(met);
    }
    LevelsOn(g, seeds, met, d, n);
  }

  // What the walk keeps: every parent of a processed role has been met, nearer ones first.
  ghost predicate Walked(
      g: Graph, seeds: seq<string>, order: seq<string>, queue: seq<string>, visited: set<string>, d: seq<nat>)
  {
    && Walking(g, seeds, order, queue, visited) && ParentsMet(g, order, visited)
    && Levels(g, seeds, order + queue, d, |order|)
  }

  lemma WalkedStart(g: Graph, seeds: seq<string>) returns (d: seq<nat>)
    ensures Walked(g, seeds, [], seeds, Elements(seeds), d)
  {
    d := seq(|seeds|, i => 0);
    assert [] + seeds == seeds;
    MetStart(g, seeds);
    LevelsStart(g, seeds);
  }

  lemma WalkedNext(
      g: Graph, seeds: seq<string>, order: seq<string>, queue: seq<string>, visited: set<string>, d: seq<nat>,
      q: seq<string>, met: set<string>)
    returns (ds: seq<nat>)
    requires Walked(g, seeds, order, queue, visited, d) && queue != []
    requires Walking(g, seeds, order + [queue[0]], q, met) && met == visited + Elements(Next(g, queue[0]))
    requires q == queue[1..] + Newly(Next(g, queue[0]), visited)
    ensures Walked(g, seeds, order + [queue[0]], q, met, ds)
  {
    var now, head := order + [queue[0]], queue[0];
    HeadMoves(order, queue, Newly(Next(g, head), visited));
    ds := LevelsProcess(g, seeds, now, order + queue, d, head, visited, now + q);
    forall r, p | r in now && p in Next(g, r) ensures p in met {
      if r == head {
        assert p in Elements(Next(g, head));
      }
    }
  }

  lemma HeadMoves(order: seq<string>, queue: seq<string>, more: seq<string>)
    requires queue != []
    ensures order + [queue[0]] <= order + queue
    ensures order + [queue[0]] + (queue[1..] + more) == order + queue + more
  {
  }

  lemma WalkEnds(g: Graph, seeds: seq<string>, order: seq<string>, visited: set<string>, d: seq<nat>)
    requires Walked(g, seeds, order, [], visited, d)
    ensures Processed(g, seeds, order) && ByDistance(g, Elements(seeds), order)
  {
    assert order + [] == order;
    LevelsByDistance(g, seeds, order, d, |order|);
    MetAll(g, seeds, order);
  }

  lemma LinksNext(g: Graph, order: seq<string>, role: string)
    ensures Links(g, order + [role]) == Links(g, order) + LinksTo(Next(g, role), role)
  {
    assert (order + [role])[..|order|] == order;
  }

  // The walk processes the seeds and every other ancestor, each of these once, adds one
  // edge per occurrence of a parent in the list of a processed role, and one node per
  // parent that had none; on cyclic graphs too.
  method AddRoleAncestry(dag: DAGBuilder, seeds: seq<string>, parentsOf: Graph, meta: string -> Metadata)
    returns (ghost order: seq<string>)
    requires dag.Valid()
    modifies dag
    ensures dag.Valid() && dag.tracked == old(dag.tracked)
    ensures Processed(parentsOf, seeds, order) && ByDistance(parentsOf, Elements(seeds), order)
    ensures Added(dag, old(dag.nodes), old(dag.edges), Links(parentsOf, order), meta)
    ensures old(DistinctKeys(dag.nodes, NODE_ID)) ==> DistinctKeys(dag.nodes, NODE_ID)
    ensures old(NoDangling(dag.nodes, dag.edges) && forall s :: s in seeds ==> RoleId(s) in dag.nodeIds) ==>
              NoDangling(dag.nodes, dag.edges)
  {
    ghost var nodes, edges := dag.nodes, dag.edges;
    NothingAdded(dag, meta);
    order := [];
    var queue := seeds;
    var visited := Elements(seeds);
    ghost var d := WalkedStart(parentsOf, seeds);
    while queue != []
      invariant dag.Valid() && Added(dag, nodes, edges, Links(parentsOf, order), meta)
      invariant dag.tracked == old(dag.tracked)
      invariant Walked(parentsOf, seeds, order, queue, visited, d)
      decreases Room(parentsOf, seeds, queue, visited)
    {
      var current := queue[0];
      WalkOn(parentsOf, seeds, order, queue, visited);
      LinksNext(parentsOf, order, current);
      ghost var links, before, waiting, known := Links(parentsOf, order), order, queue, visited;
      order := order + [current];
      queue, visited := AddParents(
        dag, parentsOf, seeds, order, current, Next(parentsOf, current), queue[1..], visited, meta,
        links, nodes, edges);
      d := WalkedNext(parentsOf, seeds, before, waiting, known, d, queue, visited);
    }
    WalkEnds(parentsOf, seeds, order, visited, d);
    AncestryIsWhole(dag, nodes, edges, parentsOf, seeds, order, meta);
  }

  lemma NothingAdded(dag: DAGBuilder, meta: string -> Metadata)
    ensures Added(dag, dag.nodes, dag.edges, [], meta)
  {
  }

  lemma {:induction false} LinkMember(g: Graph, order: seq<string>, l: Link)
    ensures l in Links(g, order) <==> l.role in order && l.parent in Next(g, l.role)
  {
    if order != [] {
      var n := |order| - 1;
      var last := LinksTo(Next(g, order[n]), order[n]);
      LinkMember(g, order[..n], l);
      assert order == order[..n] + [order[n]];
      if l.role == order[n] && l.parent in Next(g, order[n]) {
        var i :| 0 <= i < |last| && Next(g, order[n])[i] == l.parent;
        assert last[i] == l;
      }
    }
  }

  // A processed role is a seed or somebody's parent.
  lemma RoleMentioned(g: Graph, seeds: seq<string>, order: seq<string>, r: string)
    requires Processed(g, seeds, order) && r in order && r !in seeds
    ensures exists c :: Link(r, c) in Links(g, order)
  {
    var a :| a in Elements(seeds) && Reaches(g, a, r);
    var m: nat :| Walk(g, a, r, m);
    var c :| Walk(g, a, c, m - 1) && r in Next(g, c);
    assert Reaches(g, a, c);
    LinkMember(g, order, Link(r, c));
  }

  lemma MentionKnown(links: seq<Link>, l: Link, meta: string -> Metadata)
    requires l in links
    ensures RoleId(l.parent) in Keys(LinkNodes(links, meta), NODE_ID)
  {
    var i :| 0 <= i < |links| && links[i] == l;
    assert NODE_ID(LinkNodes(links, meta)[i]) == RoleId(l.parent);
  }

  lemma RoleKnown(
      known: set<string>, g: Graph, seeds: seq<string>, order: seq<string>, r: string, meta: string -> Metadata)
    requires Processed(g, seeds, order) && r in order && forall s :: s in seeds ==> RoleId(s) in known
    ensures RoleId(r) in known + Keys(LinkNodes(Links(g, order), meta), NODE_ID)
  {
    if r !in seeds {
      RoleMentioned(g, seeds, order, r);
      var c :| Link(r, c) in Links(g, order);
      MentionKnown(Links(g, order), Link(r, c), meta);
    }
  }

  // Every processed role has a node: it was known, or some role names it as a parent.
  ghost predicate AllNamed(known: set<string>, g: Graph, order: seq<string>, meta: string -> Metadata) {
    forall r :: r in order ==> RoleId(r) in known + Keys(LinkNodes(Links(g, order), meta), NODE_ID)
  }

  lemma EndsKnown(known: set<string>, first: nat, g: Graph, order: seq<string>, meta: string -> Metadata)
    requires AllNamed(known, g, order, meta)
    ensures var ids := known + Keys(LinkNodes(Links(g, order), meta), NODE_ID);
            forall e :: e in LinkEdges(Links(g, order), first) ==> e.source in ids && e.target in ids
  {
    var links := Links(g, order);
    var ids := known + Keys(LinkNodes(links, meta), NODE_ID);
    forall e | e in LinkEdges(links, first) ensures e.source in ids && e.target in ids {
      var i :| 0 <= i < |links| && LinkEdges(links, first)[i] == e;
      assert links[i] in links;
      LinkMember(g, order, links[i]);
      MentionKnown(links, links[i], meta);
    }
  }

  lemma MoreNodes(nodes: seq<DagNode>, more: seq<DagNode>, edges: seq<DagEdge>)
    requires NoDangling(nodes, edges) && Keys(nodes, NODE_ID) <= Keys(more, NODE_ID)
    ensures NoDangling(more, edges)
  {
  }

  lemma MoreEdges(nodes: seq<DagNode>, a: seq<DagEdge>, b: seq<DagEdge>)
    requires NoDangling(nodes, a)
    requires forall e :: e in b ==> e.source in Keys(nodes, NODE_ID) && e.target in Keys(nodes, NODE_ID)
    ensures NoDangling(nodes, a + b)
  {
    forall i | 0 <= i < |b| ensures b[i] in b {
    }
  }

  // What was distinct stays distinct, and no edge is left without a node at either end
  // when every processed role has its node.
  lemma GraphIsWhole(
      dag: DAGBuilder, nodes: seq<DagNode>, edges: seq<DagEdge>, g: Graph, order: seq<string>,
      meta: string -> Metadata)
    requires dag.Valid() && Added(dag, nodes, edges, Links(g, order), meta)
    ensures DistinctKeys(nodes, NODE_ID) ==> DistinctKeys(dag.nodes, NODE_ID)
    ensures NoDangling(nodes, edges) && AllNamed(Keys(nodes, NODE_ID), g, order, meta) ==>
              NoDangling(dag.nodes, dag.edges)
  {
    var known, links := Keys(nodes, NODE_ID), Links(g, order);
    var ns := LinkNodes(links, meta);
    var u := Unique(ns, NODE_ID);
    UniqueKeeps(ns, NODE_ID);
    WithoutDistinct(u, NODE_ID, known);
    WithoutKeys(u, NODE_ID, known);
    if DistinctKeys(nodes, NODE_ID) {
      ConcatDistinct(nodes, NewNodes(known, links, meta), NODE_ID);
    }
    KnownSoFar(dag, nodes, edges, links, meta);
    if NoDangling(nodes, edges) && AllNamed(known, g, order, meta) {
      EndsKnown(known, |edges|, g, order, meta);
      MoreNodes(nodes, dag.nodes, edges);
      MoreEdges(dag.nodes, edges, LinkEdges(links, |edges|));
    }
  }

  lemma AncestryIsWhole(
      dag: DAGBuilder, nodes: seq<DagNode>, edges: seq<DagEdge>, g: Graph, seeds: seq<string>, order: seq<string>,
      meta: string -> Metadata)
    requires dag.Valid() && Processed(g, seeds, order) && Added(dag, nodes, edges, Links(g, order), meta)
    ensures DistinctKeys(nodes, NODE_ID) ==> DistinctKeys(dag.nodes, NODE_ID)
    ensures NoDangling(nodes, edges) && (forall s :: s in seeds ==> RoleId(s) in Keys(nodes, NODE_ID)) ==>
              NoDangling(dag.nodes, dag.edges)
  {
    var known := Keys(nodes, NODE_ID);
    GraphIsWhole(dag, nodes, edges, g, order, meta);
    if forall s :: s in seeds ==> RoleId(s) in known {
      forall r | r in order ensures RoleId(r) in known + Keys(LinkNodes(Links(g, order), meta), NODE_ID) {
        RoleKnown(known, g, seeds, order, r, meta);
      }
    }
  }

  // ---------------------------------------------------------------------------

  lemma {:induction false} LinksToCount(parents: seq<string>, role: string, l: Link)
    ensures multiset(LinksTo(parents, role))[l] == if l.role == role then multiset(parents)[l.parent] else 0
  {
    if parents != [] {
      var n := |parents| - 1;
      var p := parents[n];
      LinksToCount(parents[..n], role, l);
      assert parents == parents[..n] + [p];
      assert LinksTo(parents, role) == LinksTo(parents[..n], role) + [Link(p, role)];
    }
  }

  // A link occurs once for every time its role was processed and every time its parent is
  // named.
  lemma {:induction false} LinkOccurrences(g: Graph, order: seq<string>, l: Link)
    ensures multiset(Links(g, order))[l] == multiset(order)[l.role] * multiset(Next(g, l.role))[l.parent]
  {
    if order != [] {
      var init, last := order[..|order| - 1], order[|order| - 1];
      LinkOccurrences(g, init, l);
      assert order == init + [last];
      LinkStep(g, init, last, l, multiset(init)[l.role], multiset(Next(g, l.role))[l.parent]);
    }
  }

  lemma LinkStep(g: Graph, init: seq<string>, last: string, l: Link, times: nat, named: nat)
    requires times == multiset(init)[l.role] && named == multiset(Next(g, l.role))[l.parent]
    requires multiset(Links(g, init))[l] == times * named
    ensures multiset(Links(g, init + [last]))[l] == multiset(init + [last])[l.role] * named
  {
    LastLinks(g, init, last, l);
    if l.role == last {
      OneMoreTime(times, named);
    }
  }

  // What processing one more role adds.
  lemma LastLinks(g: Graph, init: seq<string>, last: string, l: Link)
    ensures multiset(Links(g, init + [last]))[l] == multiset(Links(g, init))[l] +
              if l.role == last then multiset(Next(g, last))[l.parent] else 0
    ensures multiset(init + [last])[l.role] == multiset(init)[l.role] + if l.role == last then 1 else 0
  {
    LinksNext(g, init, last);
    LinksToCount(Next(g, last), last, l);
    CountConcat(Links(g, init), LinksTo(Next(g, last), last), l);
  }

  lemma OneMoreTime(n: nat, k: nat)
    ensures (n + 1) * k == n * k + k
  {
  }

  lemma CountConcat(a: seq<Link>, b: seq<Link>, l: Link)
    ensures multiset(a + b)[l] == multiset(a)[l] + multiset(b)[l]
  {
  }

  // Over distinct seeds a link occurs as often as its parent is named.
  lemma OneEdgePerOccurrence(g: Graph, seeds: seq<string>, order: seq<string>, l: Link)
    requires Processed(g, seeds, order) && NoRepeats(seeds)
    ensures multiset(Links(g, order))[l] ==
            if ReachedFrom(g, Elements(seeds), l.role) then multiset(Next(g, l.role))[l.parent] else 0
  {
    ProcessedOnce(g, seeds, order);
    NoRepeatsCount(order, l.role);
    LinkOccurrences(g, order, l);
  }

  // A seed listed twice has its links added twice.
  lemma RepeatedSeed(order: seq<string>)
    requires Processed(map["r" := ["p"]], ["r", "r"], order)
    ensures multiset(Links(map["r" := ["p"]], order))[Link("p", "r")] == 2
  {
    var g: Graph := map["r" := ["p"]];
    TimesProcessed(g, ["r", "r"], order, "r");
    LinkOccurrences(g, order, Link("p", "r"));
  }
}
