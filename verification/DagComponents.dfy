/** The split of a role map into its connected components. */
module DagComponents {
  import opened RoleGraph
  import opened DagEdges

  // ---------------------------------------------------------------------------
  // Neighbours

  // One neighbour set; a vertex that is not laid out gets none.
  function AddNeighbour(adj: Graph, v: string, w: string): Graph {
    if v !in adj || w in adj[v] then adj else adj[v := adj[v] + [w]]
  }

  // An edge in either direction.
  predicate Joined(edges: seq<Edge>, v: string, w: string) {
    exists i :: 0 <= i < |edges| && edges[i] in {Edge(v, w), Edge(w, v)}
  }

  // w is a neighbour of v exactly when v is laid out and an edge joins the two.
  ghost predicate Neighbours(adj: Graph, ids: seq<string>, edges: seq<Edge>) {
    adj.Keys == Elements(ids) && forall v, w :: w in Next(adj, v) <==> v in ids && Joined(edges, v, w)
  }

  lemma JoinedNext(edges: seq<Edge>, e: Edge, v: string, w: string)
    ensures Joined(edges + [e], v, w) <==> Joined(edges, v, w) || e in {Edge(v, w), Edge(w, v)}
  {
    var more := edges + [e];
    assert more[|edges|] == e;
    if Joined(edges, v, w) {
      var i :| 0 <= i < |edges| && edges[i] in {Edge(v, w), Edge(w, v)};
      assert more[i] == edges[i];
    }
  }

  lemma AddedNeighbour(adj: Graph, v: string, w: string, a: string, b: string)
    ensures b in Next(AddNeighbour(adj, v, w), a) <==> b in Next(adj, a) || (a == v && b == w && v in adj)
  {
  }

  method FindNeighbours(ids: seq<string>, edges: seq<Edge>) returns (adj: Graph)
    ensures Neighbours(adj, ids, edges)
  {
    adj := map v | v in Elements(ids) :: [];
    for i := 0 to |edges|
      invariant Neighbours(adj, ids, edges[..i])
    {
      var e := edges[i];
      ghost var before := adj;
      var half := AddNeighbour(adj, e.source, e.target);
      adj := AddNeighbour(half, e.target, e.source);
      forall v, w ensures w in Next(adj, v) <==> v in ids && Joined(edges[..i + 1], v, w) {
        AddedNeighbour(before, e.source, e.target, v, w);
        AddedNeighbour(half, e.target, e.source, v, w);
        JoinedNext(edges[..i], e, v, w);
        assert edges[..i + 1] == edges[..i] + [e];
      }
    }
    assert edges[..|edges|] == edges;
  }

  // Between two vertices that are laid out the neighbour relation goes both ways.
  ghost predicate TwoWay(adj: Graph, ids: seq<string>) {
    forall a, b {:trigger b in Next(adj, a)} :: b in ids && b in Next(adj, a) ==> a in ids && a in Next(adj, b)
  }

  lemma NeighboursTwoWay(adj: Graph, ids: seq<string>, edges: seq<Edge>)
    requires Neighbours(adj, ids, edges)
    ensures TwoWay(adj, ids)
  {
    forall a, b | b in ids && b in Next(adj, a) ensures a in ids && a in Next(adj, b) {
      assert Joined(edges, a, b) && Joined(edges, b, a);
    }
  }

  lemma {:induction false} BackWalk(adj: Graph, ids: seq<string>, a: string, b: string, n: nat)
    requires TwoWay(adj, ids) && b in ids && Walk(adj, a, b, n)
    ensures Walk(adj, b, a, n)
    decreases n
  {
    if n > 0 {
      var c :| Walk(adj, a, c, n - 1) && b in Next(adj, c);
      BackWalk(adj, ids, a, c, n - 1);
      WalkPrepend(adj, b, c, a, n - 1);
    }
  }

  lemma ReachesBack(adj: Graph, ids: seq<string>, edges: seq<Edge>, a: string, b: string)
    requires Neighbours(adj, ids, edges) && b in ids && Reaches(adj, a, b)
    ensures Reaches(adj, b, a)
  {
    NeighboursTwoWay(adj, ids, edges);
    var n: nat :| Walk(adj, a, b, n);
    BackWalk(adj, ids, a, b, n);
  }

  // ---------------------------------------------------------------------------
  // One component

  // The search from v, with what earlier searches visited.
  ghost predicate SearchedSoFar(adj: Graph, v: string, earlier: set<string>, comp: set<string>, q: seq<string>) {
    && (forall u :: u in comp ==> Reaches(adj, v, u) && u !in earlier)
    && (forall u :: u in q ==> Reaches(adj, v, u))
    && (v in comp || v in q)
    && forall u, w {:trigger w in Next(adj, u)} ::
         u in comp && w in Next(adj, u) ==> w in earlier || w in comp || w in q
  }

  // The neighbours not visited yet, pushed in order.
  method PushNeighbours(q0: seq<string>, neighbours: seq<string>, visited: set<string>) returns (q: seq<string>)
    ensures q == q0 + Fresh(neighbours, visited)
  {
    q := q0;
    for i := 0 to |neighbours|
      invariant q == q0 + Fresh(neighbours[..i], visited)
    {
      FreshNext(neighbours, visited, i);
      if neighbours[i] !in visited {
        q := q + [neighbours[i]];
      }
    }
    assert neighbours[..|neighbours|] == neighbours;
  }

  lemma PopVisited(adj: Graph, v: string, earlier: set<string>, comp: set<string>, q: seq<string>)
    requires SearchedSoFar(adj, v, earlier, comp, q) && q != [] && v !in earlier
    requires q[|q| - 1] in earlier + comp
    ensures SearchedSoFar(adj, v, earlier, comp, q[..|q| - 1])
  {
    var n := |q| - 1;
    assert q == q[..n] + [q[n]];
  }

  lemma PopFresh(adj: Graph, v: string, earlier: set<string>, comp: set<string>, q: seq<string>)
    requires SearchedSoFar(adj, v, earlier, comp, q) && q != [] && q[|q| - 1] !in earlier + comp
    ensures var cur := q[|q| - 1];
            SearchedSoFar(adj, v, earlier, comp + {cur},
                      q[..|q| - 1] + Fresh(Next(adj, cur), earlier + comp + {cur}))
  {
    var n := |q| - 1;
    var cur := q[n];
    var pushed := Fresh(Next(adj, cur), earlier + comp + {cur});
    assert q == q[..n] + [cur];
    assert Reaches(adj, v, cur);
    forall u | u in pushed ensures Reaches(adj, v, u) {
      ReachesStep(adj, v, cur, u);
    }
  }

  lemma PopShrinks(adj: Graph, v: string, visited: set<string>, cur: string)
    requires Reaches(adj, v, cur) && cur !in visited
    ensures Left(adj, {v}, visited + {cur}) < Left(adj, {v}, visited)
  {
    ReachSetExact(adj, {v});
    assert ReachedFrom(adj, {v}, cur);
    var all := Universe(adj, {v});
    assert all - visited == (all - (visited + {cur})) + {cur};
  }

  // The search finds what v reaches, but for what earlier searches had visited.
  lemma SearchDone(adj: Graph, v: string, earlier: set<string>, comp: set<string>)
    requires SearchedSoFar(adj, v, earlier, comp, []) && Closed(adj, earlier)
    ensures comp == ReachSet(adj, {v}) - earlier && Closed(adj, earlier + comp)
  {
    ReachSetExact(adj, {v});
    forall u | u in comp ensures u in ReachSet(adj, {v}) {
      assert ReachedFrom(adj, {v}, u);
    }
    forall u | u in ReachSet(adj, {v}) ensures u in earlier + comp {
      ClosedReaches(adj, earlier + comp, v, u);
    }
  }

  // One vertex popped off the stack.
  method Pop(
      adj: Graph, ghost v: string, ghost earlier: set<string>, comp0: set<string>, visited0: set<string>,
      q0: seq<string>)
    returns (comp: set<string>, visited: set<string>, q: seq<string>)
    requires q0 != [] && v !in earlier && visited0 == earlier + comp0 && SearchedSoFar(adj, v, earlier, comp0, q0)
    ensures visited == earlier + comp && SearchedSoFar(adj, v, earlier, comp, q)
    ensures (visited == visited0 && |q| < |q0|) || Left(adj, {v}, visited) < Left(adj, {v}, visited0)
  {
    comp, visited := comp0, visited0;
    var cur := q0[|q0| - 1];
    q := q0[..|q0| - 1];
    if cur in visited {
      PopVisited(adj, v, earlier, comp, q0);
    } else {
      PopFresh(adj, v, earlier, comp, q0);
      PopShrinks(adj, v, visited, cur);
      visited := visited + {cur};
      comp := comp + {cur};
      q := PushNeighbours(q, Next(adj, cur), visited);
    }
  }

  lemma SearchStart(adj: Graph, v: string, earlier: set<string>)
    ensures SearchedSoFar(adj, v, earlier, {}, [v])
  {
    ReachesSelf(adj, v);
  }

  method FindComponent(adj: Graph, v: string, earlier: set<string>) returns (comp: set<string>, visited: set<string>)
    requires v !in earlier && Closed(adj, earlier)
    ensures comp == ReachSet(adj, {v}) - earlier && visited == earlier + comp && Closed(adj, visited)
  {
    comp, visited := {}, earlier;
    var q := [v];
    SearchStart(adj, v, earlier);
    while q != []
      invariant visited == earlier + comp && SearchedSoFar(adj, v, earlier, comp, q)
      decreases Left(adj, {v}, visited), |q|
    {
      comp, visited, q := Pop(adj, v, earlier, comp, visited, q);
    }
    SearchDone(adj, v, earlier, comp);
  }

  // ---------------------------------------------------------------------------
  // All components

  // C holds, with any vertex that is laid out, exactly those connected to it.
  ghost predicate Component(adj: Graph, ids: seq<string>, C: set<string>) {
    forall a, b :: a in ids && b in ids && a in C ==> (b in C <==> Reaches(adj, a, b))
  }

  lemma MemberReaches(adj: Graph, ids: seq<string>, edges: seq<Edge>, n: string, a: string, b: string)
    requires Neighbours(adj, ids, edges) && a in ids && Reaches(adj, n, a)
    ensures Reaches(adj, n, b) <==> Reaches(adj, a, b)
  {
    ReachesBack(adj, ids, edges, n, a);
    if Reaches(adj, n, b) {
      ReachesTrans(adj, a, n, b);
    }
    if Reaches(adj, a, b) {
      ReachesTrans(adj, n, a, b);
    }
  }

  // What an earlier search visited is not connected to a vertex it did not visit.
  lemma EarlierApart(adj: Graph, ids: seq<string>, edges: seq<Edge>, earlier: set<string>, n: string, b: string)
    requires Neighbours(adj, ids, edges) && Closed(adj, earlier) && n !in earlier && b in ids && Reaches(adj, n, b)
    ensures b !in earlier
  {
    ReachesBack(adj, ids, edges, n, b);
    if b in earlier {
      ClosedReaches(adj, earlier, b, n);
    }
  }

  lemma FoundIsComponent(
      adj: Graph, ids: seq<string>, edges: seq<Edge>, earlier: set<string>, n: string, C: set<string>)
    requires Neighbours(adj, ids, edges) && Closed(adj, earlier) && n !in earlier
    requires C == ReachSet(adj, {n}) - earlier
    ensures Component(adj, ids, C)
  {
    ReachSetExact(adj, {n});
    forall a, b | a in ids && b in ids && a in C ensures b in C <==> Reaches(adj, a, b) {
      MemberReaches(adj, ids, edges, n, a, b);
      if Reaches(adj, n, b) {
        EarlierApart(adj, ids, edges, earlier, n, b);
      }
    }
  }

  ghost predicate Covers(comps: seq<set<string>>, S: set<string>) {
    forall u {:trigger Within(comps, u)} :: u in S <==> Within(comps, u)
  }

  predicate Within(comps: seq<set<string>>, u: string) {
    exists i :: 0 <= i < |comps| && u in comps[i]
  }

  // Disjoint components.
  ghost predicate Partitioned(adj: Graph, ids: seq<string>, comps: seq<set<string>>) {
    && (forall i :: 0 <= i < |comps| ==> Component(adj, ids, comps[i]))
    && forall i, j :: 0 <= i < j < |comps| ==> comps[i] !! comps[j]
  }

  lemma OneMoreComponent(adj: Graph, ids: seq<string>, comps: seq<set<string>>, visited: set<string>, C: set<string>)
    requires Partitioned(adj, ids, comps) && Covers(comps, visited) && C !! visited && Component(adj, ids, C)
    ensures Partitioned(adj, ids, comps + [C]) && Covers(comps + [C], visited + C)
  {
    var more := comps + [C];
    forall i | 0 <= i < |comps| ensures comps[i] !! C {
      forall u | u in comps[i] ensures u !in C {
        assert Within(comps, u);
      }
    }
    forall u ensures u in visited + C <==> Within(more, u) {
      assert u in visited <==> Within(comps, u);
      if i :| 0 <= i < |comps| && u in comps[i] {
        assert more[i] == comps[i];
      }
      if u in C {
        assert more[|comps|] == C;
      }
      if j :| 0 <= j < |more| && u in more[j] {
        assert j < |comps| ==> more[j] == comps[j];
      }
    }
  }

  // The components are disjoint and cover every vertex laid out, and two such vertices
  // share one exactly when a path of edges between laid out vertices joins them, even when
  // edges also lead to ids that are not laid out.
  method FindComponents(ids: seq<string>, edges: seq<Edge>) returns (comps: seq<set<string>>, ghost adj: Graph)
    ensures Neighbours(adj, ids, edges) && Partitioned(adj, ids, comps)
    ensures forall v :: v in ids ==> Within(comps, v)
  {
    var neighbours := FindNeighbours(ids, edges);
    adj := neighbours;
    comps := [];
    var visited: set<string> := {};
    for k := 0 to |ids|
      invariant Partitioned(adj, ids, comps) && Covers(comps, visited) && Closed(adj, visited)
      invariant Elements(ids[..k]) <= visited
    {
      var v := ids[k];
      ElementsTake(ids, k);
      if v in visited {
        continue;
      }
      ReachesSelf(adj, v);
      ReachSetExact(adj, {v});
      ghost var earlier := visited;
      var comp;
      comp, visited := FindComponent(neighbours, v, visited);
      FoundIsComponent(adj, ids, edges, earlier, v, comp);
      OneMoreComponent(adj, ids, comps, earlier, comp);
      comps := comps + [comp];
    }
    assert ids[..|ids|] == ids;
    forall v | v in ids ensures Within(comps, v) {
      assert v in Elements(ids);
    }
  }

  lemma OnlyOne(adj: Graph, ids: seq<string>, comps: seq<set<string>>, i: nat, k: nat, a: string)
    requires Partitioned(adj, ids, comps) && i < |comps| && k < |comps|
    ensures a in comps[i] && a in comps[k] ==> i == k
  {
    if i < k {
      assert comps[i] !! comps[k];
    } else if k < i {
      assert comps[k] !! comps[i];
    }
  }

  // Sharing a component is being connected.
  lemma ShareIffConnected(adj: Graph, ids: seq<string>, comps: seq<set<string>>, a: string, b: string)
    requires Partitioned(adj, ids, comps) && a in ids && b in ids && Within(comps, a)
    ensures (exists i :: 0 <= i < |comps| && a in comps[i] && b in comps[i]) <==> Reaches(adj, a, b)
  {
    var k :| 0 <= k < |comps| && a in comps[k];
    assert Component(adj, ids, comps[k]);
    forall i | 0 <= i < |comps| && a in comps[i] ensures i == k {
      OnlyOne(adj, ids, comps, i, k, a);
    }
  }
}
