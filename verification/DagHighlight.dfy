/** The nodes that are highlighted with a clicked node: two sweeps that share one set. */
module DagHighlight {
  import opened RoleGraph
  import opened InverseGraph
  import opened DagEdges

  // The targets of the edges that leave v, in order.
  function Targets(edges: seq<Edge>, v: string): seq<string> {
    if edges == [] then []
    else
      var n := |edges| - 1;
      Targets(edges[..n], v) + if edges[n].source == v then [edges[n].target] else []
  }

  function Sources(edges: seq<Edge>, v: string): seq<string> {
    if edges == [] then []
    else
      var n := |edges| - 1;
      Sources(edges[..n], v) + if edges[n].target == v then [edges[n].source] else []
  }

  function SourceIds(edges: seq<Edge>): set<string> {
    set i | 0 <= i < |edges| :: edges[i].source
  }

  function TargetIds(edges: seq<Edge>): set<string> {
    set i | 0 <= i < |edges| :: edges[i].target
  }

  // source to targets
  function Down(edges: seq<Edge>): Graph {
    map v | v in SourceIds(edges) :: Targets(edges, v)
  }

  // target to sources
  function Up(edges: seq<Edge>): Graph {
    map v | v in TargetIds(edges) :: Sources(edges, v)
  }

  ghost predicate Adjacency(edges: seq<Edge>, children: Graph, parents: Graph) {
    && children.Keys == SourceIds(edges) && parents.Keys == TargetIds(edges)
    && forall v :: Next(children, v) == Targets(edges, v) && Next(parents, v) == Sources(edges, v)
  }

  lemma IdsNext(edges: seq<Edge>, i: nat)
    requires i < |edges|
    ensures SourceIds(edges[..i + 1]) == SourceIds(edges[..i]) + {edges[i].source}
    ensures TargetIds(edges[..i + 1]) == TargetIds(edges[..i]) + {edges[i].target}
  {
    var more, less := edges[..i + 1], edges[..i];
    assert forall k :: 0 <= k < i ==> more[k] == less[k];
    assert more[i] == edges[i];
  }

  method BuildAdjacency(edges: seq<Edge>) returns (children: Graph, parents: Graph)
    ensures children == Down(edges) && parents == Up(edges)
  {
    children, parents := map[], map[];
    for i := 0 to |edges|
      invariant Adjacency(edges[..i], children, parents)
    {
      AdjacencyNext(edges, i, children, parents);
      var e := edges[i];
      children := children[e.source := Next(children, e.source) + [e.target]];
      parents := parents[e.target := Next(parents, e.target) + [e.source]];
    }
    assert edges[..|edges|] == edges;
    AdjacencyIs(edges, children, parents);
  }

  lemma AdjacencyNext(edges: seq<Edge>, i: nat, children: Graph, parents: Graph)
    requires i < |edges| && Adjacency(edges[..i], children, parents)
    ensures var e := edges[i];
            Adjacency(edges[..i + 1], children[e.source := Next(children, e.source) + [e.target]],
                      parents[e.target := Next(parents, e.target) + [e.source]])
  {
    var e := edges[i];
    var down := children[e.source := Next(children, e.source) + [e.target]];
    var up := parents[e.target := Next(parents, e.target) + [e.source]];
    IdsNext(edges, i);
    forall v ensures Next(down, v) == Targets(edges[..i + 1], v) && Next(up, v) == Sources(edges[..i + 1], v) {
      EndsNext(edges, i, v);
      OneMoreNext(children, e.source, e.target, v);
      OneMoreNext(parents, e.target, e.source, v);
    }
  }

  lemma OneMoreNext(g: Graph, a: string, b: string, v: string)
    ensures Next(g[a := Next(g, a) + [b]], v) == if v == a then Next(g, v) + [b] else Next(g, v)
  {
  }

  lemma EndsNext(edges: seq<Edge>, i: nat, v: string)
    requires i < |edges|
    ensures Targets(edges[..i + 1], v) ==
            if edges[i].source == v then Targets(edges[..i], v) + [edges[i].target] else Targets(edges[..i], v)
    ensures Sources(edges[..i + 1], v) ==
            if edges[i].target == v then Sources(edges[..i], v) + [edges[i].source] else Sources(edges[..i], v)
  {
    assert edges[..i + 1][..i] == edges[..i];
  }

  lemma AdjacencyIs(edges: seq<Edge>, children: Graph, parents: Graph)
    requires Adjacency(edges, children, parents)
    ensures children == Down(edges) && parents == Up(edges)
  {
    forall v | v in children ensures children[v] == Targets(edges, v) {
      assert Next(children, v) == Targets(edges, v);
    }
    forall v | v in parents ensures parents[v] == Sources(edges, v) {
      assert Next(parents, v) == Sources(edges, v);
    }
  }

  lemma {:induction false} CountEnds(edges: seq<Edge>, p: string, c: string)
    ensures multiset(Targets(edges, p))[c] == multiset(Sources(edges, c))[p]
  {
    if edges != [] {
      CountEnds(edges[..|edges| - 1], p, c);
    }
  }

  lemma {:induction false} NoEnds(edges: seq<Edge>, v: string)
    ensures v !in SourceIds(edges) ==> Targets(edges, v) == []
    ensures v !in TargetIds(edges) ==> Sources(edges, v) == []
  {
    if edges != [] {
      var n := |edges| - 1;
      NoEnds(edges[..n], v);
      IdsNext(edges, n);
      assert edges[..n + 1] == edges;
    }
  }

  // The two directions are inverse to each other.
  lemma DownUpInverse(edges: seq<Edge>)
    ensures IsInverse(Down(edges), Up(edges))
  {
    forall p, c ensures Times(Up(edges), c, p) == Times(Down(edges), p, c) {
      CountEnds(edges, p, c);
      NoEnds(edges, p);
      NoEnds(edges, c);
    }
  }

  // ---------------------------------------------------------------------------
  // One sweep

  // g without the edges into S.
  function Avoid(g: Graph, S: set<string>): Graph {
    map v | v in g :: Fresh(g[v], S)
  }

  lemma AvoidNext(g: Graph, S: set<string>, v: string, w: string)
    ensures w in Next(Avoid(g, S), v) <==> w in Next(g, v) && w !in S
  {
  }

  // The marked nodes are reached from v, and closed except for those waiting.
  ghost predicate Sweeping(g: Graph, v: string, marked: set<string>, waiting: set<string>) {
    && v in marked && waiting <= marked
    && (forall u :: u in marked ==> Reaches(g, v, u))
    && forall u, w {:trigger w in Next(g, u)} :: u in marked && u !in waiting && w in Next(g, u) ==> w in marked
  }

  ghost function SweepRoom(g: Graph, v: string, marked: set<string>, queue: seq<string>): nat {
    Left(g, {v}, marked) + |queue|
  }

  lemma MarkOne(
      g: Graph, v: string, marked: set<string>, waiting: set<string>, queue: seq<string>, u: string, w: string)
    requires Sweeping(g, v, marked, waiting) && u in marked && w in Next(g, u) && w !in marked
    ensures Sweeping(g, v, marked + {w}, waiting + {w})
    ensures SweepRoom(g, v, marked + {w}, queue + [w]) <= SweepRoom(g, v, marked, queue)
  {
    ReachesStep(g, v, u, w);
    ReachSetExact(g, {v});
    assert ReachedFrom(g, {v}, w);
    var all := Universe(g, {v});
    assert all - marked == (all - (marked + {w})) + {w};
  }

  // Everything reached from v over nodes outside `ids`.
  ghost function Swept(g: Graph, v: string, ids: set<string>): set<string> {
    ReachSet(Avoid(g, ids), {v})
  }

  lemma SweptAll(g: Graph, v: string, marked: set<string>)
    requires Sweeping(g, v, marked, {})
    ensures marked == ReachSet(g, {v})
  {
    forall u | u in marked ensures ReachedFrom(g, {v}, u) {
    }
    ClosureIsReach(g, {v}, marked);
    ReachSetExact(g, {v});
  }

  // The moment between two neighbours of `node`, which itself still waits: the ids are
  // those from before the sweep and those it marked.
  ghost predicate Between(
      g: Graph, v: string, before: set<string>, node: string, ids: set<string>, q: seq<string>, marked: set<string>)
  {
    ids == before + marked && Sweeping(Avoid(g, before), v, marked, Elements(q) + {node})
  }

  lemma MarkNext(
      g: Graph, v: string, before: set<string>, node: string, ids: set<string>, q: seq<string>, marked: set<string>,
      w: string)
    requires Between(g, v, before, node, ids, q, marked) && w in Next(g, node) && w !in ids
    ensures Between(g, v, before, node, ids + {w}, q + [w], marked + {w})
    ensures SweepRoom(Avoid(g, before), v, marked + {w}, q + [w]) <= SweepRoom(Avoid(g, before), v, marked, q)
  {
    AvoidNext(g, before, node, w);
    MarkOne(Avoid(g, before), v, marked, Elements(q) + {node}, q, node, w);
    ElementsAppend(q, w);
    UnionSwap(Elements(q), {node}, {w});
    UnionAssociates(before, marked, {w});
  }

  lemma UnionSwap(a: set<string>, b: set<string>, c: set<string>)
    ensures a + b + c == a + c + b
  {
  }

  lemma UnionAssociates(a: set<string>, b: set<string>, c: set<string>)
    ensures a + b + c == a + (b + c)
  {
  }

  // Every neighbour of the node has been seen, so it waits no longer.
  lemma NodeDone(
      g: Graph, v: string, before: set<string>, node: string, ids: set<string>, q: seq<string>, marked: set<string>)
    requires Between(g, v, before, node, ids, q, marked) && Elements(Next(g, node)) <= ids
    ensures Sweeping(Avoid(g, before), v, marked, Elements(q))
  {
    forall w | w in Next(Avoid(g, before), node) ensures w in marked {
      AvoidNext(g, before, node, w);
      assert w in Elements(Next(g, node));
    }
  }

  // A neighbour not marked yet is marked and queued.
  method MarkNeighbour(
      ghost g: Graph, ghost v: string, ghost before: set<string>, ghost node: string, w: string,
      ids: set<string>, queue: seq<string>, ghost marked: set<string>)
    returns (now: set<string>, q: seq<string>, ghost more: set<string>)
    requires Between(g, v, before, node, ids, queue, marked) && w in Next(g, node)
    ensures Between(g, v, before, node, now, q, more) && now == ids + {w}
    ensures SweepRoom(Avoid(g, before), v, more, q) <= SweepRoom(Avoid(g, before), v, marked, queue)
  {
    now, q, more := ids, queue, marked;
    if w !in ids {
      MarkNext(g, v, before, node, ids, queue, marked, w);
      now, q, more := ids + {w}, queue + [w], marked + {w};
    }
  }

  // One node of the queue: its neighbours not marked yet are marked and queued.
  method SweepNode(
      ghost g: Graph, ghost v: string, ghost before: set<string>, ghost node: string, neighbours: seq<string>,
      ids: set<string>, queue: seq<string>, ghost marked: set<string>)
    returns (now: set<string>, q: seq<string>, ghost more: set<string>)
    requires Between(g, v, before, node, ids, queue, marked) && neighbours == Next(g, node)
    ensures now == before + more && Sweeping(Avoid(g, before), v, more, Elements(q))
    ensures SweepRoom(Avoid(g, before), v, more, q) <= SweepRoom(Avoid(g, before), v, marked, queue)
  {
    now, q, more := ids, queue, marked;
    for i := 0 to |neighbours|
      invariant Between(g, v, before, node, now, q, more)
      invariant Elements(neighbours[..i]) <= now
      invariant SweepRoom(Avoid(g, before), v, more, q) <= SweepRoom(Avoid(g, before), v, marked, queue)
    {
      ElementsTake(neighbours, i);
      now, q, more := MarkNeighbour(g, v, before, node, neighbours[i], now, q, more);
    }
    assert neighbours[..|neighbours|] == neighbours;
    NodeDone(g, v, before, node, now, q, more);
  }

  lemma HeadWaits(queue: seq<string>)
    requires queue != []
    ensures Elements(queue) == Elements(queue[1..]) + {queue[0]}
  {
  }

  // The loop over the queue, which the source writes once for each direction.
  method Sweep(g: Graph, v: string, ids: set<string>) returns (now: set<string>)
    requires v in ids
    ensures now == ids + Swept(g, v, ids)
  {
    now := ids;
    ghost var h, marked := Avoid(g, ids), {v};
    ReachesSelf(h, v);
    var queue := [v];
    while queue != []
      invariant now == ids + marked && Sweeping(h, v, marked, Elements(queue))
      decreases SweepRoom(h, v, marked, queue)
    {
      var node := queue[0];
      HeadWaits(queue);
      now, queue, marked := SweepNode(g, v, ids, node, Next(g, node), now, queue[1..], marked);
    }
    SweptAll(h, v, marked);
  }

  // ---------------------------------------------------------------------------
  // What is highlighted

  ghost function DescendantsOf(children: Graph, v: string): set<string> {
    ReachSet(children, {v})
  }

  ghost function Highlighted(children: Graph, parents: Graph, v: string): set<string> {
    DescendantsOf(children, v) + Swept(parents, v, DescendantsOf(children, v))
  }

  ghost predicate Subgraph(h: Graph, g: Graph) {
    forall v, w {:trigger w in Next(h, v)} :: w in Next(h, v) ==> w in Next(g, v)
  }

  lemma {:induction false} SubgraphWalk(h: Graph, g: Graph, a: string, b: string, n: nat)
    requires Subgraph(h, g) && Walk(h, a, b, n)
    ensures Walk(g, a, b, n)
    decreases n
  {
    if n > 0 {
      var c := LastStep(h, a, b, n);
      SubgraphWalk(h, g, a, c, n - 1);
      WalkStep(g, a, c, b, n - 1);
    }
  }

  lemma AvoidedWalk(g: Graph, S: set<string>, a: string, b: string, n: nat)
    requires Walk(Avoid(g, S), a, b, n)
    ensures Walk(g, a, b, n)
  {
    forall v, w | w in Next(Avoid(g, S), v) ensures w in Next(g, v) {
      AvoidNext(g, S, v, w);
    }
    SubgraphWalk(Avoid(g, S), g, a, b, n);
  }

  lemma SweptExact(g: Graph, v: string, S: set<string>, u: string)
    ensures u in Swept(g, v, S) <==> Reaches(Avoid(g, S), v, u)
  {
    ReachSetExact(Avoid(g, S), {v});
  }

  lemma SweptIsReached(g: Graph, v: string, S: set<string>, u: string)
    requires u in Swept(g, v, S)
    ensures Reaches(g, v, u)
  {
    SweptExact(g, v, S, u);
    var n: nat :| Walk(Avoid(g, S), v, u, n);
    AvoidedWalk(g, S, v, u, n);
  }

  lemma SweptStart(g: Graph, v: string, S: set<string>)
    ensures v in Swept(g, v, S)
  {
    ReachesSelf(Avoid(g, S), v);
    SweptExact(g, v, S, v);
  }

  lemma SweptStep(g: Graph, v: string, S: set<string>, u: string, w: string)
    requires u in Swept(g, v, S) && w in Next(g, u) && w !in S
    ensures w in Swept(g, v, S)
  {
    SweptExact(g, v, S, u);
    AvoidNext(g, S, u, w);
    ReachesStep(Avoid(g, S), v, u, w);
    SweptExact(g, v, S, w);
  }

  lemma SweptClosed(g: Graph, v: string)
    ensures Closed(g, Swept(g, v, {v}))
  {
    SweptStart(g, v, {v});
    forall u, w | u in Swept(g, v, {v}) && w in Next(g, u) ensures w in Swept(g, v, {v}) {
      if w != v {
        SweptStep(g, v, {v}, u, w);
      }
    }
  }

  // Edges back to the start do not matter.
  lemma SweepFromStart(g: Graph, v: string)
    ensures Swept(g, v, {v}) == ReachSet(g, {v})
  {
    SweptStart(g, v, {v});
    SweptClosed(g, v);
    forall u | u in Swept(g, v, {v}) ensures Reaches(g, v, u) {
      SweptIsReached(g, v, {v}, u);
    }
    SweptAll(g, v, Swept(g, v, {v}));
  }

  // The clicked node, everything below it, and everything above it that is reached
  // upwards without passing a node below.
  method ConnectedIds(clicked: string, edges: seq<Edge>) returns (ids: set<string>)
    ensures ids == Highlighted(Down(edges), Up(edges), clicked)
  {
    var children, parents := BuildAdjacency(edges);
    SweepFromStart(children, clicked);
    ids := Sweep(children, clicked, {clicked});
    BelowStart(children, clicked);
    assert ids == DescendantsOf(children, clicked);
    ids := Sweep(parents, clicked, ids);
  }

  // ---------------------------------------------------------------------------
  // When that is everything below and above

  ghost function AncestorsOf(parents: Graph, v: string): set<string> {
    ReachSet(parents, {v})
  }

  // Above v means upwards from v.
  lemma AboveMeaning(children: Graph, parents: Graph, v: string, u: string)
    requires IsInverse(children, parents)
    ensures u in AncestorsOf(parents, v) <==> Reaches(children, u, v)
  {
    ReachSetExact(parents, {v});
    InverseReaches(children, parents, u, v);
  }

  // Every parent of a node on a cycle through v is highlighted.
  ghost predicate CyclesLit(children: Graph, parents: Graph, v: string) {
    forall c, p {:trigger p in Next(parents, c)} ::
      c in DescendantsOf(children, v) && c in AncestorsOf(parents, v) && p in Next(parents, c) ==>
        p in Highlighted(children, parents, v)
  }

  lemma BelowStart(children: Graph, v: string)
    ensures v in DescendantsOf(children, v)
  {
    ReachesSelf(children, v);
    ReachSetExact(children, {v});
  }

  lemma AboveStep(parents: Graph, v: string, c: string, p: string)
    requires c in AncestorsOf(parents, v) && p in Next(parents, c)
    ensures p in AncestorsOf(parents, v)
  {
    ReachSetExact(parents, {v});
    ReachesStep(parents, v, c, p);
  }

  lemma LitStep(children: Graph, parents: Graph, v: string, c: string, p: string)
    requires c in Highlighted(children, parents, v) && c !in DescendantsOf(children, v) && p in Next(parents, c)
    ensures p in Highlighted(children, parents, v)
  {
    if p !in DescendantsOf(children, v) {
      SweptStep(parents, v, DescendantsOf(children, v), c, p);
    }
  }

  ghost function LitAbove(children: Graph, parents: Graph, v: string): set<string> {
    AncestorsOf(parents, v) * Highlighted(children, parents, v)
  }

  lemma LitClosed(children: Graph, parents: Graph, v: string)
    requires CyclesLit(children, parents, v)
    ensures Closed(parents, LitAbove(children, parents, v))
  {
    forall c, p | c in LitAbove(children, parents, v) && p in Next(parents, c)
      ensures p in LitAbove(children, parents, v)
    {
      AboveStep(parents, v, c, p);
      if c !in DescendantsOf(children, v) {
        LitStep(children, parents, v, c, p);
      }
    }
  }

  lemma AboveLit(children: Graph, parents: Graph, v: string, u: string)
    requires CyclesLit(children, parents, v) && u in AncestorsOf(parents, v)
    ensures u in Highlighted(children, parents, v)
  {
    BelowStart(children, v);
    BelowStart(parents, v);
    ReachSetExact(parents, {v});
    LitClosed(children, parents, v);
    ClosedReaches(parents, LitAbove(children, parents, v), v, u);
  }

  // Nothing but ancestors and descendants is highlighted ...
  lemma OnlyRelated(children: Graph, parents: Graph, v: string)
    ensures Highlighted(children, parents, v) <= DescendantsOf(children, v) + AncestorsOf(parents, v)
  {
    forall u | u in Swept(parents, v, DescendantsOf(children, v)) ensures u in AncestorsOf(parents, v) {
      SweptIsReached(parents, v, DescendantsOf(children, v), u);
      ReachSetExact(parents, {v});
    }
  }

  lemma CompleteIffCyclesLit(children: Graph, parents: Graph, v: string)
    ensures Highlighted(children, parents, v) == DescendantsOf(children, v) + AncestorsOf(parents, v) <==>
            CyclesLit(children, parents, v)
  {
    OnlyRelated(children, parents, v);
    if CyclesLit(children, parents, v) {
      forall u | u in AncestorsOf(parents, v) ensures u in Highlighted(children, parents, v) {
        AboveLit(children, parents, v, u);
      }
    } else {
      var c, p :| c in DescendantsOf(children, v) && c in AncestorsOf(parents, v) && p in Next(parents, c)
                  && p !in Highlighted(children, parents, v);
      AboveStep(parents, v, c, p);
    }
  }

  ghost predicate OnCycle(children: Graph, v: string) {
    exists w :: w in Next(children, v) && Reaches(children, w, v)
  }

  lemma {:induction false} FirstStep(g: Graph, a: string, b: string, n: nat) returns (w: string)
    requires Walk(g, a, b, n) && n > 0
    ensures w in Next(g, a) && Walk(g, w, b, n - 1)
    decreases n
  {
    var c := LastStep(g, a, b, n);
    if n == 1 {
      w := b;
    } else {
      w := FirstStep(g, a, c, n - 1);
      WalkStep(g, w, c, b, n - 2);
    }
  }

  // The drawn graph without the edges into nodes that v leads to, v itself excepted.
  ghost function StraightWays(children: Graph, v: string): Graph {
    Avoid(children, DescendantsOf(children, v) - {v})
  }

  // u leads to v without passing a node that v leads to.
  ghost predicate LeadsStraight(children: Graph, u: string, v: string) {
    Reaches(StraightWays(children, v), u, v)
  }

  // The graph of the upward sweep.
  ghost function Around(children: Graph, parents: Graph, v: string): Graph {
    Avoid(parents, DescendantsOf(children, v))
  }

  // Outside B, v excepted, up and d hold the same edges in opposite directions; up leads
  // nowhere into B, and d only into v.
  ghost predicate Mirrored(d: Graph, up: Graph, v: string, B: set<string>) {
    && (forall u, c {:trigger u in Next(up, c)} ::
          u in Next(up, c) ==> u !in B && (c == v || c !in B ==> c in Next(d, u)))
    && (forall u, c {:trigger c in Next(d, u)} ::
          c in Next(d, u) && u !in B ==> (c == v || c !in B) && u in Next(up, c))
  }

  lemma AroundMirrored(children: Graph, parents: Graph, v: string)
    requires IsInverse(children, parents)
    ensures Mirrored(StraightWays(children, v), Around(children, parents, v), v, DescendantsOf(children, v))
  {
    forall u, c
      ensures u in Next(Around(children, parents, v), c) <==> u !in DescendantsOf(children, v) && c in Next(children, u)
      ensures c in Next(StraightWays(children, v), u) <==>
              (c == v || c !in DescendantsOf(children, v)) && c in Next(children, u)
    {
      AvoidNext(parents, DescendantsOf(children, v), c, u);
      AvoidNext(children, DescendantsOf(children, v) - {v}, u, c);
      InverseEdge(children, parents, u, c);
    }
  }

  lemma MirroredEdge(d: Graph, up: Graph, v: string, B: set<string>, u: string, c: string)
    requires Mirrored(d, up, v, B) && u in Next(up, c) && (c == v || c !in B)
    ensures u !in B && c in Next(d, u)
  {
  }

  lemma {:induction false} UpwardIsStraight(d: Graph, up: Graph, v: string, B: set<string>, u: string, n: nat)
    requires Mirrored(d, up, v, B) && Walk(up, v, u, n)
    ensures Walk(d, u, v, n) && (u == v || u !in B)
    decreases n
  {
    if n > 0 {
      var c := LastStep(up, v, u, n);
      UpwardIsStraight(d, up, v, B, c, n - 1);
      MirroredEdge(d, up, v, B, u, c);
      WalkPrepend(d, u, c, v, n - 1);
    }
  }

  lemma {:induction false} StraightIsUpward(d: Graph, up: Graph, v: string, B: set<string>, u: string, n: nat)
    requires Mirrored(d, up, v, B) && Walk(d, u, v, n) && (u == v || u !in B)
    ensures Reaches(up, v, u)
    decreases n
  {
    if u == v {
      ReachesSelf(up, v);
    } else {
      var w := FirstStep(d, u, v, n);
      StraightIsUpward(d, up, v, B, w, n - 1);
      ReachesStep(up, v, w, u);
    }
  }

  // Exactly what is highlighted: what v leads to, and what leads to v without passing
  // one of those nodes.
  lemma HighlightedExact(children: Graph, parents: Graph, v: string, u: string)
    requires IsInverse(children, parents)
    ensures u in Highlighted(children, parents, v) <==> Reaches(children, v, u) || LeadsStraight(children, u, v)
  {
    BelowMeaning(children, v, u);
    SweptExact(parents, v, DescendantsOf(children, v), u);
    AroundMirrored(children, parents, v);
    WaysMirrored(StraightWays(children, v), Around(children, parents, v), v, DescendantsOf(children, v), u);
  }

  lemma WaysMirrored(d: Graph, up: Graph, v: string, B: set<string>, u: string)
    requires Mirrored(d, up, v, B)
    ensures u !in B ==> (Reaches(up, v, u) <==> Reaches(d, u, v))
  {
    if n: nat :| Walk(up, v, u, n) {
      UpwardIsStraight(d, up, v, B, u, n);
    }
    if n: nat :| Walk(d, u, v, n) && u !in B {
      StraightIsUpward(d, up, v, B, u, n);
    }
  }

  lemma BelowMeaning(children: Graph, v: string, u: string)
    ensures u in DescendantsOf(children, v) <==> Reaches(children, v, u)
  {
    ReachSetExact(children, {v});
  }

  // The edge from p to c enters a cycle through v from a node that v does not lead to.
  ghost predicate Enters(children: Graph, v: string, p: string, c: string) {
    && c in Next(children, p) && !Reaches(children, v, p)
    && Reaches(children, v, c) && Reaches(children, c, v)
  }

  // Whatever has an edge into a cycle through v also leads to v straight.
  ghost predicate CyclesOpen(children: Graph, v: string) {
    forall p, c :: Enters(children, v, p, c) ==> LeadsStraight(children, p, v)
  }

  lemma LitEdge(children: Graph, parents: Graph, v: string, p: string, c: string)
    requires IsInverse(children, parents)
    ensures c in DescendantsOf(children, v) && c in AncestorsOf(parents, v) && p in Next(parents, c) &&
            p !in Highlighted(children, parents, v) <==>
            Enters(children, v, p, c) && !LeadsStraight(children, p, v)
  {
    InverseEdge(children, parents, p, c);
    BelowMeaning(children, v, c);
    AboveMeaning(children, parents, v, c);
    HighlightedExact(children, parents, v, p);
  }

  lemma LitIffOpen(children: Graph, parents: Graph, v: string)
    requires IsInverse(children, parents)
    ensures CyclesLit(children, parents, v) <==> CyclesOpen(children, v)
  {
    if CyclesLit(children, parents, v) {
      forall p, c | Enters(children, v, p, c) ensures LeadsStraight(children, p, v) {
        LitEdge(children, parents, v, p, c);
      }
    } else {
      var c, p :| c in DescendantsOf(children, v) && c in AncestorsOf(parents, v) && p in Next(parents, c)
                  && p !in Highlighted(children, parents, v);
      LitEdge(children, parents, v, p, c);
    }
  }

  lemma BothWaysIsCycle(children: Graph, parents: Graph, v: string, c: string)
    requires IsInverse(children, parents) && c in DescendantsOf(children, v) && c in AncestorsOf(parents, v) && c != v
    ensures OnCycle(children, v)
  {
    AboveMeaning(children, parents, v, c);
    ReachSetExact(children, {v});
    var n: nat :| Walk(children, v, c, n);
    var w := FirstStep(children, v, c, n);
    assert Reaches(children, w, c);
    ReachesTrans(children, w, c, v);
  }

  // A clicked node on no cycle is highlighted with all its ancestors and descendants; so
  // on an acyclic graph every one is.
  lemma CompleteOffCycles(children: Graph, parents: Graph, v: string)
    requires IsInverse(children, parents) && !OnCycle(children, v)
    ensures Highlighted(children, parents, v) == DescendantsOf(children, v) + AncestorsOf(parents, v)
  {
    forall c, p | c in DescendantsOf(children, v) && c in AncestorsOf(parents, v) && p in Next(parents, c)
      ensures p in Highlighted(children, parents, v)
    {
      if c != v {
        BothWaysIsCycle(children, parents, v, c);
      }
      SweptStart(parents, v, DescendantsOf(children, v));
      if p !in DescendantsOf(children, v) {
        SweptStep(parents, v, DescendantsOf(children, v), v, p);
      }
    }
    CompleteIffCyclesLit(children, parents, v);
  }

  // One step down the graph is one drawn edge.
  lemma {:induction false} DrawnStep(edges: seq<Edge>, v: string, w: string)
    ensures w in Next(Down(edges), v) <==> exists i :: 0 <= i < |edges| && edges[i].source == v && edges[i].target == w
  {
    if edges != [] {
      var init, last := edges[..|edges| - 1], edges[|edges| - 1];
      DrawnStep(init, v, w);
      DownNext(init, last, v);
      assert edges == init + [last];
      assert forall i :: 0 <= i < |init| ==> edges[i] == init[i];
    }
  }

  // The highlight of the drawn edges: everything that the clicked node leads to, and what
  // leads to it without passing one of those nodes.
  lemma HighlightExact(edges: seq<Edge>, clicked: string, u: string)
    ensures u in Highlighted(Down(edges), Up(edges), clicked) <==>
            Reaches(Down(edges), clicked, u) || LeadsStraight(Down(edges), u, clicked)
  {
    DownUpInverse(edges);
    HighlightedExact(Down(edges), Up(edges), clicked, u);
  }

  // Every ancestor and descendant is highlighted exactly when each outside parent of a
  // node on a cycle through the clicked one leads to the clicked one straight.
  lemma CompleteIffCyclesOpen(edges: seq<Edge>, clicked: string)
    ensures (forall u :: u in Highlighted(Down(edges), Up(edges), clicked) <==>
                         Reaches(Down(edges), clicked, u) || Reaches(Down(edges), u, clicked)) <==>
            CyclesOpen(Down(edges), clicked)
  {
    var children, parents := Down(edges), Up(edges);
    DownUpInverse(edges);
    LitIffOpen(children, parents, clicked);
    CompleteIffCyclesLit(children, parents, clicked);
    ReachSetExact(children, {clicked});
    forall u ensures u in AncestorsOf(parents, clicked) <==> Reaches(children, u, clicked) {
      AboveMeaning(children, parents, clicked, u);
    }
  }

  lemma DownNext(less: seq<Edge>, e: Edge, v: string)
    ensures Next(Down(less + [e]), v) == Next(Down(less), v) + if e.source == v then [e.target] else []
  {
    assert (less + [e])[..|less|] == less;
    NoEnds(less, v);
    NoEnds(less + [e], v);
  }

  // On a cycle an ancestor can stay dark: p only reaches v through its descendant c.
  lemma DarkAncestor()
    ensures var edges := [Edge("v", "c"), Edge("c", "v"), Edge("p", "c")];
            Reaches(Down(edges), "p", "v") && "p" !in Highlighted(Down(edges), Up(edges), "v")
  {
    DarkOn("v", "c", "p");
  }

  lemma DarkOn(v: string, c: string, p: string)
    requires p != v && p != c && v != c
    ensures var edges := [Edge(v, c), Edge(c, v), Edge(p, c)];
            Reaches(Down(edges), p, v) && p !in Highlighted(Down(edges), Up(edges), v)
  {
    var edges := [Edge(v, c), Edge(c, v), Edge(p, c)];
    forall u ensures Next(Down(edges), u) == if u == v then [c] else if u == c then [v]
                                            else if u == p then [c] else []
    {
      DarkNext(v, c, p, u);
    }
    EntersDark(Down(edges), v, c, p);
    HighlightExact(edges, v, p);
  }

  lemma DarkNext(v: string, c: string, p: string, u: string)
    requires p != v && p != c && v != c
    ensures Next(Down([Edge(v, c), Edge(c, v), Edge(p, c)]), u) ==
            if u == v then [c] else if u == c then [v] else if u == p then [c] else []
  {
    DownNext([], Edge(v, c), u);
    DownNext([Edge(v, c)], Edge(c, v), u);
    DownNext([Edge(v, c), Edge(c, v)], Edge(p, c), u);
    assert [] + [Edge(v, c)] == [Edge(v, c)];
    assert [Edge(v, c)] + [Edge(c, v)] == [Edge(v, c), Edge(c, v)];
    assert [Edge(v, c), Edge(c, v)] + [Edge(p, c)] == [Edge(v, c), Edge(c, v), Edge(p, c)];
  }

  lemma EntersDark(g: Graph, v: string, c: string, p: string)
    requires Next(g, v) == [c] && Next(g, c) == [v] && Next(g, p) == [c] && p != v && p != c && v != c
    ensures Reaches(g, p, v) && !Reaches(g, v, p) && !LeadsStraight(g, p, v)
  {
    ReachesSelf(g, p);
    ReachesStep(g, p, p, c);
    ReachesStep(g, p, c, v);
    ReachesSelf(g, v);
    ReachesStep(g, v, v, c);
    BelowMeaning(g, v, c);
    if Reaches(g, v, p) {
      ClosedReaches(g, {v, c}, v, p);
    }
    assert Closed(StraightWays(g, v), {p}) by {
      AvoidNext(g, DescendantsOf(g, v) - {v}, p, c);
    }
    if LeadsStraight(g, p, v) {
      ClosedReaches(StraightWays(g, v), {p}, p, v);
    }
  }

  // The same for the drawn edges: off cycles the highlight is everything that the clicked
  // node leads to, and everything that leads to it.
  lemma HighlightMeaning(edges: seq<Edge>, clicked: string, u: string)
    requires !OnCycle(Down(edges), clicked)
    ensures u in Highlighted(Down(edges), Up(edges), clicked) <==>
            Reaches(Down(edges), clicked, u) || Reaches(Down(edges), u, clicked)
  {
    DownUpInverse(edges);
    CompleteOffCycles(Down(edges), Up(edges), clicked);
    AboveMeaning(Down(edges), Up(edges), clicked, u);
    ReachSetExact(Down(edges), {clicked});
  }
}
