/**
  Ties in the labelled breadth-first search: when the seeds are queued by ascending rank,
  every vertex gets the label of the lowest rank among its nearest seeds.
 */
module RankedSearch {
  import opened RoleGraph

  // The first position of o in the order.
  function Rank(order: seq<string>, o: string): (r: nat)
    ensures r <= |order| && (r < |order| ==> order[r] == o) && (o in order ==> r < |order|)
    ensures forall i :: 0 <= i < r ==> order[i] != o
  {
    if order == [] || order[0] == o then 0 else 1 + Rank(order[1..], o)
  }

  function RankIn(order: seq<string>): string -> nat {
    o => Rank(order, o)
  }

  lemma SameRank(order: seq<string>, a: string, b: string)
    requires a in order && Rank(order, a) == Rank(order, b)
    ensures a == b
  {
  }

  lemma RankAt(order: seq<string>, i: nat)
    requires NoRepeats(order) && i < |order|
    ensures Rank(order, order[i]) == i
  {
    assert order[i] in order;
  }

  // Distance first, then rank.
  predicate Sooner(d: nat, r: nat, e: nat, q: nat) {
    d < e || (d == e && r <= q)
  }

  ghost predicate Shaped(s: Search) {
    |s.queue| == |s.depth| && s.dist.Keys == s.origin.Keys
  }

  // The queue is sorted, spans one step, and lies behind everything visited.
  ghost predicate Ranked(s: Search, rank: string -> nat)
    requires Shaped(s)
  {
    && (forall i, j :: 0 <= i < j < |s.queue| ==>
          Sooner(s.depth[i], rank(s.queue[i].1), s.depth[j], rank(s.queue[j].1)))
    && (forall i :: 0 <= i < |s.queue| ==>
          Sooner(s.depth[i], rank(s.queue[i].1), s.depth[0] + 1, rank(s.queue[0].1)))
    && (s.queue != [] ==> forall v :: v in s.dist ==>
          Sooner(s.dist[v], rank(s.origin[v]), s.depth[0], rank(s.queue[0].1)))
  }

  ghost predicate Waits(s: Search, rank: string -> nat, w: string, k: nat, r: nat, i: int)
    requires Shaped(s)
  {
    0 <= i < |s.queue| && s.queue[i].0 == w && Sooner(s.depth[i], rank(s.queue[i].1), k, r)
  }

  // w has been visited, or waits in the queue, no later than (k, r).
  ghost predicate RankSeen(s: Search, rank: string -> nat, w: string, k: nat, r: nat)
    requires Shaped(s)
  {
    || (w in s.dist && Sooner(s.dist[w], rank(s.origin[w]), k, r))
    || exists i :: Waits(s, rank, w, k, r, i)
  }

  ghost predicate RankSeenAfter(s: Search, rank: string -> nat, v: string, w: string)
    requires Shaped(s) && v in s.dist
  {
    RankSeen(s, rank, w, s.dist[v] + 1, rank(s.origin[v]))
  }

  ghost predicate RankCovered(g: Graph, seeds: set<string>, s: Search, rank: string -> nat)
    requires Shaped(s)
  {
    && (forall a {:trigger RankSeen(s, rank, a, 0, rank(a))} :: a in seeds ==> RankSeen(s, rank, a, 0, rank(a)))
    && (forall v, w {:trigger RankSeenAfter(s, rank, v, w)} ::
          v in s.dist && w in Next(g, v) ==> RankSeenAfter(s, rank, v, w))
  }

  // No seed reaches v sooner than the one that v is labelled with.
  ghost predicate First(g: Graph, seeds: set<string>, s: Search, rank: string -> nat, v: string)
    requires Shaped(s) && v in s.dist
  {
    forall a, m: nat :: a in seeds && Walk(g, a, v, m) ==> Sooner(s.dist[v], rank(s.origin[v]), m, rank(a))
  }

  ghost predicate RankInv(g: Graph, seeds: set<string>, s: Search, rank: string -> nat) {
    && Shaped(s) && Ranked(s, rank) && RankCovered(g, seeds, s, rank)
    && forall v {:trigger First(g, seeds, s, rank, v)} :: v in s.dist ==> First(g, seeds, s, rank, v)
  }

  lemma FirstAt(g: Graph, seeds: set<string>, s: Search, rank: string -> nat, a: string, v: string, m: nat)
    requires RankInv(g, seeds, s, rank) && v in s.dist && a in seeds && Walk(g, a, v, m)
    ensures Sooner(s.dist[v], rank(s.origin[v]), m, rank(a))
  {
    assert First(g, seeds, s, rank, v);
  }

  lemma StartOrdered(order: seq<string>, rank: string -> nat)
    requires forall i, j :: 0 <= i < j < |order| ==> rank(order[i]) <= rank(order[j])
    ensures Shaped(Start(order)) && Ranked(Start(order), rank)
  {
    var s := Start(order);
    forall i, j | 0 <= i < j < |s.queue|
      ensures Sooner(s.depth[i], rank(s.queue[i].1), s.depth[j], rank(s.queue[j].1))
    {
      assert s.queue[i].1 == order[i] && s.queue[j].1 == order[j];
    }
  }

  lemma StartWaits(order: seq<string>, rank: string -> nat, a: string)
    requires a in order
    ensures RankSeen(Start(order), rank, a, 0, rank(a))
  {
    var i :| 0 <= i < |order| && order[i] == a;
    assert Waits(Start(order), rank, a, 0, rank(a), i);
  }

  lemma RankStart(g: Graph, order: seq<string>, rank: string -> nat)
    requires forall i, j :: 0 <= i < j < |order| ==> rank(order[i]) <= rank(order[j])
    ensures RankInv(g, Elements(order), Start(order), rank)
  {
    StartOrdered(order, rank);
    forall a | a in Elements(order) ensures RankSeen(Start(order), rank, a, 0, rank(a)) {
      StartWaits(order, rank, a);
    }
  }

  // A step that drops or visits the head keeps everything that was seen.
  lemma RankStillSeen(s: Search, t: Search, rank: string -> nat, w: string, k: nat, r: nat)
    requires Shaped(s) && Shaped(t) && s.queue != [] && RankSeen(s, rank, w, k, r)
    requires s.queue[1..] <= t.queue && s.depth[1..] <= t.depth
    requires forall v :: v in s.dist ==> v in t.dist && t.dist[v] == s.dist[v] && t.origin[v] == s.origin[v]
    requires var (v, o) := s.queue[0];
             v in t.dist && Sooner(t.dist[v], rank(t.origin[v]), s.depth[0], rank(o))
    ensures RankSeen(t, rank, w, k, r)
  {
    if i :| Waits(s, rank, w, k, r, i) {
      if i > 0 {
        assert t.queue[i - 1] == s.queue[1..][i - 1] && t.depth[i - 1] == s.depth[1..][i - 1];
        assert Waits(t, rank, w, k, r, i - 1);
      }
    }
  }

  lemma RankSkip(g: Graph, seeds: set<string>, s: Search, rank: string -> nat)
    requires RankInv(g, seeds, s, rank) && s.queue != [] && s.queue[0].0 in s.dist
    ensures RankInv(g, seeds, Skip(s), rank)
  {
    var t := Skip(s);
    forall a | a in seeds ensures RankSeen(t, rank, a, 0, rank(a)) {
      RankStillSeen(s, t, rank, a, 0, rank(a));
    }
    forall v, w | v in t.dist && w in Next(g, v) ensures RankSeenAfter(t, rank, v, w) {
      assert RankSeenAfter(s, rank, v, w);
      RankStillSeen(s, t, rank, w, s.dist[v] + 1, rank(s.origin[v]));
    }
    forall v | v in t.dist ensures First(g, seeds, t, rank, v) {
      assert First(g, seeds, s, rank, v);
    }
  }

  ghost predicate Ahead(s: Search, rank: string -> nat, k: nat, r: nat, i: int)
    requires Shaped(s)
  {
    0 <= i < |s.queue| && Sooner(s.depth[i], rank(s.queue[i].1), k, r)
  }

  // Whatever a seed reaches is visited no later than that, or a queue entry is no later.
  lemma {:induction false} RankFrontier(
      g: Graph, seeds: set<string>, s: Search, rank: string -> nat, a: string, v: string, m: nat)
    requires Shaped(s) && RankCovered(g, seeds, s, rank) && a in seeds && Walk(g, a, v, m)
    ensures (v in s.dist && Sooner(s.dist[v], rank(s.origin[v]), m, rank(a))) ||
            exists i :: Ahead(s, rank, m, rank(a), i)
    decreases m
  {
    if m == 0 {
      assert RankSeen(s, rank, v, 0, rank(v));
      SeenAhead(s, rank, v, 0, rank(v), 0, rank(a));
    } else {
      var c := LastStep(g, a, v, m);
      RankFrontier(g, seeds, s, rank, a, c, m - 1);
      if c in s.dist && Sooner(s.dist[c], rank(s.origin[c]), m - 1, rank(a)) {
        assert RankSeenAfter(s, rank, c, v);
        SeenAhead(s, rank, v, s.dist[c] + 1, rank(s.origin[c]), m, rank(a));
      } else {
        var i :| Ahead(s, rank, m - 1, rank(a), i);
        assert Ahead(s, rank, m, rank(a), i);
      }
    }
  }

  lemma SeenAhead(s: Search, rank: string -> nat, v: string, k: nat, r: nat, m: nat, q: nat)
    requires Shaped(s) && RankSeen(s, rank, v, k, r) && Sooner(k, r, m, q)
    ensures (v in s.dist && Sooner(s.dist[v], rank(s.origin[v]), m, q)) || exists i :: Ahead(s, rank, m, q, i)
  {
    if i :| Waits(s, rank, v, k, r, i) {
      assert Ahead(s, rank, m, q, i);
    }
  }

  lemma RankVisitOrdered(s: Search, rank: string -> nat, pushed: seq<string>)
    requires Shaped(s) && s.queue != [] && Ranked(s, rank) && s.queue[0].0 !in s.dist
    ensures Ranked(Visit(s, pushed), rank)
  {
  }

  lemma RankVisitFirst(g: Graph, seeds: set<string>, s: Search, rank: string -> nat, pushed: seq<string>, u: string)
    requires RankInv(g, seeds, s, rank) && s.queue != [] && s.queue[0].0 !in s.dist
    requires u in Visit(s, pushed).dist
    ensures First(g, seeds, Visit(s, pushed), rank, u)
  {
    var (v, o) := s.queue[0];
    if u == v {
      forall a, m: nat | a in seeds && Walk(g, a, v, m) ensures Sooner(s.depth[0], rank(o), m, rank(a)) {
        RankFrontier(g, seeds, s, rank, a, v, m);
        var i :| Ahead(s, rank, m, rank(a), i);
      }
    } else {
      assert First(g, seeds, s, rank, u);
    }
  }

  lemma RankVisitKeeps(s: Search, rank: string -> nat, pushed: seq<string>, w: string, k: nat, r: nat)
    requires Shaped(s) && s.queue != [] && s.queue[0].0 !in s.dist && RankSeen(s, rank, w, k, r)
    ensures RankSeen(Visit(s, pushed), rank, w, k, r)
  {
    RankStillSeen(s, Visit(s, pushed), rank, w, k, r);
  }

  lemma RankVisitAfter(
      g: Graph, seeds: set<string>, s: Search, rank: string -> nat, pushed: seq<string>, u: string, w: string)
    requires Shaped(s) && s.queue != [] && RankCovered(g, seeds, s, rank)
    requires s.queue[0].0 !in s.dist && u in s.dist && w in Next(g, u)
    ensures RankSeenAfter(Visit(s, pushed), rank, u, w)
  {
    assert RankSeenAfter(s, rank, u, w);
    RankVisitKeeps(s, rank, pushed, w, s.dist[u] + 1, rank(s.origin[u]));
  }

  lemma RankVisitCovered(g: Graph, seeds: set<string>, s: Search, rank: string -> nat, pushed: seq<string>)
    requires Shaped(s) && s.queue != [] && Ranked(s, rank) && RankCovered(g, seeds, s, rank)
    requires s.queue[0].0 !in s.dist && Expands(g, s, pushed)
    ensures RankCovered(g, seeds, Visit(s, pushed), rank)
  {
    forall a | a in seeds ensures RankSeen(Visit(s, pushed), rank, a, 0, rank(a)) {
      RankVisitKeeps(s, rank, pushed, a, 0, rank(a));
    }
    forall u, w | u in Visit(s, pushed).dist && w in Next(g, u)
      ensures RankSeenAfter(Visit(s, pushed), rank, u, w)
    {
      if u != s.queue[0].0 {
        RankVisitAfter(g, seeds, s, rank, pushed, u, w);
      } else {
        RankHeadCovered(g, s, rank, pushed, w);
      }
    }
  }

  lemma RankHeadCovered(g: Graph, s: Search, rank: string -> nat, pushed: seq<string>, w: string)
    requires Shaped(s) && s.queue != [] && Ranked(s, rank) && s.queue[0].0 !in s.dist
    requires Expands(g, s, pushed) && w in Next(g, s.queue[0].0)
    ensures RankSeenAfter(Visit(s, pushed), rank, s.queue[0].0, w)
  {
    if w in pushed {
      PushedWaits(s, rank, pushed, w);
    }
  }

  lemma PushedWaits(s: Search, rank: string -> nat, pushed: seq<string>, w: string)
    requires Shaped(s) && s.queue != [] && w in pushed
    ensures RankSeen(Visit(s, pushed), rank, w, s.depth[0] + 1, rank(s.queue[0].1))
  {
    var t, n := Visit(s, pushed), |s.queue| - 1;
    var j :| 0 <= j < |pushed| && pushed[j] == w;
    assert t.queue[n + j] == (w, s.queue[0].1) && t.depth[n + j] == s.depth[0] + 1;
    assert Waits(t, rank, w, s.depth[0] + 1, rank(s.queue[0].1), n + j);
  }

  lemma RankVisit(g: Graph, seeds: set<string>, s: Search, rank: string -> nat, pushed: seq<string>)
    requires RankInv(g, seeds, s, rank) && s.queue != [] && s.queue[0].0 !in s.dist && Expands(g, s, pushed)
    ensures RankInv(g, seeds, Visit(s, pushed), rank)
  {
    RankVisitOrdered(s, rank, pushed);
    RankVisitCovered(g, seeds, s, rank, pushed);
    forall u | u in Visit(s, pushed).dist ensures First(g, seeds, Visit(s, pushed), rank, u) {
      RankVisitFirst(g, seeds, s, rank, pushed, u);
    }
  }
}
