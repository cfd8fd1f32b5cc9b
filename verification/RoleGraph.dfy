/**
  Finite directed graphs as adjacency maps, walks in them, and the theory of the
  labelled breadth-first search that the role code repeats: a FIFO queue of
  (role, origin) pairs whose head is dropped when already visited, and otherwise
  visited and replaced by its neighbours at the tail.
 */
module RoleGraph {

  // {vertex: [neighbours]}; a vertex without an entry has no neighbours.
  type Graph = map<string, seq<string>>

  // dict.get(v, [])
  function Next(g: Graph, v: string): seq<string> {
    if v in g then g[v] else []
  }

  ghost predicate Walk(g: Graph, a: string, b: string, n: nat)
    decreases n
  {
    if n == 0 then a == b else exists c :: Walk(g, a, c, n - 1) && b in Next(g, c)
  }

  ghost predicate Reaches(g: Graph, a: string, b: string) {
    exists n: nat :: Walk(g, a, b, n)
  }

  // b is reached from some vertex of S.
  ghost predicate ReachedFrom(g: Graph, S: set<string>, b: string) {
    exists a :: a in S && Reaches(g, a, b)
  }

  ghost predicate Closed(g: Graph, S: set<string>) {
    forall v, w :: v in S && w in Next(g, v) ==> w in S
  }

  function Elements(vs: seq<string>): set<string> {
    set v | v in vs
  }

  lemma ElementsAppend(vs: seq<string>, v: string)
    ensures Elements(vs + [v]) == Elements(vs) + {v}
  {
    assert (vs + [v])[|vs|] == v;
    forall w | w in Elements(vs) ensures w in Elements(vs + [v]) {
      var i :| 0 <= i < |vs| && vs[i] == w;
      assert (vs + [v])[i] == w;
    }
  }

  lemma ElementsTake(vs: seq<string>, i: nat)
    requires i < |vs|
    ensures Elements(vs[..i + 1]) == Elements(vs[..i]) + {vs[i]}
  {
    assert vs[..i + 1] == vs[..i] + [vs[i]];
    ElementsAppend(vs[..i], vs[i]);
  }

  // Every vertex the search can ever meet.
  function Universe(g: Graph, seeds: set<string>): set<string> {
    seeds + g.Keys + set v, w | v in g && w in g[v] :: w
  }

  lemma WalkStep(g: Graph, a: string, b: string, c: string, n: nat)
    requires Walk(g, a, b, n) && c in Next(g, b)
    ensures Walk(g, a, c, n + 1)
  {
  }

  lemma LastStep(g: Graph, a: string, b: string, n: nat) returns (c: string)
    requires n > 0 && Walk(g, a, b, n)
    ensures Walk(g, a, c, n - 1) && b in Next(g, c)
  {
    c :| Walk(g, a, c, n - 1) && b in Next(g, c);
  }

  lemma ReachesSelf(g: Graph, a: string)
    ensures Reaches(g, a, a)
  {
    assert Walk(g, a, a, 0);
  }

  lemma ReachesStep(g: Graph, a: string, b: string, c: string)
    requires Reaches(g, a, b) && c in Next(g, b)
    ensures Reaches(g, a, c)
  {
    var n: nat :| Walk(g, a, b, n);
    WalkStep(g, a, b, c, n);
  }

  lemma {:induction false} WalkConcat(g: Graph, a: string, b: string, c: string, m: nat, n: nat)
    requires Walk(g, a, b, m) && Walk(g, b, c, n)
    ensures Walk(g, a, c, m + n)
    decreases n
  {
    if n > 0 {
      var k := m + (n - 1);
      var d := LastStep(g, b, c, n);
      WalkConcat(g, a, b, d, m, n - 1);
      WalkStep(g, a, d, c, k);
    }
  }

  lemma WalkPrepend(g: Graph, a: string, b: string, c: string, n: nat)
    requires b in Next(g, a) && Walk(g, b, c, n)
    ensures Walk(g, a, c, n + 1)
  {
    assert Walk(g, a, a, 0);
    WalkStep(g, a, a, b, 0);
    WalkConcat(g, a, b, c, 1, n);
  }

  lemma ReachesTrans(g: Graph, a: string, b: string, c: string)
    requires Reaches(g, a, b) && Reaches(g, b, c)
    ensures Reaches(g, a, c)
  {
    var m: nat :| Walk(g, a, b, m);
    var n: nat :| Walk(g, b, c, n);
    WalkConcat(g, a, b, c, m, n);
  }

  // A closed set containing the start contains everything reached.
  lemma {:induction false} ClosedWalk(g: Graph, S: set<string>, a: string, b: string, n: nat)
    requires Closed(g, S) && a in S && Walk(g, a, b, n)
    ensures b in S
    decreases n
  {
    if n > 0 {
      var c :| Walk(g, a, c, n - 1) && b in Next(g, c);
      ClosedWalk(g, S, a, c, n - 1);
    }
  }

  lemma ClosedReaches(g: Graph, S: set<string>, a: string, b: string)
    requires Closed(g, S) && a in S && Reaches(g, a, b)
    ensures b in S
  {
    var n: nat :| Walk(g, a, b, n);
    ClosedWalk(g, S, a, b, n);
  }

  // A closed set whose members are all reached from S, and which contains S, is
  // exactly the set of vertices reached from S.
  lemma ClosureIsReach(g: Graph, S: set<string>, V: set<string>)
    requires S <= V && Closed(g, V)
    requires forall v :: v in V ==> ReachedFrom(g, S, v)
    ensures forall v :: v in V <==> ReachedFrom(g, S, v)
  {
    forall v | ReachedFrom(g, S, v) ensures v in V {
      var a :| a in S && Reaches(g, a, v);
      ClosedReaches(g, V, a, v);
    }
  }

  ghost predicate NoRepeats(vs: seq<string>) {
    forall i, j :: 0 <= i < j < |vs| ==> vs[i] != vs[j]
  }

  // The vertices of ps that are not visited yet, in order.
  function Fresh(ps: seq<string>, visited: set<string>): (r: seq<string>)
    ensures forall p :: p in r <==> p in ps && p !in visited
  {
    if ps == [] then []
    else
      var n := |ps| - 1;
      assert ps == ps[..n] + [ps[n]];
      Fresh(ps[..n], visited) + if ps[n] in visited then [] else [ps[n]]
  }

  lemma FreshNext(ps: seq<string>, visited: set<string>, i: nat)
    requires i < |ps|
    ensures Fresh(ps[..i + 1], visited) == Fresh(ps[..i], visited) + if ps[i] in visited then [] else [ps[i]]
  {
    assert ps[..i + 1][..i] == ps[..i];
  }

  // ---------------------------------------------------------------------------
  // Labelled breadth-first search

  // Ghost picture of one moment of the search. depth[i] is the length of the walk
  // behind queue[i]; dist and origin describe the visited vertices.
  datatype Search = Search(
    queue: seq<(string, string)>,
    depth: seq<nat>,
    dist: map<string, nat>,
    origin: map<string, string>)

  function Tag(vs: seq<string>, origin: string): (r: seq<(string, string)>)
    ensures |r| == |vs| && forall i :: 0 <= i < |vs| ==> r[i] == (vs[i], origin)
  {
    seq(|vs|, i requires 0 <= i < |vs| => (vs[i], origin))
  }

  function SelfTag(vs: seq<string>): (r: seq<(string, string)>)
    ensures |r| == |vs| && forall i :: 0 <= i < |vs| ==> r[i] == (vs[i], vs[i])
  {
    seq(|vs|, i requires 0 <= i < |vs| => (vs[i], vs[i]))
  }

  function Start(seeds: seq<string>): Search {
    Search(SelfTag(seeds), seq(|seeds|, i => 0), map[], map[])
  }

  // The head was visited before: drop it.
  function Skip(s: Search): Search
    requires |s.queue| == |s.depth| > 0
  {
    s.(queue := s.queue[1..], depth := s.depth[1..])
  }

  // Visit the head and append `pushed` under its origin.
  function Visit(s: Search, pushed: seq<string>): (t: Search)
    requires |s.queue| == |s.depth| > 0
    ensures t.dist.Keys == s.dist.Keys + {s.queue[0].0}
  {
    var (v, o) := s.queue[0];
    Search(s.queue[1..] + Tag(pushed, o), s.depth[1..] + seq(|pushed|, i => s.depth[0] + 1),
           s.dist[v := s.depth[0]], s.origin[v := o])
  }

  // queue[i] is backed by a walk of length depth[i] from its origin.
  ghost predicate Backed(g: Graph, seeds: set<string>, s: Search, i: int)
    requires |s.queue| == |s.depth| && 0 <= i < |s.queue|
  {
    s.queue[i].1 in seeds && Walk(g, s.queue[i].1, s.queue[i].0, s.depth[i])
  }

  // The visited vertex v is backed by a walk of length dist[v] from its origin.
  ghost predicate Labelled(g: Graph, seeds: set<string>, s: Search, v: string)
    requires s.dist.Keys == s.origin.Keys && v in s.dist
  {
    s.origin[v] in seeds && Walk(g, s.origin[v], v, s.dist[v])
  }

  ghost predicate Sound(g: Graph, seeds: set<string>, s: Search) {
    && |s.queue| == |s.depth|
    && s.dist.Keys == s.origin.Keys
    && (forall i :: 0 <= i < |s.queue| ==> Backed(g, seeds, s, i))
    && (forall v {:trigger Labelled(g, seeds, s, v)} :: v in s.dist ==> Labelled(g, seeds, s, v))
  }

  ghost predicate Ordered(s: Search)
    requires |s.queue| == |s.depth|
  {
    && (forall i, j :: 0 <= i < j < |s.depth| ==> s.depth[i] <= s.depth[j])
    && (forall i :: 0 <= i < |s.depth| ==> s.depth[i] <= s.depth[0] + 1)
    && (s.depth != [] ==> forall v :: v in s.dist ==> s.dist[v] <= s.depth[0])
  }

  // w has been visited, or waits in the queue, at depth at most k.
  ghost predicate Seen(s: Search, w: string, k: nat)
    requires |s.queue| == |s.depth|
  {
    || (w in s.dist && s.dist[w] <= k)
    || exists i :: 0 <= i < |s.queue| && s.queue[i].0 == w && s.depth[i] <= k
  }

  ghost predicate SeenAfter(s: Search, v: string, w: string)
    requires |s.queue| == |s.depth| && v in s.dist
  {
    Seen(s, w, s.dist[v] + 1)
  }

  ghost predicate Covered(g: Graph, seeds: set<string>, s: Search)
    requires |s.queue| == |s.depth|
  {
    && (forall a {:trigger Seen(s, a, 0)} :: a in seeds ==> Seen(s, a, 0))
    && (forall v, w {:trigger SeenAfter(s, v, w)} :: v in s.dist && w in Next(g, v) ==> SeenAfter(s, v, w))
  }

  // No walk from a seed to the visited vertex v is shorter than dist[v].
  ghost predicate Shortest(g: Graph, seeds: set<string>, s: Search, v: string)
    requires v in s.dist
  {
    forall a, m: nat :: a in seeds && Walk(g, a, v, m) ==> s.dist[v] <= m
  }

  ghost predicate Minimal(g: Graph, seeds: set<string>, s: Search) {
    forall v {:trigger Shortest(g, seeds, s, v)} :: v in s.dist ==> Shortest(g, seeds, s, v)
  }

  ghost predicate Inv(g: Graph, seeds: set<string>, s: Search) {
    Sound(g, seeds, s) && Ordered(s) && Covered(g, seeds, s) && Minimal(g, seeds, s)
  }

  lemma StartInv(g: Graph, seeds: seq<string>)
    ensures Inv(g, Elements(seeds), Start(seeds))
  {
    var s := Start(seeds);
    forall a | a in seeds ensures Seen(s, a, 0) {
      var i :| 0 <= i < |seeds| && seeds[i] == a;
      assert s.queue[i].0 == a;
    }
  }

  // A step that drops or visits the head keeps everything that was seen, if the head
  // itself is visited afterwards no deeper than it waited.
  lemma StillSeen(s: Search, t: Search, w: string, k: nat)
    requires |s.queue| == |s.depth| > 0 && |t.queue| == |t.depth| && Ordered(s)
    requires s.queue[1..] <= t.queue && s.depth[1..] <= t.depth
    requires forall v :: v in s.dist ==> v in t.dist && t.dist[v] <= s.dist[v]
    requires s.queue[0].0 in t.dist && t.dist[s.queue[0].0] <= s.depth[0]
    requires Seen(s, w, k)
    ensures Seen(t, w, k)
  {
    if !(w in s.dist && s.dist[w] <= k) {
      var i :| 0 <= i < |s.queue| && s.queue[i].0 == w && s.depth[i] <= k;
      if i > 0 {
        assert t.queue[i - 1] == s.queue[1..][i - 1] && t.depth[i - 1] == s.depth[1..][i - 1];
      }
    }
  }

  lemma SkipInv(g: Graph, seeds: set<string>, s: Search)
    requires Inv(g, seeds, s) && s.queue != [] && s.queue[0].0 in s.dist
    ensures Inv(g, seeds, Skip(s))
  {
    var t := Skip(s);
    forall i | 0 <= i < |t.queue| ensures Backed(g, seeds, t, i) {
      assert Backed(g, seeds, s, i + 1);
    }
    forall v | v in t.dist ensures Labelled(g, seeds, t, v) && Shortest(g, seeds, t, v) {
      assert Labelled(g, seeds, s, v) && Shortest(g, seeds, s, v);
    }
    forall a | a in seeds ensures Seen(t, a, 0) {
      StillSeen(s, t, a, 0);
    }
    forall v, w | v in t.dist && w in Next(g, v) ensures SeenAfter(t, v, w) {
      assert SeenAfter(s, v, w);
      StillSeen(s, t, w, s.dist[v] + 1);
    }
  }

  // Whatever is still to be found lies behind a queue entry that is no deeper.
  lemma {:induction false} Frontier(g: Graph, seeds: set<string>, s: Search, a: string, v: string, m: nat)
    requires |s.queue| == |s.depth| && Covered(g, seeds, s)
    requires a in seeds && Walk(g, a, v, m)
    ensures (v in s.dist && s.dist[v] <= m) || exists i :: 0 <= i < |s.depth| && s.depth[i] <= m
    decreases m
  {
    if m == 0 {
      assert Seen(s, v, 0);
    } else {
      var c :| Walk(g, a, c, m - 1) && v in Next(g, c);
      Frontier(g, seeds, s, a, c, m - 1);
      if c in s.dist && s.dist[c] <= m - 1 {
        assert SeenAfter(s, c, v);
      }
    }
  }

  // `pushed` may contain any neighbours of the head, as long as every neighbour
  // not yet visited is among them.
  ghost predicate Expands(g: Graph, s: Search, pushed: seq<string>)
    requires s.queue != []
  {
    && (forall w :: w in pushed ==> w in Next(g, s.queue[0].0))
    && (forall w :: w in Next(g, s.queue[0].0) ==> w in pushed || w in s.dist || w == s.queue[0].0)
  }

  lemma ExpandsAll(g: Graph, s: Search, pushed: seq<string>)
    requires s.queue != []
    requires forall w :: w in pushed <==> w in Next(g, s.queue[0].0) && w !in s.dist.Keys + {s.queue[0].0}
    ensures Expands(g, s, pushed)
  {
  }

  lemma VisitSound(g: Graph, seeds: set<string>, s: Search, pushed: seq<string>)
    requires Sound(g, seeds, s) && s.queue != [] && Expands(g, s, pushed)
    ensures Sound(g, seeds, Visit(s, pushed))
  {
    var (v, o) := s.queue[0];
    var t := Visit(s, pushed);
    var n := |s.queue| - 1;
    assert Backed(g, seeds, s, 0);
    forall i | 0 <= i < |t.queue| ensures Backed(g, seeds, t, i) {
      if i < n {
        assert Backed(g, seeds, s, i + 1);
      } else {
        assert t.queue[i] == (pushed[i - n], o);
        WalkStep(g, o, v, pushed[i - n], s.depth[0]);
      }
    }
    forall u | u in t.dist ensures Labelled(g, seeds, t, u) {
      if u != v {
        assert Labelled(g, seeds, s, u);
      }
    }
  }

  lemma VisitOrdered(s: Search, pushed: seq<string>)
    requires |s.queue| == |s.depth| > 0 && Ordered(s)
    ensures Ordered(Visit(s, pushed))
  {
  }

  lemma VisitMinimal(g: Graph, seeds: set<string>, s: Search, pushed: seq<string>)
    requires Inv(g, seeds, s) && s.queue != [] && s.queue[0].0 !in s.dist
    ensures Minimal(g, seeds, Visit(s, pushed))
  {
    var (v, o) := s.queue[0];
    var t := Visit(s, pushed);
    forall a, m: nat | a in seeds && Walk(g, a, v, m) ensures s.depth[0] <= m {
      Frontier(g, seeds, s, a, v, m);
    }
    forall u | u in t.dist ensures Shortest(g, seeds, t, u) {
      if u != v {
        assert Shortest(g, seeds, s, u);
      }
    }
  }

  lemma VisitCovered(g: Graph, seeds: set<string>, s: Search, pushed: seq<string>)
    requires |s.queue| == |s.depth| > 0 && Ordered(s) && Covered(g, seeds, s)
    requires s.queue[0].0 !in s.dist && Expands(g, s, pushed)
    ensures Covered(g, seeds, Visit(s, pushed))
  {
    var (v, o) := s.queue[0];
    var t := Visit(s, pushed);
    var n := |s.queue| - 1;
    forall a | a in seeds ensures Seen(t, a, 0) {
      StillSeen(s, t, a, 0);
    }
    forall u, w | u in t.dist && w in Next(g, u) ensures SeenAfter(t, u, w) {
      if u != v {
        assert SeenAfter(s, u, w);
        StillSeen(s, t, w, s.dist[u] + 1);
      } else if w in pushed {
        var j :| 0 <= j < |pushed| && pushed[j] == w;
        assert t.queue[n + j].0 == w && t.depth[n + j] == s.depth[0] + 1;
      }
    }
  }

  lemma VisitInv(g: Graph, seeds: set<string>, s: Search, pushed: seq<string>)
    requires Inv(g, seeds, s) && s.queue != [] && s.queue[0].0 !in s.dist
    requires Expands(g, s, pushed)
    ensures Inv(g, seeds, Visit(s, pushed))
  {
    VisitSound(g, seeds, s, pushed);
    VisitOrdered(s, pushed);
    VisitCovered(g, seeds, s, pushed);
    VisitMinimal(g, seeds, s, pushed);
  }

  ghost function ReachSet(g: Graph, seeds: set<string>): set<string> {
    set v | v in Universe(g, seeds) && ReachedFrom(g, seeds, v)
  }

  lemma ReachSetExact(g: Graph, seeds: set<string>)
    ensures forall v :: v in ReachSet(g, seeds) <==> ReachedFrom(g, seeds, v)
  {
    forall v | ReachedFrom(g, seeds, v) ensures v in Universe(g, seeds) {
      var a :| a in seeds && Reaches(g, a, v);
      var m: nat :| Walk(g, a, v, m);
      WalkInUniverse(g, seeds, a, v, m);
    }
  }

  // Only reachable vertices are visited, so a search that visited as many as there
  // are has visited them all.
  lemma VisitedReachable(g: Graph, seeds: set<string>, s: Search)
    requires Sound(g, seeds, s)
    ensures s.dist.Keys <= ReachSet(g, seeds)
    ensures |s.dist| <= |ReachSet(g, seeds)|
    ensures |s.dist| == |ReachSet(g, seeds)| ==> s.dist.Keys == ReachSet(g, seeds)
  {
    ReachSetExact(g, seeds);
    forall v | v in s.dist ensures ReachedFrom(g, seeds, v) {
      assert Labelled(g, seeds, s, v);
    }
    SubsetSize(s.dist.Keys, ReachSet(g, seeds));
  }

  lemma OneMore(visited: set<string>, v: string)
    requires v !in visited
    ensures |visited + {v}| == |visited| + 1
  {
  }

  lemma SubsetSize(a: set<string>, b: set<string>)
    requires a <= b
    ensures |a| <= |b| && (|a| == |b| ==> a == b)
  {
    assert b == a + (b - a);
  }

  // The queue ran empty: exactly the reachable vertices were visited.
  lemma Exhausted(g: Graph, seeds: set<string>, s: Search)
    requires Inv(g, seeds, s) && s.queue == []
    ensures forall v :: v in s.dist <==> ReachedFrom(g, seeds, v)
  {
    forall v | ReachedFrom(g, seeds, v) ensures v in s.dist {
      var a :| a in seeds && Reaches(g, a, v);
      var m: nat :| Walk(g, a, v, m);
      Frontier(g, seeds, s, a, v, m);
    }
    forall v | v in s.dist ensures ReachedFrom(g, seeds, v) {
      assert Labelled(g, seeds, s, v);
    }
  }

  // At any moment the visited vertices are the nearest ones: whatever is still
  // missing is no nearer to the seeds than anything visited.
  lemma NearestFirst(g: Graph, seeds: set<string>, s: Search, v: string, a: string, w: string, m: nat)
    requires Inv(g, seeds, s)
    requires v in s.dist && w !in s.dist && a in seeds && Walk(g, a, w, m)
    ensures s.dist[v] <= m
  {
    Frontier(g, seeds, s, a, w, m);
  }

  // Everything the search holds belongs to the finite universe.
  lemma {:induction false} WalkInUniverse(g: Graph, seeds: set<string>, a: string, v: string, m: nat)
    requires a in seeds && Walk(g, a, v, m)
    ensures v in Universe(g, seeds)
    decreases m
  {
    if m > 0 {
      var c :| Walk(g, a, c, m - 1) && v in Next(g, c);
      assert c in g && v in g[c];
    }
  }

  lemma VisitedInUniverse(g: Graph, seeds: set<string>, s: Search)
    requires Sound(g, seeds, s)
    ensures s.dist.Keys <= Universe(g, seeds)
    ensures forall i :: 0 <= i < |s.queue| ==> s.queue[i].0 in Universe(g, seeds)
  {
    forall v | v in s.dist ensures v in Universe(g, seeds) {
      assert Labelled(g, seeds, s, v);
      WalkInUniverse(g, seeds, s.origin[v], v, s.dist[v]);
    }
    forall i | 0 <= i < |s.queue| ensures s.queue[i].0 in Universe(g, seeds) {
      assert Backed(g, seeds, s, i);
      WalkInUniverse(g, seeds, s.queue[i].1, s.queue[i].0, s.depth[i]);
    }
  }

  // How many vertices the search could still visit.
  ghost function Left(g: Graph, seeds: set<string>, visited: set<string>): nat {
    |Universe(g, seeds) - visited|
  }

  // Visiting the head leaves strictly fewer.
  lemma VisitLeft(g: Graph, seeds: set<string>, s: Search)
    requires Sound(g, seeds, s) && s.queue != [] && s.queue[0].0 !in s.dist
    ensures Left(g, seeds, s.dist.Keys + {s.queue[0].0}) < Left(g, seeds, s.dist.Keys)
  {
    VisitedInUniverse(g, seeds, s);
    var all := Universe(g, seeds);
    var v := s.queue[0].0;
    assert all - s.dist.Keys == (all - (s.dist.Keys + {v})) + {v};
  }

  // ---------------------------------------------------------------------------
  // What a finished or capped search has found

  // o is a seed at minimum distance from v.
  ghost predicate NearestSeed(g: Graph, seeds: set<string>, v: string, o: string) {
    exists n: nat :: o in seeds && Walk(g, o, v, n)
                     && forall a, m: nat :: a in seeds && Walk(g, a, v, m) ==> n <= m
  }

  // v is no farther from the seeds than w.
  ghost predicate NoFarther(g: Graph, seeds: set<string>, v: string, w: string) {
    forall a, m: nat :: a in seeds && Walk(g, a, w, m) ==>
      exists b, n: nat :: b in seeds && Walk(g, b, v, n) && n <= m
  }

  // Nearer vertices come first.
  ghost predicate ByDistance(g: Graph, seeds: set<string>, order: seq<string>) {
    forall i, j :: 0 <= i < j < |order| ==> NoFarther(g, seeds, order[i], order[j])
  }

  lemma ByDistanceNext(g: Graph, seeds: set<string>, order: seq<string>, v: string)
    requires ByDistance(g, seeds, order) && forall u :: u in order ==> NoFarther(g, seeds, u, v)
    ensures ByDistance(g, seeds, order + [v])
  {
    forall i, j | 0 <= i < j < |order| + 1 ensures NoFarther(g, seeds, (order + [v])[i], (order + [v])[j]) {
      assert order[i] in order;
      if j < |order| {
        assert NoFarther(g, seeds, order[i], order[j]);
      }
    }
  }

  function Min(a: nat, b: nat): nat {
    if a <= b then a else b
  }

  // As many reachable vertices as the cap allows, the nearest ones, each with a seed at
  // minimum distance as its origin.
  ghost predicate NearestChain(g: Graph, seeds: set<string>, cap: nat, origin: map<string, string>) {
    && origin.Keys <= ReachSet(g, seeds)
    && |origin| == Min(cap, |ReachSet(g, seeds)|)
    && (forall v :: v in origin ==> NearestSeed(g, seeds, v, origin[v]))
    && (forall v, w :: v in origin && w in ReachSet(g, seeds) && w !in origin ==> NoFarther(g, seeds, v, w))
  }

  lemma SearchOrigins(g: Graph, seeds: set<string>, s: Search, v: string)
    requires Inv(g, seeds, s) && v in s.dist
    ensures NearestSeed(g, seeds, v, s.origin[v])
  {
    assert Labelled(g, seeds, s, v) && Shortest(g, seeds, s, v);
  }

  lemma SearchNearest(g: Graph, seeds: set<string>, s: Search, v: string, w: string)
    requires Inv(g, seeds, s) && v in s.dist && w !in s.dist
    ensures NoFarther(g, seeds, v, w)
  {
    assert Labelled(g, seeds, s, v);
    forall a, m: nat | a in seeds && Walk(g, a, w, m) ensures s.dist[v] <= m {
      NearestFirst(g, seeds, s, v, a, w, m);
    }
  }

  lemma SearchChain(g: Graph, seeds: set<string>, s: Search, cap: nat)
    requires Inv(g, seeds, s) && |s.dist| <= cap && (s.queue == [] || |s.dist| == cap)
    ensures NearestChain(g, seeds, cap, s.origin)
  {
    VisitedReachable(g, seeds, s);
    assert |s.origin| == |s.origin.Keys| == |s.dist.Keys| == |s.dist|;
    if s.queue == [] {
      Exhausted(g, seeds, s);
      ReachSetExact(g, seeds);
      assert s.dist.Keys == ReachSet(g, seeds);
    }
    forall v | v in s.origin ensures NearestSeed(g, seeds, v, s.origin[v]) {
      SearchOrigins(g, seeds, s, v);
    }
    forall v, w | v in s.origin && w !in s.origin ensures NoFarther(g, seeds, v, w) {
      SearchNearest(g, seeds, s, v, w);
    }
  }
}
