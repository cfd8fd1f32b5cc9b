/**
  The upward search that starts at the parents of one role and never comes back to the
  role itself: it sees the role graph with that role's own edges cut off.
 */
module RoleAncestry {
  import opened RoleGraph

  function Pruned(g: Graph, role: string): Graph {
    g[role := []]
  }

  // The roles above `role`, other than itself.
  ghost function Ancestors(g: Graph, role: string): set<string> {
    ReachSet(g, Elements(Next(g, role))) - {role}
  }

  // origin holds as many ancestors as the cap allows, the nearest ones, each with one
  // of the role's parents at minimum distance from it.
  ghost predicate AncestorChain(g: Graph, role: string, cap: nat, origin: map<string, string>) {
    var parents := Elements(Next(g, role));
    && origin.Keys <= Ancestors(g, role)
    && |origin| == Min(cap, |Ancestors(g, role)|)
    && (forall v :: v in origin ==> origin[v] != role && NearestSeed(g, parents, v, origin[v]))
    && (forall v, w :: v in origin && w in Ancestors(g, role) && w !in origin ==> NoFarther(g, parents, v, w))
  }

  lemma {:induction false} UncutWalk(g: Graph, role: string, a: string, v: string, n: nat)
    requires Walk(Pruned(g, role), a, v, n)
    ensures Walk(g, a, v, n)
    decreases n
  {
    if n > 0 {
      var c :| Walk(Pruned(g, role), a, c, n - 1) && v in Next(Pruned(g, role), c);
      UncutWalk(g, role, a, c, n - 1);
      WalkStep(g, a, c, v, n - 1);
    }
  }

  // A walk through the role can be replaced by a shorter one from another parent.
  lemma {:induction false} CutWalk(g: Graph, role: string, a: string, v: string, n: nat)
    returns (b: string, m: nat)
    requires a in Next(g, role) && v != role && Walk(g, a, v, n)
    ensures b in Next(g, role) && m <= n && Walk(Pruned(g, role), b, v, m)
    decreases n
  {
    if n == 0 {
      b, m := a, 0;
    } else {
      var c :| Walk(g, a, c, n - 1) && v in Next(g, c);
      if c == role {
        b, m := v, 0;
      } else {
        b, m := CutWalk(g, role, a, c, n - 1);
        WalkStep(Pruned(g, role), b, c, v, m);
        m := m + 1;
      }
    }
  }

  lemma {:induction false} CutStays(g: Graph, role: string, v: string, n: nat)
    requires Walk(Pruned(g, role), role, v, n)
    ensures v == role
    decreases n
  {
    if n > 0 {
      var c :| Walk(Pruned(g, role), role, c, n - 1) && v in Next(Pruned(g, role), c);
      CutStays(g, role, c, n - 1);
    }
  }

  lemma CutReach(g: Graph, role: string)
    ensures ReachSet(Pruned(g, role), Elements(Next(g, role))) - {role} == Ancestors(g, role)
  {
    var parents := Elements(Next(g, role));
    ReachSetExact(g, parents);
    ReachSetExact(Pruned(g, role), parents);
    forall v | v != role
      ensures ReachedFrom(g, parents, v) <==> ReachedFrom(Pruned(g, role), parents, v)
    {
      if a :| a in parents && Reaches(g, a, v) {
        var n: nat :| Walk(g, a, v, n);
        var b, m := CutWalk(g, role, a, v, n);
        assert Reaches(Pruned(g, role), b, v);
      }
      if a :| a in parents && Reaches(Pruned(g, role), a, v) {
        var n: nat :| Walk(Pruned(g, role), a, v, n);
        UncutWalk(g, role, a, v, n);
      }
    }
  }

  lemma CutNearest(g: Graph, role: string, v: string, o: string)
    requires v != role && NearestSeed(Pruned(g, role), Elements(Next(g, role)), v, o)
    ensures o != role && NearestSeed(g, Elements(Next(g, role)), v, o)
  {
    var parents := Elements(Next(g, role));
    var n: nat :| o in parents && Walk(Pruned(g, role), o, v, n)
                  && forall a, m: nat :: a in parents && Walk(Pruned(g, role), a, v, m) ==> n <= m;
    if o == role {
      CutStays(g, role, v, n);
    }
    UncutWalk(g, role, o, v, n);
    forall a, m: nat | a in parents && Walk(g, a, v, m) ensures n <= m {
      var b, k := CutWalk(g, role, a, v, m);
    }
  }

  lemma CutNoFarther(g: Graph, role: string, v: string, w: string)
    requires w != role && NoFarther(Pruned(g, role), Elements(Next(g, role)), v, w)
    ensures NoFarther(g, Elements(Next(g, role)), v, w)
  {
    var parents := Elements(Next(g, role));
    forall a, m: nat | a in parents && Walk(g, a, w, m)
      ensures exists b, n: nat :: b in parents && Walk(g, b, v, n) && n <= m
    {
      var a', m' := CutWalk(g, role, a, w, m);
      var b, n: nat :| b in parents && Walk(Pruned(g, role), b, v, n) && n <= m';
      UncutWalk(g, role, b, v, n);
    }
  }

  function Minus(origin: map<string, string>, role: string): map<string, string> {
    map v | v in origin && v != role :: origin[v]
  }

  // The ghost search behind the loop: `visited` is what it has visited, plus the role.
  ghost predicate Climbing(g: Graph, role: string, s: Search, visited: set<string>) {
    && Inv(Pruned(g, role), Elements(Next(g, role)), s)
    && visited == s.dist.Keys + {role}
  }

  lemma StartClimbing(g: Graph, role: string)
    ensures Climbing(g, role, Start(Next(g, role)), {role})
  {
    StartInv(Pruned(g, role), Next(g, role));
  }

  // Dropping a head that was seen before, or that is the role itself.
  lemma ClimbPast(g: Graph, role: string, s: Search, visited: set<string>) returns (t: Search)
    requires Climbing(g, role, s, visited) && s.queue != [] && s.queue[0].0 in visited
    ensures Climbing(g, role, t, visited) && t.queue == s.queue[1..]
    ensures Minus(t.origin, role) == Minus(s.origin, role)
  {
    if s.queue[0].0 in s.dist {
      SkipInv(Pruned(g, role), Elements(Next(g, role)), s);
      t := Skip(s);
    } else {
      VisitInv(Pruned(g, role), Elements(Next(g, role)), s, []);
      t := Visit(s, []);
    }
  }

  lemma ClimbTo(g: Graph, role: string, s: Search, visited: set<string>) returns (t: Search)
    requires Climbing(g, role, s, visited) && s.queue != [] && s.queue[0].0 !in visited
    ensures Climbing(g, role, t, visited + {s.queue[0].0})
    ensures t.queue == s.queue[1..] + Tag(Next(g, s.queue[0].0), s.queue[0].1)
    ensures Minus(t.origin, role) == Minus(s.origin, role)[s.queue[0].0 := s.queue[0].1]
  {
    VisitInv(Pruned(g, role), Elements(Next(g, role)), s, Next(g, s.queue[0].0));
    t := Visit(s, Next(g, s.queue[0].0));
  }

  // Whatever was visited is no farther than what is visited now.
  lemma ClimbNearest(g: Graph, role: string, s: Search, visited: set<string>, v: string, w: string)
    requires Climbing(g, role, s, visited) && v in Minus(s.origin, role) && w !in visited
    ensures NoFarther(g, Elements(Next(g, role)), v, w)
  {
    SearchNearest(Pruned(g, role), Elements(Next(g, role)), s, v, w);
    CutNoFarther(g, role, v, w);
  }

  lemma ClimbCount(g: Graph, role: string, s: Search, visited: set<string>, cap: nat)
    requires Climbing(g, role, s, visited) && |visited| <= cap + 1
    requires s.queue == [] || |visited| == cap + 1
    ensures visited - {role} <= Ancestors(g, role)
    ensures |visited - {role}| == Min(cap, |Ancestors(g, role)|)
  {
    var parents := Elements(Next(g, role));
    var cut := Pruned(g, role);
    var found := visited - {role};
    assert visited == found + {role};
    CutReach(g, role);
    VisitedReachable(cut, parents, s);
    SubsetSize(found, Ancestors(g, role));
    if s.queue == [] {
      Exhausted(cut, parents, s);
      ReachSetExact(cut, parents);
      assert found == Ancestors(g, role);
    }
  }

  lemma ClimbDone(g: Graph, role: string, s: Search, visited: set<string>, cap: nat)
    requires Climbing(g, role, s, visited) && |visited| <= cap + 1
    requires s.queue == [] || |visited| == cap + 1
    ensures AncestorChain(g, role, cap, Minus(s.origin, role))
  {
    var parents := Elements(Next(g, role));
    var cut := Pruned(g, role);
    var origin := Minus(s.origin, role);
    assert origin.Keys == visited - {role};
    ClimbCount(g, role, s, visited, cap);
    forall v | v in origin ensures origin[v] != role && NearestSeed(g, parents, v, origin[v]) {
      SearchOrigins(cut, parents, s, v);
      CutNearest(g, role, v, s.origin[v]);
    }
    forall v, w | v in origin && w in Ancestors(g, role) && w !in origin ensures NoFarther(g, parents, v, w) {
      SearchNearest(cut, parents, s, v, w);
      CutNoFarther(g, role, v, w);
    }
  }

  // ---------------------------------------------------------------------------
  // Ancestors that hold grants

  // The worklist: everything found is above the role, and whatever the visited roles
  // inherit from is visited or waiting.
  ghost predicate Ascent(g: Graph, role: string, visited: set<string>, queue: seq<string>) {
    var parents := Elements(Next(g, role));
    && role in visited
    && (forall v {:trigger ReachedFrom(g, parents, v)} ::
          (v in visited && v != role) || v in queue ==> ReachedFrom(g, parents, v))
    && (forall v, p :: v in visited && p in Next(g, v) ==> p in visited || p in queue)
  }

  lemma AscendStart(g: Graph, role: string)
    ensures Ascent(g, role, {role}, Next(g, role))
  {
    forall p | p in Next(g, role) ensures ReachedFrom(g, Elements(Next(g, role)), p) {
      ReachesSelf(g, p);
    }
  }

  lemma AscendFrom(g: Graph, role: string, visited: set<string>, queue: seq<string>, pushed: seq<string>)
    requires Ascent(g, role, visited, queue) && queue != []
    requires forall p :: p in pushed <==> p in Next(g, queue[0]) && p !in visited + {queue[0]}
    ensures Ascent(g, role, visited + {queue[0]}, queue[1..] + pushed)
  {
    var parents := Elements(Next(g, role));
    var head := queue[0];
    assert forall w :: w in queue <==> w == head || w in queue[1..];
    assert forall w :: w in queue[1..] + pushed <==> w in queue[1..] || w in pushed;
    forall v | v in pushed ensures ReachedFrom(g, parents, v) {
      assert ReachedFrom(g, parents, head);
      var a :| a in parents && Reaches(g, a, head);
      ReachesStep(g, a, head, v);
    }
  }

  lemma AscendPast(g: Graph, role: string, visited: set<string>, queue: seq<string>)
    requires Ascent(g, role, visited, queue) && queue != [] && queue[0] in visited
    ensures Ascent(g, role, visited, queue[1..])
  {
    assert forall w :: w in queue <==> w == queue[0] || w in queue[1..];
  }

  lemma AscentDone(g: Graph, role: string, visited: set<string>)
    requires Ascent(g, role, visited, [])
    ensures visited - {role} == Ancestors(g, role)
  {
    var parents := Elements(Next(g, role));
    ReachSetExact(g, parents);
    forall v | v in visited && v != role ensures v in Ancestors(g, role) {
      assert ReachedFrom(g, parents, v);
    }
    forall v | v in Ancestors(g, role) ensures v in visited {
      var a :| a in parents && Reaches(g, a, v);
      ClosedReaches(g, visited, a, v);
    }
  }

  lemma AscentLeft(g: Graph, role: string, visited: set<string>, queue: seq<string>)
    requires Ascent(g, role, visited, queue) && queue != [] && queue[0] !in visited
    ensures Left(g, Elements(Next(g, role)), visited + {queue[0]}) < Left(g, Elements(Next(g, role)), visited)
  {
    var parents := Elements(Next(g, role));
    var v := queue[0];
    assert ReachedFrom(g, parents, v);
    ReachSetExact(g, parents);
    var all := Universe(g, parents);
    assert all - visited == (all - (visited + {v})) + {v};
  }

  // The visited roles with grants, `role` itself excepted, each once.
  ghost predicate FoundSoFar(role: string, holders: set<string>, visited: set<string>, found: seq<string>) {
    NoRepeats(found) && forall r :: r in found <==> r in holders && r in visited && r != role
  }

  lemma FoundNext(role: string, holders: set<string>, visited: set<string>, found: seq<string>, parent: string)
    requires FoundSoFar(role, holders, visited, found) && role in visited && parent !in visited
    ensures FoundSoFar(role, holders, visited + {parent}, if parent in holders then found + [parent] else found)
  {
  }

  // Exactly the ancestors with grants, each once, on cyclic graphs too.
  method FindAncestorsWithGrants(parentsOf: Graph, role: string, holders: set<string>) returns (found: seq<string>)
    ensures NoRepeats(found)
    ensures forall r :: r in found <==> r in holders && r in Ancestors(parentsOf, role)
  {
    found := [];
    var visited := {role};
    var queue := Next(parentsOf, role);
    ghost var seeds := Elements(queue);
    AscendStart(parentsOf, role);
    while queue != []
      invariant Ascent(parentsOf, role, visited, queue)
      invariant FoundSoFar(role, holders, visited, found)
      decreases Left(parentsOf, seeds, visited), |queue|
    {
      var parent := queue[0];
      if parent in visited {
        AscendPast(parentsOf, role, visited, queue);
        queue := queue[1..];
        continue;
      }
      AscentLeft(parentsOf, role, visited, queue);
      AscendFrom(parentsOf, role, visited, queue, Fresh(Next(parentsOf, parent), visited + {parent}));
      FoundNext(role, holders, visited, found, parent);
      visited := visited + {parent};
      if parent in holders {
        found := found + [parent];
      }
      queue := queue[1..] + Fresh(Next(parentsOf, parent), visited);
    }
    AscentDone(parentsOf, role, visited);
  }
}
