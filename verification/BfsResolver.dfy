/** Breadth-first resolution of privilege inheritance through the role graph. */
module BfsResolver {
  import opened RoleGraph
  import opened InverseGraph
  import opened RankedSearch

  type RolePrivs = map<string, set<string>>

  // What a child role inherits, and the privileged role it was first reached from.
  datatype Inheritance = Inheritance(privs: set<string>, origin: string)

  // The keys of a dict in some order. Every result below holds for all orders.
  method Listing(keys: set<string>) returns (ks: seq<string>)
    ensures Elements(ks) == keys && NoRepeats(ks)
  {
    ks := [];
    var rest := keys;
    while rest != {}
      invariant rest <= keys && Elements(ks) == keys - rest && NoRepeats(ks)
      decreases rest
    {
      var k :| k in rest;
      rest := rest - {k};
      ElementsAppend(ks, k);
      assert k !in Elements(ks);
      ks := ks + [k];
    }
  }

  // ---------------------------------------------------------------------------
  // Downward: child roles

  // `role_privs.get(role) or role_privs.get(origin, set())`
  function OwnOr(rolePrivs: RolePrivs, role: string, origin: string): set<string> {
    if role in rolePrivs && rolePrivs[role] != {} then rolePrivs[role]
    else if origin in rolePrivs then rolePrivs[origin]
    else {}
  }

  // c lies one or more edges below a role of H.
  ghost predicate Below(g: Graph, H: set<string>, c: string) {
    exists h, n: nat :: h in H && n >= 1 && Walk(g, h, c, n)
  }

  // Among the roles of H that c lies below, o is one at minimum distance.
  ghost predicate NearestAbove(g: Graph, H: set<string>, c: string, o: string) {
    exists n: nat :: n >= 1 && o in H && Walk(g, o, c, n)
                     && forall h, m: nat :: h in H && m >= 1 && Walk(g, h, c, m) ==> n <= m
  }

  // What a reached role hands to its children: its own privileges if it holds any
  // itself, otherwise those of the one role it was first reached from.
  function Passed(rolePrivs: RolePrivs, result: map<string, Inheritance>, p: string): set<string> {
    if p in rolePrivs then rolePrivs[p]
    else if p in result && result[p].origin in rolePrivs then rolePrivs[result[p].origin]
    else {}
  }

  ghost predicate HandedBy(
      g: Graph, rolePrivs: RolePrivs, result: map<string, Inheritance>, p: string, c: string, x: string)
  {
    ReachedFrom(g, rolePrivs.Keys, p) && c in Next(g, p) && x in Passed(rolePrivs, result, p)
  }

  // Some reached parent of c passes x on to it.
  ghost predicate Inherits(
      g: Graph, rolePrivs: RolePrivs, result: map<string, Inheritance>, c: string, x: string)
  {
    exists p :: HandedBy(g, rolePrivs, result, p, c, x)
  }

  // Exactly the roles below a holder appear, cycles or not, each with a holder at minimum
  // distance as its origin.
  ghost predicate Origins(g: Graph, H: set<string>, result: map<string, Inheritance>) {
    && (forall c :: c in result <==> Below(g, H, c))
    && (forall c :: c in result ==> NearestAbove(g, H, c, result[c].origin))
  }

  // The inherited privileges are exactly those passed on by the reached parents.
  ghost predicate ChildRoles(g: Graph, rolePrivs: RolePrivs, result: map<string, Inheritance>) {
    && Origins(g, rolePrivs.Keys, result)
    && (forall c, x :: c in result ==> (x in result[c].privs <==> Inherits(g, rolePrivs, result, c, x)))
  }

  // o comes first in the order among the nearest holders above c.
  ghost predicate FirstAbove(g: Graph, order: seq<string>, c: string, o: string) {
    && NearestAbove(g, Elements(order), c, o)
    && forall q :: NearestAbove(g, Elements(order), c, q) ==> Rank(order, o) <= Rank(order, q)
  }

  // The result of the run that takes the holders in this order, which breaks all ties.
  ghost predicate ChildRun(
      g: Graph, rolePrivs: RolePrivs, order: seq<string>, result: map<string, Inheritance>)
  {
    && Elements(order) == rolePrivs.Keys && NoRepeats(order)
    && ChildRoles(g, rolePrivs, result)
    && forall c :: c in result ==> FirstAbove(g, order, c, result[c].origin)
  }

  ghost predicate PushedDown(
      before: map<string, Inheritance>, kids: seq<string>, privs: set<string>, origin: string,
      after: map<string, Inheritance>)
  {
    && after.Keys == before.Keys + Elements(kids)
    && forall c :: c in after ==>
         after[c] == if c !in kids then before[c]
                     else if c in before then Inheritance(before[c].privs + privs, before[c].origin)
                     else Inheritance(privs, origin)
  }

  // The loop over the children of one visited role.
  method PushToChildren(
      result: map<string, Inheritance>, queue: seq<(string, string)>, visited: set<string>,
      kids: seq<string>, privs: set<string>, origin: string)
    returns (result': map<string, Inheritance>, queue': seq<(string, string)>, ghost pushed: seq<string>)
    ensures PushedDown(result, kids, privs, origin, result')
    ensures queue' == queue + Tag(pushed, origin)
    ensures forall w :: w in pushed <==> w in kids && w !in visited
  {
    result', queue', pushed := result, queue, [];
    for i := 0 to |kids|
      invariant PushedDown(result, kids[..i], privs, origin, result')
      invariant queue' == queue + Tag(pushed, origin)
      invariant forall w :: w in pushed <==> w in kids[..i] && w !in visited
    {
      var child := kids[i];
      assert kids[..i + 1] == kids[..i] + [child];
      if child in result' {
        result' := result'[child := Inheritance(result'[child].privs + privs, result'[child].origin)];
      } else {
        result' := result'[child := Inheritance(privs, origin)];
      }
      if child !in visited {
        queue' := queue' + [(child, origin)];
        pushed := pushed + [child];
      }
    }
    assert kids[..|kids|] == kids;
  }

  // queue[i] is the first entry for its role.
  predicate FirstEntry(queue: seq<(string, string)>, i: int) {
    0 <= i < |queue| && forall j :: 0 <= j < i ==> queue[j].0 != queue[i].0
  }

  // via[c] is the visited parent through which c was first found, the first in distance
  // and rank.
  ghost predicate FoundVia(
      g: Graph, rank: string -> nat, s: Search, result: map<string, Inheritance>, via: map<string, string>)
    requires s.dist.Keys == s.origin.Keys
  {
    && via.Keys == result.Keys
    && (forall c :: c in result ==>
          via[c] in s.dist && c in Next(g, via[c]) && result[c].origin == s.origin[via[c]])
    && (forall p, c :: p in s.dist && c in Next(g, p) ==>
          c in result && Sooner(s.dist[via[c]], rank(s.origin[via[c]]), s.dist[p], rank(s.origin[p])))
  }

  ghost predicate HandsDown(g: Graph, rolePrivs: RolePrivs, s: Search, p: string, c: string, x: string)
    requires s.dist.Keys == s.origin.Keys
  {
    p in s.dist && c in Next(g, p) && x in OwnOr(rolePrivs, p, s.origin[p])
  }

  // The result collects what the visited roles hand down, and nothing else.
  ghost predicate Gathers(g: Graph, rolePrivs: RolePrivs, s: Search, result: map<string, Inheritance>)
    requires s.dist.Keys == s.origin.Keys
  {
    forall c, x :: c in result ==>
      (x in result[c].privs <==> exists p :: HandsDown(g, rolePrivs, s, p, c, x))
  }

  // A role without privileges of its own carries the same origin in the search and in
  // the result, both while it waits and once it is visited.
  ghost predicate EntryOrigins(rolePrivs: RolePrivs, s: Search, result: map<string, Inheritance>)
    requires s.dist.Keys == s.origin.Keys
  {
    forall i {:trigger FirstEntry(s.queue, i)} ::
      FirstEntry(s.queue, i) && s.queue[i].0 !in rolePrivs && s.queue[i].0 !in s.dist ==>
        s.queue[i].0 in result && result[s.queue[i].0].origin == s.queue[i].1
  }

  ghost predicate VisitedOrigins(rolePrivs: RolePrivs, s: Search, result: map<string, Inheritance>)
    requires s.dist.Keys == s.origin.Keys
  {
    forall v :: v in s.dist && v !in rolePrivs ==> v in result && result[v].origin == s.origin[v]
  }

  ghost predicate SameOrigins(rolePrivs: RolePrivs, s: Search, result: map<string, Inheritance>)
    requires s.dist.Keys == s.origin.Keys
  {
    EntryOrigins(rolePrivs, s, result) && VisitedOrigins(rolePrivs, s, result)
  }

  lemma SkipOrigins(rolePrivs: RolePrivs, s: Search, result: map<string, Inheritance>)
    requires s.dist.Keys == s.origin.Keys && |s.queue| == |s.depth| > 0 && s.queue[0].0 in s.dist
    requires SameOrigins(rolePrivs, s, result)
    ensures SameOrigins(rolePrivs, Skip(s), result)
  {
    var t := Skip(s);
    forall i | FirstEntry(t.queue, i) && t.queue[i].0 !in s.dist ensures FirstEntry(s.queue, i + 1) {
      forall j | 0 <= j < i + 1 ensures s.queue[j].0 != s.queue[i + 1].0 {
        if j > 0 { assert t.queue[j - 1] == s.queue[j]; }
      }
    }
  }

  lemma OldEntry(s: Search, pushed: seq<string>, i: int)
    requires |s.queue| == |s.depth| > 0 && i < |s.queue| - 1
    requires FirstEntry(Visit(s, pushed).queue, i) && Visit(s, pushed).queue[i].0 != s.queue[0].0
    ensures FirstEntry(s.queue, i + 1) && Visit(s, pushed).queue[i] == s.queue[i + 1]
  {
    var t := Visit(s, pushed);
    assert t.queue[i] == s.queue[i + 1];
    forall j | 0 <= j < i + 1 ensures s.queue[j].0 != s.queue[i + 1].0 {
      if j > 0 { assert t.queue[j - 1] == s.queue[j]; }
    }
  }

  // An unvisited role already in the result sits in the old part of the queue.
  lemma StillQueued(
      g: Graph, rank: string -> nat, seeds: set<string>, s: Search, pushed: seq<string>,
      result: map<string, Inheritance>, via: map<string, string>, r: string)
    requires s.dist.Keys == s.origin.Keys && |s.queue| == |s.depth| > 0
    requires Covered(g, seeds, s) && FoundVia(g, rank, s, result, via)
    requires r in result && r !in s.dist && r != s.queue[0].0
    ensures exists j :: 0 <= j < |s.queue| - 1 && Visit(s, pushed).queue[j].0 == r
  {
    assert SeenAfter(s, via[r], r);
    var j :| 0 <= j < |s.queue| && s.queue[j].0 == r;
    assert Visit(s, pushed).queue[j - 1] == s.queue[j];
  }

  lemma NewEntry(s: Search, pushed: seq<string>, i: int)
    requires |s.queue| == |s.depth| > 0 && |s.queue| - 1 <= i < |Visit(s, pushed).queue|
    ensures Visit(s, pushed).queue[i].0 in pushed && Visit(s, pushed).queue[i].1 == s.queue[0].1
  {
    assert Visit(s, pushed).queue[i] == (pushed[i - (|s.queue| - 1)], s.queue[0].1);
  }

  lemma EntryOrigin(
      g: Graph, rank: string -> nat, rolePrivs: RolePrivs, seeds: set<string>, s: Search, pushed: seq<string>,
      result: map<string, Inheritance>, via: map<string, string>,
      privs: set<string>, after: map<string, Inheritance>, i: int)
    requires s.dist.Keys == s.origin.Keys && |s.queue| == |s.depth| > 0
    requires Covered(g, seeds, s) && Expands(g, s, pushed)
    requires FoundVia(g, rank, s, result, via) && SameOrigins(rolePrivs, s, result)
    requires PushedDown(result, Next(g, s.queue[0].0), privs, s.queue[0].1, after)
    requires FirstEntry(Visit(s, pushed).queue, i)
    requires Visit(s, pushed).queue[i].0 !in rolePrivs && Visit(s, pushed).queue[i].0 !in Visit(s, pushed).dist
    ensures var (r, o) := Visit(s, pushed).queue[i]; r in after && after[r].origin == o
  {
    var r := Visit(s, pushed).queue[i].0;
    if i < |s.queue| - 1 {
      OldEntry(s, pushed, i);
    } else {
      NewEntry(s, pushed, i);
      if r in result {
        StillQueued(g, rank, seeds, s, pushed, result, via, r);
      }
      assert r in Elements(Next(g, s.queue[0].0));
    }
  }

  lemma VisitEntryOrigins(
      g: Graph, rank: string -> nat, rolePrivs: RolePrivs, seeds: set<string>, s: Search, pushed: seq<string>,
      result: map<string, Inheritance>, via: map<string, string>,
      privs: set<string>, after: map<string, Inheritance>)
    requires s.dist.Keys == s.origin.Keys && |s.queue| == |s.depth| > 0
    requires Covered(g, seeds, s) && Expands(g, s, pushed)
    requires FoundVia(g, rank, s, result, via) && SameOrigins(rolePrivs, s, result)
    requires PushedDown(result, Next(g, s.queue[0].0), privs, s.queue[0].1, after)
    ensures EntryOrigins(rolePrivs, Visit(s, pushed), after)
  {
    var t := Visit(s, pushed);
    forall i | FirstEntry(t.queue, i) && t.queue[i].0 !in rolePrivs && t.queue[i].0 !in t.dist
      ensures t.queue[i].0 in after && after[t.queue[i].0].origin == t.queue[i].1
    {
      EntryOrigin(g, rank, rolePrivs, seeds, s, pushed, result, via, privs, after, i);
    }
  }

  lemma VisitVisitedOrigins(
      rolePrivs: RolePrivs, s: Search, pushed: seq<string>, result: map<string, Inheritance>,
      kids: seq<string>, privs: set<string>, origin: string, after: map<string, Inheritance>)
    requires s.dist.Keys == s.origin.Keys && |s.queue| == |s.depth| > 0 && s.queue[0].0 !in s.dist
    requires SameOrigins(rolePrivs, s, result) && PushedDown(result, kids, privs, origin, after)
    ensures VisitedOrigins(rolePrivs, Visit(s, pushed), after)
  {
    assert FirstEntry(s.queue, 0);
  }

  function Via(via: map<string, string>, kids: seq<string>, role: string): map<string, string> {
    map c | c in via.Keys + Elements(kids) :: if c in via then via[c] else role
  }

  lemma VisitFound(
      g: Graph, rank: string -> nat, s: Search, pushed: seq<string>, result: map<string, Inheritance>,
      via: map<string, string>, privs: set<string>, after: map<string, Inheritance>)
    requires s.dist.Keys == s.origin.Keys && |s.queue| == |s.depth| > 0 && s.queue[0].0 !in s.dist
    requires Ranked(s, rank) && FoundVia(g, rank, s, result, via)
    requires PushedDown(result, Next(g, s.queue[0].0), privs, s.queue[0].1, after)
    ensures FoundVia(g, rank, Visit(s, pushed), after, Via(via, Next(g, s.queue[0].0), s.queue[0].0))
  {
    var t := Visit(s, pushed);
    var role := s.queue[0].0;
    var kids := Next(g, role);
    var via' := Via(via, kids, role);
    assert via'.Keys == after.Keys;
    forall c | c in after
      ensures via'[c] in t.dist && c in Next(g, via'[c]) && after[c].origin == t.origin[via'[c]]
    {
      if c !in result {
        assert c in Elements(kids);
      }
    }
    forall p, c | p in t.dist && c in Next(g, p) ensures
      c in after && Sooner(t.dist[via'[c]], rank(t.origin[via'[c]]), t.dist[p], rank(t.origin[p]))
    {
      VisitNear(g, rank, s, pushed, result, via, p, c);
    }
  }

  // The visited parents through which roles were found are still nearest ones.
  lemma VisitNear(
      g: Graph, rank: string -> nat, s: Search, pushed: seq<string>, result: map<string, Inheritance>,
      via: map<string, string>, p: string, c: string)
    requires s.dist.Keys == s.origin.Keys && |s.queue| == |s.depth| > 0 && s.queue[0].0 !in s.dist
    requires Ranked(s, rank) && FoundVia(g, rank, s, result, via)
    requires p in Visit(s, pushed).dist && c in Next(g, p)
    ensures var t, via' := Visit(s, pushed), Via(via, Next(g, s.queue[0].0), s.queue[0].0);
            c in via' && via'[c] in t.dist &&
            Sooner(t.dist[via'[c]], rank(t.origin[via'[c]]), t.dist[p], rank(t.origin[p]))
  {
    if p == s.queue[0].0 {
      assert c in Elements(Next(g, p));
    }
  }

  lemma VisitCollected(
      g: Graph, rank: string -> nat, rolePrivs: RolePrivs, s: Search, pushed: seq<string>,
      result: map<string, Inheritance>, via: map<string, string>, after: map<string, Inheritance>)
    requires s.dist.Keys == s.origin.Keys && |s.queue| == |s.depth| > 0 && s.queue[0].0 !in s.dist
    requires FoundVia(g, rank, s, result, via) && Gathers(g, rolePrivs, s, result)
    requires PushedDown(result, Next(g, s.queue[0].0), OwnOr(rolePrivs, s.queue[0].0, s.queue[0].1),
                        s.queue[0].1, after)
    ensures Gathers(g, rolePrivs, Visit(s, pushed), after)
  {
    forall c, x | c in after
      ensures x in after[c].privs <==> exists p :: HandsDown(g, rolePrivs, Visit(s, pushed), p, c, x)
    {
      HandedMore(g, rolePrivs, s, pushed, c, x);
    }
  }

  // What is handed down after one more visit.
  lemma HandedMore(g: Graph, rolePrivs: RolePrivs, s: Search, pushed: seq<string>, c: string, x: string)
    requires s.dist.Keys == s.origin.Keys && |s.queue| == |s.depth| > 0 && s.queue[0].0 !in s.dist
    ensures (exists p :: HandsDown(g, rolePrivs, Visit(s, pushed), p, c, x)) <==>
            || (exists p :: HandsDown(g, rolePrivs, s, p, c, x))
            || (c in Next(g, s.queue[0].0) && x in OwnOr(rolePrivs, s.queue[0].0, s.queue[0].1))
  {
    var t := Visit(s, pushed);
    var (role, origin) := s.queue[0];
    if p :| HandsDown(g, rolePrivs, s, p, c, x) {
      assert HandsDown(g, rolePrivs, t, p, c, x);
    }
    if c in Next(g, role) && x in OwnOr(rolePrivs, role, origin) {
      assert HandsDown(g, rolePrivs, t, role, c, x);
    }
    if p :| HandsDown(g, rolePrivs, t, p, c, x) {
      if p != role {
        assert HandsDown(g, rolePrivs, s, p, c, x);
      }
    }
  }

  ghost predicate Tracks(
      g: Graph, rank: string -> nat, rolePrivs: RolePrivs, s: Search, result: map<string, Inheritance>,
      via: map<string, string>)
  {
    && Inv(g, rolePrivs.Keys, s) && RankInv(g, rolePrivs.Keys, s, rank)
    && FoundVia(g, rank, s, result, via)
    && Gathers(g, rolePrivs, s, result)
    && SameOrigins(rolePrivs, s, result)
  }

  lemma StartTracks(g: Graph, rolePrivs: RolePrivs, seeds: seq<string>)
    requires Elements(seeds) == rolePrivs.Keys && NoRepeats(seeds)
    ensures Tracks(g, RankIn(seeds), rolePrivs, Start(seeds), map[], map[])
  {
    StartInv(g, seeds);
    forall i | 0 <= i < |seeds| ensures RankIn(seeds)(seeds[i]) == i {
      RankAt(seeds, i);
    }
    RankStart(g, seeds, RankIn(seeds));
    forall i | 0 <= i < |seeds| ensures seeds[i] in rolePrivs {
      assert seeds[i] in Elements(seeds);
    }
  }

  lemma SkipTracks(
      g: Graph, rank: string -> nat, rolePrivs: RolePrivs, s: Search, result: map<string, Inheritance>,
      via: map<string, string>)
    requires Tracks(g, rank, rolePrivs, s, result, via) && s.queue != [] && s.queue[0].0 in s.dist
    ensures Tracks(g, rank, rolePrivs, Skip(s), result, via)
  {
    SkipInv(g, rolePrivs.Keys, s);
    RankSkip(g, rolePrivs.Keys, s, rank);
    SkipOrigins(rolePrivs, s, result);
    forall c, x, p | HandsDown(g, rolePrivs, s, p, c, x) ensures HandsDown(g, rolePrivs, Skip(s), p, c, x) {
    }
    forall c, x, p | HandsDown(g, rolePrivs, Skip(s), p, c, x) ensures HandsDown(g, rolePrivs, s, p, c, x) {
    }
  }

  lemma VisitTracks(
      g: Graph, rank: string -> nat, rolePrivs: RolePrivs, s: Search, pushed: seq<string>,
      result: map<string, Inheritance>, via: map<string, string>, after: map<string, Inheritance>)
    requires Tracks(g, rank, rolePrivs, s, result, via) && s.queue != [] && s.queue[0].0 !in s.dist
    requires Expands(g, s, pushed)
    requires PushedDown(result, Next(g, s.queue[0].0), OwnOr(rolePrivs, s.queue[0].0, s.queue[0].1),
                        s.queue[0].1, after)
    ensures Tracks(g, rank, rolePrivs, Visit(s, pushed), after, Via(via, Next(g, s.queue[0].0), s.queue[0].0))
  {
    var privs := OwnOr(rolePrivs, s.queue[0].0, s.queue[0].1);
    VisitInv(g, rolePrivs.Keys, s, pushed);
    RankVisit(g, rolePrivs.Keys, s, rank, pushed);
    VisitFound(g, rank, s, pushed, result, via, privs, after);
    VisitCollected(g, rank, rolePrivs, s, pushed, result, via, after);
    VisitEntryOrigins(g, rank, rolePrivs, rolePrivs.Keys, s, pushed, result, via, privs, after);
    VisitVisitedOrigins(rolePrivs, s, pushed, result, Next(g, s.queue[0].0), privs, s.queue[0].1, after);
  }

  // What the result says once the queue is empty.
  lemma FinishedKeys(
      g: Graph, rank: string -> nat, rolePrivs: RolePrivs, s: Search, result: map<string, Inheritance>,
      via: map<string, string>)
    requires Tracks(g, rank, rolePrivs, s, result, via) && s.queue == []
    ensures Origins(g, rolePrivs.Keys, result)
    ensures forall c, q :: c in result && NearestAbove(g, rolePrivs.Keys, c, q) ==> rank(result[c].origin) <= rank(q)
  {
    var H := rolePrivs.Keys;
    forall c | Below(g, H, c) ensures c in result {
      var h, n: nat :| h in H && n >= 1 && Walk(g, h, c, n);
      FinishedFar(g, rank, rolePrivs, s, result, via, h, c, n);
    }
    forall c | c in result ensures Below(g, H, c) && NearestAbove(g, H, c, result[c].origin) {
      FinishedNear(g, rank, rolePrivs, s, result, via, c);
    }
    forall c, q | c in result && NearestAbove(g, H, c, q) ensures rank(result[c].origin) <= rank(q) {
      FinishedNear(g, rank, rolePrivs, s, result, via, c);
      FinishedFirst(g, rank, rolePrivs, s, result, via, c, q);
    }
  }

  lemma FinishedFirst(
      g: Graph, rank: string -> nat, rolePrivs: RolePrivs, s: Search, result: map<string, Inheritance>,
      via: map<string, string>, c: string, q: string)
    requires Tracks(g, rank, rolePrivs, s, result, via) && s.queue == [] && c in result
    requires NearestAbove(g, rolePrivs.Keys, c, q)
    ensures rank(result[c].origin) <= rank(q)
  {
    var n: nat :| n >= 1 && q in rolePrivs && Walk(g, q, c, n)
                  && forall h, m: nat :: h in rolePrivs.Keys && m >= 1 && Walk(g, h, c, m) ==> n <= m;
    FinishedFar(g, rank, rolePrivs, s, result, via, q, c, n);
    OriginWalk(g, rank, rolePrivs.Keys, s, result, via, c);
  }

  // Whatever lies below a holder is in the result, at no greater distance and rank.
  lemma FinishedFar(
      g: Graph, rank: string -> nat, rolePrivs: RolePrivs, s: Search, result: map<string, Inheritance>,
      via: map<string, string>, h: string, c: string, n: nat)
    requires Tracks(g, rank, rolePrivs, s, result, via) && s.queue == []
    requires h in rolePrivs && n >= 1 && Walk(g, h, c, n)
    ensures c in result && Sooner(s.dist[via[c]] + 1, rank(s.origin[via[c]]), n, rank(h))
  {
    var p := LastStep(g, h, c, n);
    WalkVisited(g, rolePrivs.Keys, s, h, p, n - 1);
    FirstAt(g, rolePrivs.Keys, s, rank, h, p, n - 1);
    FoundThrough(g, rank, s, result, via, p, c);
  }

  lemma WalkVisited(g: Graph, H: set<string>, s: Search, h: string, p: string, m: nat)
    requires Inv(g, H, s) && s.queue == [] && h in H && Walk(g, h, p, m)
    ensures p in s.dist
  {
    Exhausted(g, H, s);
    assert Reaches(g, h, p);
    assert ReachedFrom(g, H, p);
  }

  lemma FoundThrough(
      g: Graph, rank: string -> nat, s: Search, result: map<string, Inheritance>, via: map<string, string>,
      p: string, c: string)
    requires s.dist.Keys == s.origin.Keys && FoundVia(g, rank, s, result, via) && p in s.dist && c in Next(g, p)
    ensures c in result && c in via && via[c] in s.dist
    ensures Sooner(s.dist[via[c]], rank(s.origin[via[c]]), s.dist[p], rank(s.origin[p]))
  {
  }

  lemma FinishedNear(
      g: Graph, rank: string -> nat, rolePrivs: RolePrivs, s: Search, result: map<string, Inheritance>,
      via: map<string, string>, c: string)
    requires Tracks(g, rank, rolePrivs, s, result, via) && s.queue == [] && c in result
    ensures Below(g, rolePrivs.Keys, c) && NearestAbove(g, rolePrivs.Keys, c, result[c].origin)
  {
    var n := s.dist[via[c]] + 1;
    OriginWalk(g, rank, rolePrivs.Keys, s, result, via, c);
    FinishedNone(g, rank, rolePrivs, s, result, via, c);
    LeastWalk(g, rolePrivs.Keys, c, result[c].origin, n);
  }

  lemma OriginWalk(
      g: Graph, rank: string -> nat, H: set<string>, s: Search, result: map<string, Inheritance>,
      via: map<string, string>, c: string)
    requires Sound(g, H, s) && FoundVia(g, rank, s, result, via) && c in result
    ensures result[c].origin in H && Walk(g, result[c].origin, c, s.dist[via[c]] + 1)
  {
    assert Labelled(g, H, s, via[c]);
    WalkStep(g, s.origin[via[c]], via[c], c, s.dist[via[c]]);
  }

  // No holder is nearer than the one that c is credited to.
  lemma FinishedNone(
      g: Graph, rank: string -> nat, rolePrivs: RolePrivs, s: Search, result: map<string, Inheritance>,
      via: map<string, string>, c: string)
    requires Tracks(g, rank, rolePrivs, s, result, via) && s.queue == [] && c in result
    ensures forall h, m: nat :: h in rolePrivs.Keys && m >= 1 && Walk(g, h, c, m) ==> s.dist[via[c]] + 1 <= m
  {
    forall h, m: nat | h in rolePrivs.Keys && m >= 1 && Walk(g, h, c, m) ensures s.dist[via[c]] + 1 <= m {
      FinishedFar(g, rank, rolePrivs, s, result, via, h, c, m);
    }
  }

  lemma LeastWalk(g: Graph, H: set<string>, c: string, o: string, n: nat)
    requires n >= 1 && o in H && Walk(g, o, c, n)
    requires forall h, m: nat :: h in H && m >= 1 && Walk(g, h, c, m) ==> n <= m
    ensures Below(g, H, c) && NearestAbove(g, H, c, o)
  {
  }

  lemma HolderOrigin(g: Graph, H: set<string>, s: Search, h: string)
    requires Sound(g, H, s) && Minimal(g, H, s) && h in H && h in s.dist
    ensures s.origin[h] == h
  {
    assert Labelled(g, H, s, h) && Shortest(g, H, s, h) && Walk(g, h, h, 0);
  }

  lemma SameHanded(
      g: Graph, rolePrivs: RolePrivs, s: Search, result: map<string, Inheritance>)
    requires s.dist.Keys == s.origin.Keys
    requires forall v :: v in s.dist <==> ReachedFrom(g, rolePrivs.Keys, v)
    requires forall p :: p in s.dist ==> OwnOr(rolePrivs, p, s.origin[p]) == Passed(rolePrivs, result, p)
    ensures forall p, c, x :: HandsDown(g, rolePrivs, s, p, c, x) <==> HandedBy(g, rolePrivs, result, p, c, x)
  {
  }

  lemma FinishedPrivs(
      g: Graph, rank: string -> nat, rolePrivs: RolePrivs, s: Search, result: map<string, Inheritance>,
      via: map<string, string>)
    requires Tracks(g, rank, rolePrivs, s, result, via) && s.queue == []
    ensures forall c, x :: c in result ==> (x in result[c].privs <==> Inherits(g, rolePrivs, result, c, x))
  {
    Exhausted(g, rolePrivs.Keys, s);
    forall p | p in s.dist ensures OwnOr(rolePrivs, p, s.origin[p]) == Passed(rolePrivs, result, p) {
      if p in rolePrivs {
        HolderOrigin(g, rolePrivs.Keys, s, p);
      }
    }
    SameHanded(g, rolePrivs, s, result);
  }

  lemma FinishedRun(
      g: Graph, order: seq<string>, rolePrivs: RolePrivs, s: Search, result: map<string, Inheritance>,
      via: map<string, string>)
    requires Elements(order) == rolePrivs.Keys && NoRepeats(order)
    requires Tracks(g, RankIn(order), rolePrivs, s, result, via) && s.queue == []
    ensures ChildRun(g, rolePrivs, order, result)
  {
    FinishedKeys(g, RankIn(order), rolePrivs, s, result, via);
    FinishedPrivs(g, RankIn(order), rolePrivs, s, result, via);
  }

  // One newly visited role: its privileges go to its children.
  method VisitRole(
      rolePrivs: RolePrivs, childrenOf: Graph, role: string, origin: string,
      result: map<string, Inheritance>, queue: seq<(string, string)>, visited: set<string>,
      ghost rank: string -> nat, ghost s: Search, ghost via: map<string, string>)
    returns (result': map<string, Inheritance>, queue': seq<(string, string)>, visited': set<string>,
             ghost s': Search, ghost via': map<string, string>)
    requires Tracks(childrenOf, rank, rolePrivs, s, result, via)
    requires s.queue != [] && s.queue[0] == (role, origin) && queue == s.queue[1..]
    requires role !in visited && visited == s.dist.Keys
    ensures Tracks(childrenOf, rank, rolePrivs, s', result', via')
    ensures s'.queue == queue' && s'.dist.Keys == visited'
    ensures Left(childrenOf, rolePrivs.Keys, visited') < Left(childrenOf, rolePrivs.Keys, visited)
  {
    VisitLeft(childrenOf, rolePrivs.Keys, s);
    visited' := visited + {role};
    var privs := OwnOr(rolePrivs, role, origin);
    ghost var pushed;
    result', queue', pushed := PushToChildren(result, queue, visited', Next(childrenOf, role), privs, origin);
    ExpandsAll(childrenOf, s, pushed);
    VisitTracks(childrenOf, rank, rolePrivs, s, pushed, result, via, result');
    via' := Via(via, Next(childrenOf, role), role);
    s' := Visit(s, pushed);
  }

  // `order` is the order in which the holders are enumerated.
  method BfsChildRoles(rolePrivs: RolePrivs, childrenOf: Graph)
    returns (result: map<string, Inheritance>, ghost order: seq<string>)
    ensures ChildRun(childrenOf, rolePrivs, order, result)
  {
    var seeds := Listing(rolePrivs.Keys);
    order := seeds;
    result := map[];
    var queue := SelfTag(seeds);
    var visited: set<string> := {};
    ghost var rank, s := RankIn(seeds), Start(seeds);
    ghost var via: map<string, string> := map[];
    StartTracks(childrenOf, rolePrivs, seeds);
    while queue != []
      invariant queue == s.queue && visited == s.dist.Keys
      invariant Tracks(childrenOf, rank, rolePrivs, s, result, via)
      decreases Left(childrenOf, rolePrivs.Keys, visited), |queue|
    {
      var (role, origin) := queue[0];
      queue := queue[1..];
      if role in visited {
        SkipTracks(childrenOf, rank, rolePrivs, s, result, via);
        s := Skip(s);
        continue;
      }
      result, queue, visited, s, via :=
        VisitRole(rolePrivs, childrenOf, role, origin, result, queue, visited, rank, s, via);
    }
    FinishedRun(childrenOf, order, rolePrivs, s, result, via);
  }

  // ---------------------------------------------------------------------------
  // Upward: users

  method InvertChildMap(childrenOf: Graph) returns (parentsOf: Graph)
    ensures IsInverse(childrenOf, parentsOf)
    ensures forall c :: c in parentsOf ==> parentsOf[c] != []
  {
    parentsOf := map[];
    var rest := childrenOf.Keys;
    while rest != {}
      invariant rest <= childrenOf.Keys
      invariant forall p, c :: Times(parentsOf, c, p) == if p in rest then 0 else Times(childrenOf, p, c)
      invariant forall c :: c in parentsOf ==> parentsOf[c] != []
      decreases rest
    {
      var parent :| parent in rest;
      rest := rest - {parent};
      parentsOf := AddParent(parentsOf, parent, childrenOf[parent]);
    }
  }

  // The loop over the children of one parent, `setdefault(child, []).append(parent)`.
  method AddParent(parentsOf: Graph, parent: string, children: seq<string>) returns (r: Graph)
    requires forall c :: c in parentsOf ==> parentsOf[c] != []
    ensures forall c :: c in r ==> r[c] != []
    ensures forall c, p :: Times(r, c, p) ==
              Times(parentsOf, c, p) + if p == parent then multiset(children)[c] else 0
  {
    r := parentsOf;
    for i := 0 to |children|
      invariant forall c :: c in r ==> r[c] != []
      invariant forall c, p :: Times(r, c, p) ==
                  Times(parentsOf, c, p) + if p == parent then multiset(children[..i])[c] else 0
    {
      assert children[..i + 1] == children[..i] + [children[i]];
      r := r[children[i] := Next(r, children[i]) + [parent]];
    }
    assert children[..|children|] == children;
  }

  // Inverting twice gives every edge back with its multiplicity.
  lemma InvertTwice(g: Graph, inv: Graph, again: Graph)
    requires IsInverse(g, inv) && IsInverse(inv, again)
    ensures forall p :: multiset(Next(again, p)) == multiset(Next(g, p))
  {
    forall p ensures multiset(Next(again, p)) == multiset(Next(g, p)) {
      forall c ensures multiset(Next(again, p))[c] == multiset(Next(g, p))[c] {
        assert Times(again, p, c) == Times(inv, c, p) == Times(g, p, c);
      }
    }
  }

  function Own(rolePrivs: RolePrivs, role: string): set<string> {
    if role in rolePrivs then rolePrivs[role] else {}
  }

  // `if role in role_privs: for priv in role_privs[role]: result.setdefault(priv, source)`
  method Credit(result: map<string, string>, rolePrivs: RolePrivs, role: string, source: string)
    returns (r: map<string, string>)
    ensures r.Keys == result.Keys + Own(rolePrivs, role)
    ensures forall x :: x in r ==> r[x] == if x in result then result[x] else source
  {
    r := result;
    if role in rolePrivs {
      var rest := rolePrivs[role];
      while rest != {}
        invariant rest <= rolePrivs[role] && r.Keys == result.Keys + (rolePrivs[role] - rest)
        invariant forall x :: x in r ==> r[x] == if x in result then result[x] else source
        decreases rest
      {
        var priv :| priv in rest;
        rest := rest - {priv};
        if priv !in r {
          r := r[priv := source];
        }
      }
    }
  }

  // roles[i] is the first of the listed roles to hold x.
  predicate FirstHolder(rolePrivs: RolePrivs, roles: seq<string>, x: string, i: int) {
    && 0 <= i < |roles| && x in Own(rolePrivs, roles[i])
    && forall j :: 0 <= j < i ==> x !in Own(rolePrivs, roles[j])
  }

  ghost predicate HeldBySome(rolePrivs: RolePrivs, roles: seq<string>, x: string) {
    exists r :: r in roles && x in Own(rolePrivs, r)
  }

  // The user's privileges are those of the roles assigned directly, each credited to
  // the first role holding it.
  ghost predicate DirectPrivs(rolePrivs: RolePrivs, roles: seq<string>, result: map<string, string>) {
    && (forall x :: x in result <==> HeldBySome(rolePrivs, roles, x))
    && (forall x :: x in result ==> exists i :: FirstHolder(rolePrivs, roles, x, i) && result[x] == roles[i])
  }

  method FastPath(roles: seq<string>, rolePrivs: RolePrivs) returns (result: map<string, string>)
    ensures DirectPrivs(rolePrivs, roles, result)
  {
    result := map[];
    for i := 0 to |roles|
      invariant DirectPrivs(rolePrivs, roles[..i], result)
    {
      ghost var before := result;
      result := Credit(result, rolePrivs, roles[i], roles[i]);
      NextDirect(rolePrivs, roles, i, before, result);
    }
    assert roles[..|roles|] == roles;
  }

  lemma NextDirect(
      rolePrivs: RolePrivs, roles: seq<string>, i: nat, before: map<string, string>, after: map<string, string>)
    requires i < |roles| && DirectPrivs(rolePrivs, roles[..i], before)
    requires after.Keys == before.Keys + Own(rolePrivs, roles[i])
    requires forall x :: x in after ==> after[x] == if x in before then before[x] else roles[i]
    ensures DirectPrivs(rolePrivs, roles[..i + 1], after)
  {
    var known, longer := roles[..i], roles[..i + 1];
    assert longer == known + [roles[i]];
    forall x | x in after ensures exists k :: FirstHolder(rolePrivs, longer, x, k) && after[x] == longer[k] {
      CreditedFirst(rolePrivs, known, roles[i], before, after, x);
    }
    forall x ensures x in after <==> HeldBySome(rolePrivs, longer, x) {
      HeldByOneMore(rolePrivs, known, roles[i], x);
    }
  }

  lemma HeldByOneMore(rolePrivs: RolePrivs, known: seq<string>, role: string, x: string)
    ensures HeldBySome(rolePrivs, known + [role], x) <==>
            HeldBySome(rolePrivs, known, x) || x in Own(rolePrivs, role)
  {
    assert forall r :: r in known + [role] <==> r in known || r == role;
  }

  lemma CreditedFirst(
      rolePrivs: RolePrivs, known: seq<string>, role: string, before: map<string, string>, after: map<string, string>,
      x: string)
    requires DirectPrivs(rolePrivs, known, before) && x in after && (x in before || x in Own(rolePrivs, role))
    requires after[x] == if x in before then before[x] else role
    ensures exists k :: FirstHolder(rolePrivs, known + [role], x, k) && after[x] == (known + [role])[k]
  {
    if x in before {
      var k :| FirstHolder(rolePrivs, known, x, k) && before[x] == known[k];
      StillFirst(rolePrivs, known, role, x, k);
    } else {
      FirstAtLast(rolePrivs, known, role, x);
    }
  }

  lemma StillFirst(rolePrivs: RolePrivs, known: seq<string>, role: string, x: string, k: nat)
    requires FirstHolder(rolePrivs, known, x, k)
    ensures FirstHolder(rolePrivs, known + [role], x, k) && (known + [role])[k] == known[k]
  {
  }

  lemma FirstAtLast(rolePrivs: RolePrivs, known: seq<string>, role: string, x: string)
    requires x in Own(rolePrivs, role) && forall r :: r in known ==> x !in Own(rolePrivs, r)
    ensures FirstHolder(rolePrivs, known + [role], x, |known|)
  {
    forall j | 0 <= j < |known| ensures x !in Own(rolePrivs, (known + [role])[j]) {
      assert known[j] in known;
    }
  }

  // x is credited to an assigned role from which some role holding x is reached upward.
  ghost predicate CreditedUpward(
      parents: Graph, rolePrivs: RolePrivs, roles: seq<string>, x: string, source: string)
  {
    source in roles && exists a :: Reaches(parents, source, a) && x in Own(rolePrivs, a)
  }

  ghost predicate ReachedPriv(parents: Graph, rolePrivs: RolePrivs, roles: seq<string>, x: string) {
    exists a :: ReachedFrom(parents, Elements(roles), a) && x in Own(rolePrivs, a)
  }

  // x is held by the searched role a.
  predicate HeldAt(rolePrivs: RolePrivs, origin: map<string, string>, a: string, x: string) {
    a in origin && x in Own(rolePrivs, a)
  }

  // a is a nearest searched role that holds x.
  ghost predicate NearestHolder(
      g: Graph, seeds: set<string>, rolePrivs: RolePrivs, origin: map<string, string>, a: string, x: string)
  {
    && HeldAt(rolePrivs, origin, a, x)
    && forall b :: HeldAt(rolePrivs, origin, b, x) && b != a ==> NoFarther(g, seeds, a, b)
  }

  // The privileges of the searched roles, each credited to the origin of a nearest one
  // that holds it.
  ghost predicate CreditedBy(
      g: Graph, seeds: set<string>, rolePrivs: RolePrivs, origin: map<string, string>, result: map<string, string>)
  {
    && (forall x :: x in result ==>
          exists a :: NearestHolder(g, seeds, rolePrivs, origin, a, x) && result[x] == origin[a])
    && (forall x, a :: HeldAt(rolePrivs, origin, a, x) ==> x in result)
  }

  // Searched are the 100 nearest roles, or all there are, each from a nearest assigned role.
  ghost predicate SearchedPrivs(
      parents: Graph, rolePrivs: RolePrivs, roles: seq<string>, cap: nat, result: map<string, string>)
  {
    exists origin ::
      && NearestChain(parents, Elements(roles), cap, origin)
      && CreditedBy(parents, Elements(roles), rolePrivs, origin, result)
  }

  // The upward search, at most 100 roles. Every parent is queued, visited or not.
  method SlowPath(roles: seq<string>, rolePrivs: RolePrivs, parents: Graph) returns (result: map<string, string>)
    ensures SearchedPrivs(parents, rolePrivs, roles, 100, result)
  {
    ghost var seeds := Elements(roles);
    result := map[];
    var visited: set<string> := {};
    var queue := SelfTag(roles);
    ghost var s := Start(roles);
    StartInv(parents, roles);
    while queue != [] && |visited| < 100
      invariant queue == s.queue && visited == s.dist.Keys && |visited| <= 100
      invariant Climbed(parents, seeds, rolePrivs, s, result)
      decreases 100 - |visited|, |queue|
    {
      var (role, origin) := queue[0];
      queue := queue[1..];
      if role in visited {
        SkipInv(parents, seeds, s);
        s := Skip(s);
        continue;
      }
      ghost var before := result;
      result := Credit(result, rolePrivs, role, origin);
      ClimbOn(parents, seeds, rolePrivs, s, before, result);
      OneMore(visited, role);
      visited := visited + {role};
      queue := queue + Tag(Next(parents, role), origin);
      s := Visit(s, Next(parents, role));
    }
    SearchChain(parents, seeds, s, 100);
  }

  ghost predicate Climbed(
      g: Graph, seeds: set<string>, rolePrivs: RolePrivs, s: Search, result: map<string, string>)
  {
    Inv(g, seeds, s) && CreditedBy(g, seeds, rolePrivs, s.origin, result)
  }

  lemma ClimbOn(
      g: Graph, seeds: set<string>, rolePrivs: RolePrivs, s: Search,
      before: map<string, string>, after: map<string, string>)
    requires Climbed(g, seeds, rolePrivs, s, before) && s.queue != [] && s.queue[0].0 !in s.dist
    requires after.Keys == before.Keys + Own(rolePrivs, s.queue[0].0)
    requires forall x :: x in after ==> after[x] == if x in before then before[x] else s.queue[0].1
    ensures Climbed(g, seeds, rolePrivs, Visit(s, Next(g, s.queue[0].0)), after)
  {
    VisitInv(g, seeds, s, Next(g, s.queue[0].0));
    CreditVisited(g, seeds, rolePrivs, s, before, after);
  }

  lemma CreditVisited(
      g: Graph, seeds: set<string>, rolePrivs: RolePrivs, s: Search,
      before: map<string, string>, after: map<string, string>)
    requires Inv(g, seeds, s) && s.queue != [] && s.queue[0].0 !in s.dist
    requires CreditedBy(g, seeds, rolePrivs, s.origin, before)
    requires after.Keys == before.Keys + Own(rolePrivs, s.queue[0].0)
    requires forall x :: x in after ==> after[x] == if x in before then before[x] else s.queue[0].1
    ensures CreditedBy(g, seeds, rolePrivs, s.origin[s.queue[0].0 := s.queue[0].1], after)
  {
    var (role, origin) := s.queue[0];
    var more := s.origin[role := origin];
    forall x | x in after
      ensures exists a :: NearestHolder(g, seeds, rolePrivs, more, a, x) && after[x] == more[a]
    {
      if x in before {
        var a :| NearestHolder(g, seeds, rolePrivs, s.origin, a, x) && before[x] == s.origin[a];
        SearchNearest(g, seeds, s, a, role);
        StillNearest(g, seeds, rolePrivs, s.origin, role, origin, a, x);
      } else {
        FirstNearest(g, seeds, rolePrivs, s.origin, before, role, origin, x);
      }
    }
    forall x, a | HeldAt(rolePrivs, more, a, x) ensures x in after {
      if a != role {
        assert HeldAt(rolePrivs, s.origin, a, x);
      }
    }
  }

  lemma StillNearest(
      g: Graph, seeds: set<string>, rolePrivs: RolePrivs, searched: map<string, string>,
      role: string, origin: string, a: string, x: string)
    requires NearestHolder(g, seeds, rolePrivs, searched, a, x) && NoFarther(g, seeds, a, role)
    ensures NearestHolder(g, seeds, rolePrivs, searched[role := origin], a, x)
  {
    var more := searched[role := origin];
    forall b | HeldAt(rolePrivs, more, b, x) && b != a ensures NoFarther(g, seeds, a, b) {
      if b != role {
        assert HeldAt(rolePrivs, searched, b, x);
      }
    }
  }

  lemma FirstNearest(
      g: Graph, seeds: set<string>, rolePrivs: RolePrivs, searched: map<string, string>,
      before: map<string, string>, role: string, origin: string, x: string)
    requires CreditedBy(g, seeds, rolePrivs, searched, before) && x !in before && x in Own(rolePrivs, role)
    ensures NearestHolder(g, seeds, rolePrivs, searched[role := origin], role, x)
  {
    var more := searched[role := origin];
    forall b | HeldAt(rolePrivs, more, b, x) ensures b == role {
      assert b != role ==> HeldAt(rolePrivs, searched, b, x);
    }
  }

  lemma SearchedOne(
      g: Graph, rolePrivs: RolePrivs, roles: seq<string>, cap: nat, origin: map<string, string>, a: string, x: string)
    requires NearestChain(g, Elements(roles), cap, origin) && HeldAt(rolePrivs, origin, a, x)
    ensures CreditedUpward(g, rolePrivs, roles, x, origin[a])
  {
    assert NearestSeed(g, Elements(roles), a, origin[a]);
  }

  lemma CreditedReached(g: Graph, rolePrivs: RolePrivs, roles: seq<string>, x: string, source: string)
    requires CreditedUpward(g, rolePrivs, roles, x, source)
    ensures ReachedPriv(g, rolePrivs, roles, x)
  {
    var a :| Reaches(g, source, a) && x in Own(rolePrivs, a);
    assert source in Elements(roles) && ReachedFrom(g, Elements(roles), a);
  }

  // With at most `cap` roles to reach, all of them were searched.
  lemma AllSearched(
      g: Graph, rolePrivs: RolePrivs, roles: seq<string>, cap: nat, origin: map<string, string>, x: string)
    requires NearestChain(g, Elements(roles), cap, origin) && |ReachSet(g, Elements(roles))| <= cap
    requires ReachedPriv(g, rolePrivs, roles, x)
    ensures exists a :: HeldAt(rolePrivs, origin, a, x)
  {
    var a :| ReachedFrom(g, Elements(roles), a) && x in Own(rolePrivs, a);
    ReachSetExact(g, Elements(roles));
    assert |origin| == |origin.Keys|;
    SubsetSize(origin.Keys, ReachSet(g, Elements(roles)));
    assert HeldAt(rolePrivs, origin, a, x);
  }

  lemma SearchedSound(
      g: Graph, rolePrivs: RolePrivs, roles: seq<string>, cap: nat, result: map<string, string>, x: string)
    requires SearchedPrivs(g, rolePrivs, roles, cap, result) && x in result
    ensures CreditedUpward(g, rolePrivs, roles, x, result[x])
  {
    var seeds := Elements(roles);
    var origin :| NearestChain(g, seeds, cap, origin) && CreditedBy(g, seeds, rolePrivs, origin, result);
    var a :| NearestHolder(g, seeds, rolePrivs, origin, a, x) && result[x] == origin[a];
    SearchedOne(g, rolePrivs, roles, cap, origin, a, x);
  }

  lemma SearchedAll(
      g: Graph, rolePrivs: RolePrivs, roles: seq<string>, cap: nat, result: map<string, string>, x: string)
    requires SearchedPrivs(g, rolePrivs, roles, cap, result) && |ReachSet(g, Elements(roles))| <= cap
    requires ReachedPriv(g, rolePrivs, roles, x)
    ensures x in result
  {
    var seeds := Elements(roles);
    var origin :| NearestChain(g, seeds, cap, origin) && CreditedBy(g, seeds, rolePrivs, origin, result);
    AllSearched(g, rolePrivs, roles, cap, origin, x);
  }

  // What is found is held by a role reached from the one it is credited to; and when the
  // cap leaves nothing out, everything reached is found.
  lemma SearchedMeaning(
      parents: Graph, rolePrivs: RolePrivs, roles: seq<string>, cap: nat, result: map<string, string>)
    requires SearchedPrivs(parents, rolePrivs, roles, cap, result)
    ensures forall x :: x in result ==> CreditedUpward(parents, rolePrivs, roles, x, result[x])
    ensures |ReachSet(parents, Elements(roles))| <= cap ==>
              forall x :: x in result <==> ReachedPriv(parents, rolePrivs, roles, x)
  {
    forall x | x in result
      ensures CreditedUpward(parents, rolePrivs, roles, x, result[x]) && ReachedPriv(parents, rolePrivs, roles, x)
    {
      SearchedSound(parents, rolePrivs, roles, cap, result, x);
      CreditedReached(parents, rolePrivs, roles, x, result[x]);
    }
    if |ReachSet(parents, Elements(roles))| <= cap {
      forall x | ReachedPriv(parents, rolePrivs, roles, x) ensures x in result {
        SearchedAll(parents, rolePrivs, roles, cap, result, x);
      }
    }
  }

  lemma NothingSearched(parents: Graph, rolePrivs: RolePrivs, cap: nat)
    ensures SearchedPrivs(parents, rolePrivs, [], cap, map[])
  {
    StartInv(parents, []);
    SearchChain(parents, Elements([]), Start([]), cap);
    assert CreditedBy(parents, Elements([]), rolePrivs, Start([]).origin, map[]);
  }

  lemma NoneDirect(rolePrivs: RolePrivs, roles: seq<string>, result: map<string, string>)
    requires DirectPrivs(rolePrivs, roles, result) && result == map[]
    ensures forall r :: r in roles ==> Own(rolePrivs, r) == {}
  {
    forall r | r in roles ensures Own(rolePrivs, r) == {} {
      assert forall x :: x in Own(rolePrivs, r) ==> x in result;
    }
  }

  // `_bfs_user_privs` once the roles of the user and the parent edges are known.
  method BfsUserPrivs(roles: seq<string>, rolePrivs: RolePrivs, parents: Graph)
    returns (result: map<string, string>)
    ensures forall x :: x in result ==> CreditedUpward(parents, rolePrivs, roles, x, result[x])
    // With a privileged role among the user's own, exactly the direct privileges.
    ensures (exists r :: r in roles && Own(rolePrivs, r) != {}) ==> DirectPrivs(rolePrivs, roles, result)
    // Without one, exactly those of the 100 nearest roles.
    ensures (forall r :: r in roles ==> Own(rolePrivs, r) == {}) ==>
              SearchedPrivs(parents, rolePrivs, roles, 100, result)
    // That is everything reached upward, as long as the cap is not exceeded.
    ensures (forall r :: r in roles ==> Own(rolePrivs, r) == {}) && |ReachSet(parents, Elements(roles))| <= 100 ==>
              forall x :: x in result <==> ReachedPriv(parents, rolePrivs, roles, x)
  {
    if roles == [] {
      NothingSearched(parents, rolePrivs, 100);
      SearchedMeaning(parents, rolePrivs, roles, 100, map[]);
      return map[];
    }
    result := FastPath(roles, rolePrivs);
    if result == map[] {
      NoneDirect(rolePrivs, roles, result);
    }
    if result != map[] {
      assert exists x :: x in result;
      forall x | x in result ensures CreditedUpward(parents, rolePrivs, roles, x, result[x]) {
        ReachesSelf(parents, result[x]);
      }
      return;
    }
    result := SlowPath(roles, rolePrivs, parents);
    SearchedMeaning(parents, rolePrivs, roles, 100, result);
  }

  // Once the privileged roles are closed under children, an upward search from the
  // user's roles finds something exactly when one of those roles is itself privileged:
  // neither the early return nor the cap of 100 roles can miss a user.
  lemma FastPathMissesNobody(childrenOf: Graph, parents: Graph, rolePrivs: RolePrivs, roles: seq<string>)
    requires IsInverse(childrenOf, parents) && Closed(childrenOf, rolePrivs.Keys)
    requires forall r :: r in rolePrivs ==> rolePrivs[r] != {}
    ensures (exists x :: ReachedPriv(parents, rolePrivs, roles, x)) <==>
            exists r :: r in roles && r in rolePrivs
  {
    if x :| ReachedPriv(parents, rolePrivs, roles, x) {
      var a :| ReachedFrom(parents, Elements(roles), a) && x in Own(rolePrivs, a);
      var r :| r in Elements(roles) && Reaches(parents, r, a);
      InverseReaches(childrenOf, parents, a, r);
      ClosedReaches(childrenOf, rolePrivs.Keys, a, r);
    }
    if r :| r in roles && r in rolePrivs {
      ReachesSelf(parents, r);
      assert ReachedFrom(parents, Elements(roles), r);
      var x :| x in rolePrivs[r];
      assert x in Own(rolePrivs, r);
      assert ReachedPriv(parents, rolePrivs, roles, x);
    }
  }
}
