/** The role chain of one user: a capped upward search that remembers direct roles. */
module RoleHelpers {
  import opened RoleGraph

  const CHAIN_CAP: nat := 100

  // Every user implicitly has the role public.
  function DirectRoles(granted: seq<string>, includePublic: bool): seq<string> {
    if includePublic && "public" !in granted then granted + ["public"] else granted
  }

  // The roles granted, and public where it is to be included.
  function DirectSet(granted: seq<string>, includePublic: bool): set<string> {
    Elements(granted) + if includePublic then {"public"} else {}
  }

  // The granted roles in their order, and public behind them unless it is among them.
  lemma DirectRolesAre(granted: seq<string>, includePublic: bool)
    ensures Elements(DirectRoles(granted, includePublic)) == DirectSet(granted, includePublic)
    ensures granted <= DirectRoles(granted, includePublic)
    ensures forall i :: |granted| <= i < |DirectRoles(granted, includePublic)| ==>
              i == |granted| && DirectRoles(granted, includePublic)[i] == "public" && "public" !in granted
  {
    var roles := DirectRoles(granted, includePublic);
    forall r ensures r in Elements(roles) <==> r in DirectSet(granted, includePublic) {
      if r in granted {
        assert r in Elements(granted);
      }
    }
  }

  // The loop that queues the parents of one visited role.
  method QueueParents(
      queue: seq<(string, string)>, parents: seq<string>, visited: set<string>, origin: string)
    returns (q: seq<(string, string)>)
    ensures q == queue + Tag(Fresh(parents, visited), origin)
  {
    q := queue;
    for i := 0 to |parents|
      invariant q == queue + Tag(Fresh(parents[..i], visited), origin)
    {
      FreshNext(parents, visited, i);
      if parents[i] !in visited {
        q := q + [(parents[i], origin)];
      }
    }
    assert parents[..|parents|] == parents;
  }

  // The chain holds min(100, reachable) roles, none farther than a role left out, each
  // with a direct role at minimum distance; on cyclic graphs too.
  method BuildRoleChain(granted: seq<string>, includePublic: bool, parentsOf: Graph)
    returns (roleOrigin: map<string, string>)
    ensures NearestChain(parentsOf, DirectSet(granted, includePublic), 100, roleOrigin)
  {
    var directRoles := DirectRoles(granted, includePublic);
    ghost var seeds := Elements(directRoles);
    roleOrigin := map[];
    var visited: set<string> := {};
    var queue := SelfTag(directRoles);
    ghost var s := Start(directRoles);
    StartInv(parentsOf, directRoles);
    while queue != [] && |visited| < CHAIN_CAP
      invariant queue == s.queue && visited == s.dist.Keys && roleOrigin == s.origin
      invariant |visited| <= CHAIN_CAP
      invariant Inv(parentsOf, seeds, s)
      decreases CHAIN_CAP - |visited|, |queue|
    {
      var (role, origin) := queue[0];
      queue := queue[1..];
      if role in visited {
        SkipInv(parentsOf, seeds, s);
        s := Skip(s);
        continue;
      }
      visited := visited + {role};
      roleOrigin := roleOrigin[role := origin];
      queue := QueueParents(queue, Next(parentsOf, role), visited, origin);
      ghost var pushed := Fresh(Next(parentsOf, role), visited);
      ExpandsAll(parentsOf, s, pushed);
      VisitInv(parentsOf, seeds, s, pushed);
      s := Visit(s, pushed);
    }
    SearchChain(parentsOf, seeds, s, CHAIN_CAP);
    DirectRolesAre(granted, includePublic);
  }

  // With at most 100 reachable roles the chain is the whole set of reachable roles.
  lemma UncappedChain(g: Graph, seeds: set<string>, cap: nat, origin: map<string, string>)
    requires NearestChain(g, seeds, cap, origin) && |ReachSet(g, seeds)| <= cap
    ensures forall v :: v in origin <==> ReachedFrom(g, seeds, v)
  {
    SubsetSize(origin.Keys, ReachSet(g, seeds));
    ReachSetExact(g, seeds);
  }
}
