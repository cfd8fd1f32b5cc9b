/**
  The merge tail of the search endpoints: results are deduplicated by path and cut at
  `limit`, once inside the shared catalog search and once more in each router.
 */
module CatalogSearch {
  import opened FirstSeen

  datatype Hit = Hit(name: string, kind: string, catalog: string, database: string, path: string)

  const PATH := (h: Hit) => h.path

  // The limit is tested after each element, so a limit below one still lets the
  // first element through.
  function Cut(limit: int): nat {
    if limit < 1 then 1 else limit
  }

  function Take(hs: seq<Hit>, n: nat): seq<Hit> {
    if |hs| <= n then hs else hs[..n]
  }

  function Merged(results: seq<Hit>, limit: int): seq<Hit> {
    Take(Unique(results, PATH), Cut(limit))
  }

  method MergeTail(results: seq<Hit>, limit: int) returns (unique: seq<Hit>)
    ensures unique == Merged(results, limit)
  {
    var seen: set<string> := {};
    unique := [];
    for i := 0 to |results|
      invariant unique == Unique(results[..i], PATH)
      invariant seen == Keys(results[..i], PATH)
      invariant |unique| < Cut(limit)
    {
      var r := results[i];
      UniqueKeeps(results[..i], PATH);
      assert results[..i + 1] == results[..i] + [r];
      assert results[..i + 1][..i] == results[..i];
      KeysAppend(results[..i], r, PATH);
      if r.path !in seen {
        seen := seen + {r.path};
        unique := unique + [r];
      }
      if |unique| >= limit {
        assert results == results[..i + 1] + results[i + 1..];
        UniqueConcat(results[..i + 1], results[i + 1..], PATH);
        assert |unique| == Cut(limit);
        return;
      }
    }
    assert results[..|results|] == results;
  }

  // What the tail returns: at most the limit of hits - one where it is below one - with
  // pairwise distinct paths; and it stops short of that only when no path is left out.
  lemma MergedMeaning(results: seq<Hit>, limit: int)
    ensures var m := Merged(results, limit);
            && (|m| <= limit || |m| <= 1)
            && (forall i, j :: 0 <= i < j < |m| ==> m[i].path != m[j].path)
            && (forall h :: h in m ==> h in results)
            && (|m| < limit || m == [] ==> forall h :: h in results ==> exists k :: 0 <= k < |m| && m[k].path == h.path)
  {
    var u, m := Unique(results, PATH), Merged(results, limit);
    UniqueKeeps(results, PATH);
    forall i, j | 0 <= i < j < |m| ensures m[i].path != m[j].path {
      assert PATH(u[i]) != PATH(u[j]);
    }
    if |m| < limit || m == [] {
      assert m == u;
      forall h | h in results ensures exists k :: 0 <= k < |m| && m[k].path == h.path {
        HitKept(results, h);
      }
    }
  }

  lemma HitKept(results: seq<Hit>, h: Hit)
    requires h in results
    ensures exists k :: 0 <= k < |Unique(results, PATH)| && Unique(results, PATH)[k].path == h.path
  {
    UniqueKeeps(results, PATH);
    assert PATH(h) in Keys(results, PATH);
    var u := Unique(results, PATH);
    var k :| 0 <= k < |u| && PATH(u[k]) == PATH(h);
    assert u[k].path == h.path;
  }

  // No hit before this one has its path.
  ghost predicate FirstOfPath(results: seq<Hit>, i: int) {
    0 <= i < |results| && forall j :: 0 <= j < i ==> results[j].path != results[i].path
  }

  // The hits returned are the first ones of their paths, in order, and none in between is
  // left out.
  lemma MergedFirst(results: seq<Hit>, limit: int) returns (at: seq<int>)
    ensures PickedAt(results, at, Merged(results, limit))
    ensures forall k :: 0 <= k < |at| ==> FirstOfPath(results, at[k])
    ensures forall i, k :: 0 <= k < |at| && i <= at[k] && FirstOfPath(results, i) ==> i in at
  {
    var all := UniqueFirst(results, PATH);
    forall i ensures FirstOfKey(results, PATH, i) <==> FirstOfPath(results, i) {
    }
    var m := Merged(results, limit);
    at := all[..|m|];
    forall k | 0 <= k < |at| ensures FirstOfPath(results, at[k]) {
      assert all[k] in all;
    }
    forall i, k | 0 <= k < |at| && i <= at[k] && FirstOfPath(results, i) ensures i in at {
      var n :| 0 <= n < |all| && all[n] == i;
      assert n <= k && at[n] == i;
    }
  }

  // Limiting twice loses nothing: a router that merges its own hits with the already
  // deduplicated and cut catalog hits returns what it would return for the full list.
  lemma LimitTwice(own: seq<Hit>, catalog: seq<Hit>, limit: int)
    ensures Merged(own + Merged(catalog, limit), limit) == Merged(own + catalog, limit)
  {
    TakeTwice(own, catalog, PATH, Cut(limit));
  }

  lemma TakeTwice(own: seq<Hit>, catalog: seq<Hit>, key: Hit -> string, n: nat)
    ensures Take(Unique(own + Take(Unique(catalog, key), n), key), n) == Take(Unique(own + catalog, key), n)
  {
    var a, b := Unique(own, key), Unique(catalog, key);
    var c, gone := Take(b, n), Keys(own, key);
    UniqueKeeps(own, key);
    UniqueKeeps(catalog, key);
    UniqueConcat(own, catalog, key);
    UniqueConcat(own, c, key);
    UniqueOfDistinct(c, key);
    if |b| > n {
      WithoutPrefix(b, key, gone, n);
      WithoutCost(c, key, gone);
      KeyCount(a, key);
      SameStart(a, Without(c, key, gone), Without(b, key, gone), n);
    }
  }

  lemma SameStart(a: seq<Hit>, c: seq<Hit>, b: seq<Hit>, n: nat)
    requires c <= b && |a| + |c| >= n
    ensures Take(a + c, n) == Take(a + b, n)
  {
  }

  lemma {:induction false} KeyCount(hs: seq<Hit>, key: Hit -> string)
    ensures |Keys(hs, key)| <= |hs|
  {
    if hs != [] {
      var n := |hs| - 1;
      KeyCount(hs[..n], key);
      assert hs == hs[..n] + [hs[n]];
      KeysAppend(hs[..n], hs[n], key);
    }
  }
}
