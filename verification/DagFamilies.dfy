/** Which placed nodes belong together: parents, their groups, and the rows below them. */
module DagFamilies {
  import opened GrantTypes
  import opened RoleGraph
  import opened DagEdges
  import opened DagBoxes
  import opened DagRows

  // ---------------------------------------------------------------------------
  // Parents and groups

  // An edge leads from p, which is no group, to the group g, and no later edge leads to g
  // from outside the groups.
  ghost predicate LeadsLast(edges: seq<Edge>, groupIds: set<string>, p: string, g: string) {
    g in groupIds && p !in groupIds && exists i :: LastAt(edges, groupIds, p, g, i)
  }

  predicate LastAt(edges: seq<Edge>, groupIds: set<string>, p: string, g: string, i: int) {
    && 0 <= i < |edges| && edges[i].source == p && edges[i].target == g
    && forall j :: i < j < |edges| && edges[j].target == g ==> edges[j].source in groupIds
  }

  // The last such edge decides.
  ghost predicate ParentMap(edges: seq<Edge>, groupIds: set<string>, parentOf: map<string, string>) {
    forall g, p {:trigger LeadsLast(edges, groupIds, p, g)} ::
      g in parentOf && parentOf[g] == p <==> LeadsLast(edges, groupIds, p, g)
  }

  // What one more edge changes.
  lemma LeadsNext(edges: seq<Edge>, groupIds: set<string>, e: Edge, p: string, g: string)
    ensures LeadsLast(edges + [e], groupIds, p, g) <==>
            if e.target == g && g in groupIds && e.source !in groupIds then e.source == p
            else LeadsLast(edges, groupIds, p, g)
  {
    var more, n := edges + [e], |edges|;
    assert forall j :: 0 <= j < n ==> more[j] == edges[j];
    if i :| LastAt(edges, groupIds, p, g, i) {
      assert more[i] == edges[i] && more[n] == e;
      if e.target != g || e.source in groupIds {
        assert LastAt(more, groupIds, p, g, i);
      }
    }
    if i :| LastAt(more, groupIds, p, g, i) {
      assert more[n] == e;
      if i < n {
        assert LastAt(edges, groupIds, p, g, i);
      }
    }
    if e.target == g && e.source == p {
      assert LastAt(more, groupIds, p, g, n);
    }
  }

  lemma ParentsNext(edges: seq<Edge>, groupIds: set<string>, e: Edge, parentOf: map<string, string>)
    requires ParentMap(edges, groupIds, parentOf)
    ensures var more := if e.target in groupIds && e.source !in groupIds then parentOf[e.target := e.source]
                        else parentOf;
            ParentMap(edges + [e], groupIds, more)
  {
    forall g, p ensures LeadsLast(edges + [e], groupIds, p, g) <==>
                        if e.target == g && g in groupIds && e.source !in groupIds then e.source == p
                        else LeadsLast(edges, groupIds, p, g)
    {
      LeadsNext(edges, groupIds, e, p, g);
    }
  }

  method GroupParents(edges: seq<Edge>, groupIds: set<string>) returns (parentOf: map<string, string>)
    ensures ParentMap(edges, groupIds, parentOf)
  {
    parentOf := map[];
    for i := 0 to |edges|
      invariant ParentMap(edges[..i], groupIds, parentOf)
    {
      var e := edges[i];
      ParentsNext(edges[..i], groupIds, e, parentOf);
      assert edges[..i + 1] == edges[..i] + [e];
      if e.target in groupIds && e.source !in groupIds {
        parentOf := parentOf[e.target := e.source];
      }
    }
    assert edges[..|edges|] == edges;
  }

  // p is a group whose parent is `key`; an empty key counts as none.
  predicate ChildOf(p: PlacedNode, parentOf: map<string, string>, key: string) {
    p.isGroup && p.id in parentOf && parentOf[p.id] == key && key != ""
  }

  // The groups of a parent, in order.
  function Children(placed: seq<PlacedNode>, parentOf: map<string, string>, key: string): seq<PlacedNode> {
    if placed == [] then []
    else
      var n := |placed| - 1;
      Children(placed[..n], parentOf, key) + if ChildOf(placed[n], parentOf, key) then [placed[n]] else []
  }

  lemma {:induction false} ChildMember(
      placed: seq<PlacedNode>, parentOf: map<string, string>, key: string, p: PlacedNode)
    ensures p in Children(placed, parentOf, key) <==> p in placed && ChildOf(p, parentOf, key)
  {
    if placed != [] {
      var n := |placed| - 1;
      ChildMember(placed[..n], parentOf, key, p);
      assert placed == placed[..n] + [placed[n]];
    }
  }

  lemma OnceMore(ms: seq<PlacedNode>, p: PlacedNode)
    requires Once(ms) && p !in ms
    ensures Once(ms + [p])
  {
  }

  lemma OnceLess(ms: seq<PlacedNode>, n: nat)
    requires Once(ms) && n < |ms|
    ensures Once(ms[..n]) && ms[n] !in ms[..n]
  {
  }

  lemma {:induction false} ChildrenOnce(placed: seq<PlacedNode>, parentOf: map<string, string>, key: string)
    requires Once(placed)
    ensures Once(Children(placed, parentOf, key))
  {
    if placed != [] {
      var n := |placed| - 1;
      OnceLess(placed, n);
      ChildrenOnce(placed[..n], parentOf, key);
      ChildMember(placed[..n], parentOf, key, placed[n]);
      OnceMore(Children(placed[..n], parentOf, key), placed[n]);
    }
  }

  lemma ChildrenMembers(placed: seq<PlacedNode>, parentOf: map<string, string>, key: string)
    requires Once(placed)
    ensures var cs := Children(placed, parentOf, key);
            && Once(cs)
            && (forall i :: 0 <= i < |cs| ==> cs[i] in placed && ChildOf(cs[i], parentOf, key))
            && forall i :: 0 <= i < |placed| && ChildOf(placed[i], parentOf, key) ==> placed[i] in cs
  {
    ChildrenOnce(placed, parentOf, key);
    forall p ensures p in Children(placed, parentOf, key) <==> p in placed && ChildOf(p, parentOf, key) {
      ChildMember(placed, parentOf, key, p);
    }
  }

  function Listed(siblings: map<string, seq<PlacedNode>>, key: string): seq<PlacedNode> {
    if key in siblings then siblings[key] else []
  }

  ghost predicate AllListed(
      placed: seq<PlacedNode>, parentOf: map<string, string>, siblings: map<string, seq<PlacedNode>>)
  {
    forall k {:trigger Listed(siblings, k)} :: Listed(siblings, k) == Children(placed, parentOf, k)
  }

  // Keys in order of first mention, and the groups of each.
  ghost predicate Grouped(
      placed: seq<PlacedNode>, parentOf: map<string, string>, keys: seq<string>, siblings: map<string, seq<PlacedNode>>)
  {
    && NoRepeats(keys) && Elements(keys) == siblings.Keys && AllListed(placed, parentOf, siblings)
    && SomeEach(siblings)
  }

  ghost predicate SomeEach(siblings: map<string, seq<PlacedNode>>) {
    forall k :: k in siblings ==> siblings[k] != []
  }

  lemma ChildrenNext(placed: seq<PlacedNode>, i: nat, parentOf: map<string, string>, key: string)
    requires i < |placed|
    ensures Children(placed[..i + 1], parentOf, key) ==
            Children(placed[..i], parentOf, key) + if ChildOf(placed[i], parentOf, key) then [placed[i]] else []
  {
    assert placed[..i + 1][..i] == placed[..i];
  }

  lemma AllListedNext(
      placed: seq<PlacedNode>, i: nat, parentOf: map<string, string>, siblings: map<string, seq<PlacedNode>>,
      key: string)
    requires i < |placed| && ChildOf(placed[i], parentOf, key) && AllListed(placed[..i], parentOf, siblings)
    ensures AllListed(placed[..i + 1], parentOf, siblings[key := Listed(siblings, key) + [placed[i]]])
  {
    var more := siblings[key := Listed(siblings, key) + [placed[i]]];
    forall k ensures Listed(more, k) == Children(placed[..i + 1], parentOf, k) {
      ListedNext(placed, i, parentOf, siblings, key, k);
    }
  }

  lemma KeysNext(keys: seq<string>, known: set<string>, key: string)
    requires NoRepeats(keys) && Elements(keys) == known
    ensures var next := if key in known then keys else keys + [key];
            NoRepeats(next) && Elements(next) == known + {key}
  {
    ElementsAppend(keys, key);
    if key !in known {
      assert key !in Elements(keys);
    }
  }

  lemma ListedNext(
      placed: seq<PlacedNode>, i: nat, parentOf: map<string, string>, siblings: map<string, seq<PlacedNode>>,
      key: string, k: string)
    requires i < |placed| && ChildOf(placed[i], parentOf, key)
    requires Listed(siblings, k) == Children(placed[..i], parentOf, k)
    ensures Listed(siblings[key := Listed(siblings, key) + [placed[i]]], k) == Children(placed[..i + 1], parentOf, k)
  {
    ChildrenNext(placed, i, parentOf, k);
  }

  lemma AllListedSame(
      placed: seq<PlacedNode>, i: nat, parentOf: map<string, string>, siblings: map<string, seq<PlacedNode>>)
    requires i < |placed| && AllListed(placed[..i], parentOf, siblings)
    requires forall k :: !ChildOf(placed[i], parentOf, k)
    ensures AllListed(placed[..i + 1], parentOf, siblings)
  {
    forall k ensures Listed(siblings, k) == Children(placed[..i + 1], parentOf, k) {
      ChildrenNext(placed, i, parentOf, k);
    }
  }

  lemma SomeMore(siblings: map<string, seq<PlacedNode>>, key: string, p: PlacedNode)
    requires SomeEach(siblings)
    ensures SomeEach(siblings[key := Listed(siblings, key) + [p]])
  {
  }

  method SiblingsByParent(placed: seq<PlacedNode>, parentOf: map<string, string>)
    returns (keys: seq<string>, siblings: map<string, seq<PlacedNode>>)
    ensures Grouped(placed, parentOf, keys, siblings)
  {
    keys, siblings := [], map[];
    for i := 0 to |placed|
      invariant NoRepeats(keys) && Elements(keys) == siblings.Keys
      invariant AllListed(placed[..i], parentOf, siblings)
      invariant SomeEach(siblings)
    {
      var p := placed[i];
      if !p.isGroup || p.id !in parentOf || parentOf[p.id] == "" {
        AllListedSame(placed, i, parentOf, siblings);
        continue;
      }
      var key := parentOf[p.id];
      AllListedNext(placed, i, parentOf, siblings, key);
      KeysNext(keys, siblings.Keys, key);
      SomeMore(siblings, key, p);
      if key !in siblings {
        keys := keys + [key];
      }
      siblings := siblings[key := Listed(siblings, key) + [p]];
    }
    assert placed[..|placed|] == placed;
  }

  // placed.find((p) => p.id === id)
  method Find(placed: seq<PlacedNode>, id: string) returns (found: Option<PlacedNode>)
    ensures found.Some? ==> found.value in placed && found.value.id == id
    ensures found.None? ==> forall i :: 0 <= i < |placed| ==> placed[i].id != id
  {
    for i := 0 to |placed|
      invariant forall k :: 0 <= k < i ==> placed[k].id != id
    {
      if placed[i].id == id {
        return Some(placed[i]);
      }
    }
    found := None;
  }

  // ---------------------------------------------------------------------------
  // Families

  // A placed parent and its groups.
  datatype Family = Family(parent: PlacedNode, groups: seq<PlacedNode>)

  ghost predicate Kindred(placed: seq<PlacedNode>, parentOf: map<string, string>, f: Family) {
    && f.parent in placed && !f.parent.isGroup && Once(f.groups)
    && forall i :: 0 <= i < |f.groups| ==> f.groups[i] in placed && ChildOf(f.groups[i], parentOf, f.parent.id)
  }

  ghost predicate Families(placed: seq<PlacedNode>, parentOf: map<string, string>, fs: seq<Family>) {
    && (forall i :: 0 <= i < |fs| ==> Kindred(placed, parentOf, fs[i]))
    && forall i, j :: 0 <= i < j < |fs| ==> fs[i].parent.id != fs[j].parent.id
  }

  // What the layout is given: every id once, groups marked as such, and no parent a group.
  ghost predicate WellFormed(placed: seq<PlacedNode>, groupIds: set<string>) {
    && (forall i, j :: 0 <= i < j < |placed| ==> placed[i].id != placed[j].id)
    && forall i :: 0 <= i < |placed| ==> (placed[i].isGroup <==> placed[i].id in groupIds)
  }

  lemma FamilyKindred(
      placed: seq<PlacedNode>, edges: seq<Edge>, groupIds: set<string>, parentOf: map<string, string>,
      parent: PlacedNode)
    requires WellFormed(placed, groupIds) && ParentMap(edges, groupIds, parentOf)
    requires parent in placed && Children(placed, parentOf, parent.id) != []
    ensures Kindred(placed, parentOf, Family(parent, Children(placed, parentOf, parent.id)))
  {
    var groups := Children(placed, parentOf, parent.id);
    ChildrenMembers(placed, parentOf, parent.id);
    var g := groups[0];
    assert ChildOf(g, parentOf, parent.id);
    assert LeadsLast(edges, groupIds, parent.id, g.id);
  }

  // Every group whose parent is placed is in the family of that parent.
  ghost predicate AllChildren(
      placed: seq<PlacedNode>, parentOf: map<string, string>, keys: seq<string>, fs: seq<Family>)
  {
    forall p, q :: p in placed && q in placed && q.id in keys && ChildOf(p, parentOf, q.id) ==>
      InFamily(fs, p, q.id)
  }

  predicate InFamily(fs: seq<Family>, p: PlacedNode, key: string) {
    exists i :: 0 <= i < |fs| && fs[i].parent.id == key && p in fs[i].groups
  }

  lemma InMoreFamilies(fs: seq<Family>, f: Family, p: PlacedNode, key: string)
    ensures InFamily(fs, p, key) || (f.parent.id == key && p in f.groups) ==> InFamily(fs + [f], p, key)
  {
    var more := fs + [f];
    assert more[|fs|] == f;
    if i :| 0 <= i < |fs| && fs[i].parent.id == key && p in fs[i].groups {
      assert more[i] == fs[i];
    }
  }

  // The families of the keys dealt with so far.
  ghost predicate FamiliesSoFar(
      placed: seq<PlacedNode>, parentOf: map<string, string>, done: seq<string>, fs: seq<Family>)
  {
    && Families(placed, parentOf, fs) && AllChildren(placed, parentOf, done, fs)
    && forall i :: 0 <= i < |fs| ==> fs[i].parent.id in done
  }

  lemma FamilyAdded(
      placed: seq<PlacedNode>, parentOf: map<string, string>, done: seq<string>, fs: seq<Family>, f: Family)
    requires FamiliesSoFar(placed, parentOf, done, fs) && Once(placed) && f.parent.id !in done
    requires Kindred(placed, parentOf, f) && f.groups == Children(placed, parentOf, f.parent.id)
    ensures FamiliesSoFar(placed, parentOf, done + [f.parent.id], fs + [f])
  {
    var key := f.parent.id;
    ChildrenMembers(placed, parentOf, key);
    forall p, q | p in placed && q in placed && q.id in done + [key] && ChildOf(p, parentOf, q.id)
      ensures InFamily(fs + [f], p, q.id)
    {
      InMoreFamilies(fs, f, p, q.id);
    }
  }

  lemma FamilyMissing(
      placed: seq<PlacedNode>, parentOf: map<string, string>, done: seq<string>, fs: seq<Family>, key: string)
    requires FamiliesSoFar(placed, parentOf, done, fs)
    requires forall i :: 0 <= i < |placed| ==> placed[i].id != key
    ensures FamiliesSoFar(placed, parentOf, done + [key], fs)
  {
    forall p, q | p in placed && q in placed && q.id in done + [key] && ChildOf(p, parentOf, q.id)
      ensures InFamily(fs, p, q.id)
    {
      assert q.id in done;
    }
  }

  lemma NextKey(keys: seq<string>, k: nat)
    requires NoRepeats(keys) && k < |keys|
    ensures keys[k] !in keys[..k] && keys[..k + 1] == keys[..k] + [keys[k]]
  {
  }

  lemma ListedChildren(
      placed: seq<PlacedNode>, parentOf: map<string, string>, keys: seq<string>,
      siblings: map<string, seq<PlacedNode>>, key: string)
    requires Grouped(placed, parentOf, keys, siblings) && key in keys
    ensures key in siblings && siblings[key] == Children(placed, parentOf, key) && siblings[key] != []
  {
    assert key in Elements(keys);
    assert Listed(siblings, key) == Children(placed, parentOf, key);
  }

  method FindFamilies(
      placed: seq<PlacedNode>, keys: seq<string>, siblings: map<string, seq<PlacedNode>>,
      ghost edges: seq<Edge>, ghost groupIds: set<string>, ghost parentOf: map<string, string>)
    returns (fs: seq<Family>)
    requires WellFormed(placed, groupIds) && ParentMap(edges, groupIds, parentOf)
    requires Grouped(placed, parentOf, keys, siblings)
    ensures Families(placed, parentOf, fs) && AllChildren(placed, parentOf, keys, fs)
  {
    fs := [];
    for k := 0 to |keys|
      invariant FamiliesSoFar(placed, parentOf, keys[..k], fs)
    {
      var key := keys[k];
      NextKey(keys, k);
      ListedChildren(placed, parentOf, keys, siblings, key);
      var parent := Find(placed, key);
      if parent.None? {
        FamilyMissing(placed, parentOf, keys[..k], fs, key);
        continue;
      }
      FamilyKindred(placed, edges, groupIds, parentOf, parent.value);
      FamilyAdded(placed, parentOf, keys[..k], fs, Family(parent.value, siblings[key]));
      fs := fs + [Family(parent.value, siblings[key])];
    }
    assert keys[..|keys|] == keys;
  }

  // ---------------------------------------------------------------------------
  // Rows

  ghost predicate Rowed(f: Family)
    reads f.parent, f.groups
  {
    InRow(f.parent.Area(), Areas(f.groups))
  }

  // The same parents, their groups in another order.
  ghost predicate Reordered(fs: seq<Family>, rows: seq<Family>) {
    && |rows| == |fs|
    && forall i :: 0 <= i < |fs| ==> rows[i].parent == fs[i].parent && Rearranged(fs[i].groups, rows[i].groups)
  }

  lemma RowKindred(placed: seq<PlacedNode>, parentOf: map<string, string>, f: Family, row: seq<PlacedNode>)
    requires Kindred(placed, parentOf, f) && Rearranged(f.groups, row)
    ensures Kindred(placed, parentOf, Family(f.parent, row))
  {
  }

  lemma ReorderedNext(
      placed: seq<PlacedNode>, parentOf: map<string, string>, fs: seq<Family>, rows: seq<Family>, i: nat,
      row: seq<PlacedNode>)
    requires i < |fs| && Families(placed, parentOf, fs) && Reordered(fs[..i], rows)
    requires Rearranged(fs[i].groups, row)
    ensures Reordered(fs[..i + 1], rows + [Family(fs[i].parent, row)])
    ensures Families(placed, parentOf, rows + [Family(fs[i].parent, row)])
  {
    var more := rows + [Family(fs[i].parent, row)];
    forall k | 0 <= k <= i
      ensures more[k].parent == fs[k].parent && Rearranged(fs[k].groups, more[k].groups)
    {
      assert k < i ==> fs[..i][k] == fs[k];
    }
    forall k | 0 <= k <= i ensures Kindred(placed, parentOf, more[k]) {
      RowKindred(placed, parentOf, fs[k], more[k].groups);
    }
  }

  // A node of one family is no group of another.
  lemma OtherFamily(placed: seq<PlacedNode>, parentOf: map<string, string>, f: Family, g: Family)
    requires Kindred(placed, parentOf, f) && Kindred(placed, parentOf, g) && f.parent.id != g.parent.id
    ensures f.parent !in g.groups && f.parent != g.parent
    ensures forall i :: 0 <= i < |f.groups| ==> f.groups[i] !in g.groups && f.groups[i] != g.parent
  {
  }

  // One row; the rows placed before stay.
  method PlaceNext(placed: seq<PlacedNode>, ghost parentOf: map<string, string>, f: Family, ghost rows: seq<Family>)
    returns (row: seq<PlacedNode>)
    requires Kindred(placed, parentOf, f)
    requires forall k :: 0 <= k < |rows| ==>
               Kindred(placed, parentOf, rows[k]) && rows[k].parent.id != f.parent.id && Rowed(rows[k])
    modifies f.groups
    ensures Rearranged(f.groups, row) && Rowed(Family(f.parent, row))
    ensures forall k :: 0 <= k < |rows| ==> Rowed(rows[k])
    ensures forall k :: 0 <= k < |placed| && !placed[k].isGroup ==> placed[k].Area() == old(placed[k].Area())
  {
    forall k | 0 <= k < |rows|
      ensures rows[k].parent !in f.groups && forall i :: 0 <= i < |rows[k].groups| ==> rows[k].groups[i] !in f.groups
    {
      OtherFamily(placed, parentOf, rows[k], f);
    }
    row := PlaceRow(f.parent, f.groups);
    forall k | 0 <= k < |rows| ensures Rowed(rows[k]) {
      assert rows[k].parent.Area() == old(rows[k].parent.Area());
      assert Areas(rows[k].groups) == old(Areas(rows[k].groups));
    }
  }

  // Parents keep their places; each row ends up below its own.
  method PlaceRows(placed: seq<PlacedNode>, ghost parentOf: map<string, string>, fs: seq<Family>)
    returns (rows: seq<Family>)
    requires Families(placed, parentOf, fs)
    modifies placed
    ensures Reordered(fs, rows) && Families(placed, parentOf, rows)
    ensures forall i :: 0 <= i < |rows| ==> Rowed(rows[i])
    ensures forall i :: 0 <= i < |placed| && !placed[i].isGroup ==> placed[i].Area() == old(placed[i].Area())
  {
    rows := [];
    for i := 0 to |fs|
      invariant Reordered(fs[..i], rows) && Families(placed, parentOf, rows)
      invariant forall k :: 0 <= k < |rows| ==> Rowed(rows[k])
      invariant forall k :: 0 <= k < |placed| && !placed[k].isGroup ==> placed[k].Area() == old(placed[k].Area())
    {
      NextApart(placed, parentOf, fs, i, rows);
      var row := PlaceNext(placed, parentOf, fs[i], rows);
      ReorderedNext(placed, parentOf, fs, rows, i, row);
      rows := rows + [Family(fs[i].parent, row)];
    }
    assert fs[..|fs|] == fs;
  }

  lemma NextApart(
      placed: seq<PlacedNode>, parentOf: map<string, string>, fs: seq<Family>, i: nat, rows: seq<Family>)
    requires Families(placed, parentOf, fs) && i < |fs| && Reordered(fs[..i], rows)
    ensures forall k :: 0 <= k < |rows| ==> rows[k].parent.id != fs[i].parent.id
  {
    forall k | 0 <= k < |rows| ensures rows[k].parent.id != fs[i].parent.id {
      assert fs[..i][k] == fs[k];
    }
  }
}
