/** From placed nodes to the final layout: groups below their parents, then clusters pushed apart. */
module DagLayout {
  import opened RoleGraph
  import opened DagEdges
  import opened DagBoxes
  import opened DagPacking
  import opened DagFamilies

  function Kin(f: Family): seq<PlacedNode> {
    [f.parent] + f.groups
  }

  ghost predicate AllSized(placed: seq<PlacedNode>) {
    forall i :: 0 <= i < |placed| ==> placed[i].w >= 0.0 && placed[i].h >= 0.0
  }

  // Where a family and the box around it are.
  ghost function PoseOf(f: Family): Pose
    reads Kin(f)
  {
    Pose(Bounds(Areas(Kin(f))), Areas(Kin(f)))
  }

  lemma PoseTidy(placed: seq<PlacedNode>, parentOf: map<string, string>, f: Family)
    requires Kindred(placed, parentOf, f) && Rowed(f) && AllSized(placed)
    ensures Tidy(PoseOf(f))
  {
    var areas := Areas(Kin(f));
    assert areas[1..] == Areas(f.groups);
    forall m | 0 <= m < |areas| ensures Inside(areas[m], Bounds(areas)) && Sized(areas[m]) {
      BoundsHold(areas, m);
      assert Kin(f)[m] in placed;
    }
  }

  // The bounding box of a family.
  function Enclosing(f: Family): (r: Rect)
    reads Kin(f)
    ensures r == PoseOf(f).area
  {
    Bounds(AreasOf(Kin(f)))
  }

  // The families stand at these poses.
  ghost predicate Posed(
      placed: seq<PlacedNode>, parentOf: map<string, string>, rows: seq<Family>, poses: seq<Pose>)
    requires Families(placed, parentOf, rows)
    reads placed
  {
    |poses| == |rows| && forall i :: 0 <= i < |rows| ==> PoseAt(placed, parentOf, rows[i]) == poses[i]
  }

  ghost function PoseAt(placed: seq<PlacedNode>, parentOf: map<string, string>, f: Family): Pose
    requires Kindred(placed, parentOf, f)
    reads placed
  {
    PoseOf(f)
  }

  lemma PosedAt(
      placed: seq<PlacedNode>, parentOf: map<string, string>, rows: seq<Family>, poses: seq<Pose>, i: nat)
    requires Families(placed, parentOf, rows) && Posed(placed, parentOf, rows, poses) && i < |rows|
    ensures Enclosing(rows[i]) == poses[i].area
  {
    assert PoseAt(placed, parentOf, rows[i]) == poses[i];
  }

  method MeasureOne(
      rows: seq<Family>, ghost placed: seq<PlacedNode>, ghost parentOf: map<string, string>, ghost poses: seq<Pose>,
      i: nat)
    returns (area: Rect)
    requires Families(placed, parentOf, rows) && Posed(placed, parentOf, rows, poses) && i < |rows|
    ensures area == poses[i].area
  {
    area := Enclosing(rows[i]);
    PosedAt(placed, parentOf, rows, poses, i);
  }

  // The bounding boxes of the families.
  method Measure(
      rows: seq<Family>, ghost placed: seq<PlacedNode>, ghost parentOf: map<string, string>, ghost poses: seq<Pose>)
    returns (areas: seq<Rect>)
    requires Families(placed, parentOf, rows) && Posed(placed, parentOf, rows, poses)
    ensures |areas| == |rows| && forall i :: 0 <= i < |rows| ==> areas[i] == poses[i].area
  {
    areas := [];
    for i := 0 to |rows|
      invariant |areas| == i && forall k :: 0 <= k < i ==> areas[k] == poses[k].area
    {
      var area := MeasureOne(rows, placed, parentOf, poses, i);
      areas := areas + [area];
    }
  }

  function AreasOf(ms: seq<PlacedNode>): (r: seq<Rect>)
    reads ms
    ensures r == Areas(ms)
  {
    if ms == [] then [] else AreasOf(ms[..|ms| - 1]) + [ms[|ms| - 1].Area()]
  }

  // The boxes: a cluster per family, then the nodes of no family.
  function BoxList(clusters: seq<ClusterBox>, singles: seq<PlacedNode>): (r: seq<Box>)
    ensures |r| == |clusters| + |singles|
    ensures forall i :: 0 <= i < |r| ==>
              r[i] == if i < |clusters| then Cluster(clusters[i]) else Alone(singles[i - |clusters|])
  {
    seq(|clusters| + |singles|, i requires 0 <= i < |clusters| + |singles| =>
      if i < |clusters| then Cluster(clusters[i]) else Alone(singles[i - |clusters|]))
  }

  predicate Outside(p: PlacedNode, inCluster: set<string>) {
    p.id !in inCluster
  }

  // The nodes outside every cluster.
  function Standalone(placed: seq<PlacedNode>, inCluster: set<string>): seq<PlacedNode> {
    if placed == [] then []
    else
      var n := |placed| - 1;
      Standalone(placed[..n], inCluster) + if Outside(placed[n], inCluster) then [placed[n]] else []
  }

  lemma {:induction false} StandaloneFrom(placed: seq<PlacedNode>, inCluster: set<string>, s: PlacedNode)
    ensures s in Standalone(placed, inCluster) <==> s in placed && Outside(s, inCluster)
  {
    if placed != [] {
      var n := |placed| - 1;
      StandaloneFrom(placed[..n], inCluster, s);
      assert placed == placed[..n] + [placed[n]];
    }
  }

  lemma {:induction false} StandaloneOnce(placed: seq<PlacedNode>, inCluster: set<string>)
    requires Once(placed)
    ensures Once(Standalone(placed, inCluster))
  {
    if placed != [] {
      var n := |placed| - 1;
      StandaloneOnce(placed[..n], inCluster);
      StandaloneFrom(placed[..n], inCluster, placed[n]);
      assert placed[n] !in placed[..n];
    }
  }

  ghost predicate ClustersOf(rows: seq<Family>, clusters: seq<ClusterBox>) {
    && |clusters| == |rows|
    && (forall i :: 0 <= i < |rows| ==> clusters[i].members == Kin(rows[i]))
    && forall i, j :: 0 <= i < j < |rows| ==> clusters[i] != clusters[j]
  }

  lemma ClustersNext(rows: seq<Family>, clusters: seq<ClusterBox>, row: Family, c: ClusterBox)
    requires ClustersOf(rows, clusters) && c.members == Kin(row)
    requires forall i :: 0 <= i < |clusters| ==> clusters[i] != c
    ensures ClustersOf(rows + [row], clusters + [c])
  {
  }

  function Ids(ns: seq<PlacedNode>): set<string> {
    set i | 0 <= i < |ns| :: ns[i].id
  }

  function KinIds(rows: seq<Family>): set<string> {
    if rows == [] then {} else KinIds(rows[..|rows| - 1]) + Ids(Kin(rows[|rows| - 1]))
  }

  lemma NextRow(rows: seq<Family>, i: nat)
    requires i < |rows|
    ensures rows[..i + 1] == rows[..i] + [rows[i]] && KinIds(rows[..i + 1]) == KinIds(rows[..i]) + Ids(Kin(rows[i]))
  {
    assert rows[..i + 1][..i] == rows[..i];
  }

  function RectOf(c: ClusterBox): Rect
    reads c
  {
    Rect(c.x, c.y, c.w, c.h)
  }

  // The clusters lie where the rectangles are.
  ghost predicate PlacedAt(clusters: seq<ClusterBox>, areas: seq<Rect>)
    reads clusters
  {
    |areas| == |clusters| && forall k :: 0 <= k < |clusters| ==> RectOf(clusters[k]) == areas[k]
  }

  lemma PlacedNext(clusters: seq<ClusterBox>, areas: seq<Rect>, c: ClusterBox, area: Rect)
    requires PlacedAt(clusters, areas) && RectOf(c) == area
    ensures PlacedAt(clusters + [c], areas + [area])
  {
  }

  method AddCluster(
      clusters: seq<ClusterBox>, row: Family, area: Rect, ghost done: seq<Family>, ghost spots: seq<Rect>)
    returns (r: seq<ClusterBox>, ghost c: ClusterBox)
    requires ClustersOf(done, clusters) && PlacedAt(clusters, spots)
    ensures ClustersOf(done + [row], r) && PlacedAt(r, spots + [area])
    ensures fresh(c) && r == clusters + [c]
  {
    var made := new ClusterBox(row.parent.id, Kin(row), area.x, area.y, area.w, area.h);
    ClustersNext(done, clusters, row, made);
    PlacedNext(clusters, spots, made, area);
    r, c := clusters + [made], made;
  }

  method MakeClusters(rows: seq<Family>, areas: seq<Rect>) returns (clusters: seq<ClusterBox>, inCluster: set<string>)
    requires |areas| == |rows|
    ensures ClustersOf(rows, clusters) && inCluster == KinIds(rows)
    ensures forall i :: 0 <= i < |clusters| ==> fresh(clusters[i])
    ensures PlacedAt(clusters, areas)
  {
    clusters, inCluster := [], {};
    ghost var done, spots, made: set<ClusterBox> := [], [], {};
    for i := 0 to |rows|
      invariant Boxed(rows, areas, i, done, spots, inCluster)
      invariant ClustersOf(done, clusters) && PlacedAt(clusters, spots)
      invariant fresh(made) && MadeOf(clusters, made)
    {
      BoxedNext(rows, areas, i, done, spots, inCluster);
      ghost var c;
      clusters, c := AddCluster(clusters, rows[i], areas[i], done, spots);
      done, spots, made := done + [rows[i]], spots + [areas[i]], made + {c};
      inCluster := inCluster + Ids(Kin(rows[i]));
    }
    BoxedAll(rows, areas, done, spots, inCluster);
  }

  ghost predicate MadeOf(clusters: seq<ClusterBox>, made: set<ClusterBox>) {
    forall i :: 0 <= i < |clusters| ==> clusters[i] in made
  }

  // The first i families have their boxes.
  ghost predicate Boxed(
      rows: seq<Family>, areas: seq<Rect>, i: nat, done: seq<Family>, spots: seq<Rect>, inCluster: set<string>)
  {
    i <= |rows| == |areas| && done == rows[..i] && spots == areas[..i] && inCluster == KinIds(done)
  }

  lemma BoxedAll(
      rows: seq<Family>, areas: seq<Rect>, done: seq<Family>, spots: seq<Rect>, inCluster: set<string>)
    requires Boxed(rows, areas, |rows|, done, spots, inCluster)
    ensures done == rows && spots == areas && inCluster == KinIds(rows)
  {
    assert rows[..|rows|] == rows && areas[..|areas|] == areas;
  }

  lemma BoxedNext(
      rows: seq<Family>, areas: seq<Rect>, i: nat, done: seq<Family>, spots: seq<Rect>, inCluster: set<string>)
    requires i < |rows| && Boxed(rows, areas, i, done, spots, inCluster)
    ensures Boxed(rows, areas, i + 1, done + [rows[i]], spots + [areas[i]], inCluster + Ids(Kin(rows[i])))
  {
    NextRow(rows, i);
    assert areas[..i + 1] == areas[..i] + [areas[i]];
  }

  // ---------------------------------------------------------------------------
  // Every node in exactly one box

  lemma {:induction false} InKinIds(rows: seq<Family>, i: nat, n: PlacedNode)
    requires i < |rows| && n in Kin(rows[i])
    ensures n.id in KinIds(rows)
  {
    if i < |rows| - 1 {
      InKinIds(rows[..|rows| - 1], i, n);
    }
  }

  lemma {:induction false} FromKinIds(rows: seq<Family>, id: string) returns (i: nat, n: PlacedNode)
    requires id in KinIds(rows)
    ensures i < |rows| && n in Kin(rows[i]) && n.id == id
  {
    var last := |rows| - 1;
    if id in Ids(Kin(rows[last])) {
      i := last;
      var k :| 0 <= k < |Kin(rows[last])| && Kin(rows[last])[k].id == id;
      n := Kin(rows[last])[k];
    } else {
      i, n := FromKinIds(rows[..last], id);
    }
  }

  lemma KinOnce(placed: seq<PlacedNode>, parentOf: map<string, string>, f: Family)
    requires Kindred(placed, parentOf, f)
    ensures Once(Kin(f))
  {
  }

  lemma KinApart(placed: seq<PlacedNode>, parentOf: map<string, string>, f: Family, g: Family, n: PlacedNode)
    requires Kindred(placed, parentOf, f) && Kindred(placed, parentOf, g) && f.parent.id != g.parent.id
    ensures !(n in Kin(f) && n in Kin(g))
  {
    OtherFamily(placed, parentOf, f, g);
    OtherFamily(placed, parentOf, g, f);
  }

  ghost predicate Singles(rows: seq<Family>, singles: seq<PlacedNode>) {
    Once(singles) && forall i :: 0 <= i < |singles| ==> singles[i].id !in KinIds(rows)
  }

  lemma ClustersApart(
      placed: seq<PlacedNode>, parentOf: map<string, string>, rows: seq<Family>, clusters: seq<ClusterBox>,
      i: nat, j: nat)
    requires Families(placed, parentOf, rows) && ClustersOf(rows, clusters) && i < j < |rows|
    ensures Cluster(clusters[i]).Frame() !! Cluster(clusters[j]).Frame()
  {
    var a, b := Cluster(clusters[i]), Cluster(clusters[j]);
    forall o | o in a.Frame() ensures o !in b.Frame() {
      if o is PlacedNode {
        KinApart(placed, parentOf, rows[i], rows[j], o as PlacedNode);
      }
    }
  }

  lemma SingleApart(rows: seq<Family>, clusters: seq<ClusterBox>, i: nat, s: PlacedNode)
    requires ClustersOf(rows, clusters) && i < |rows| && s.id !in KinIds(rows)
    ensures Cluster(clusters[i]).Frame() !! Alone(s).Frame()
  {
    if s in Kin(rows[i]) {
      InKinIds(rows, i, s);
    }
  }

  lemma PackedApart(
      placed: seq<PlacedNode>, parentOf: map<string, string>, rows: seq<Family>, clusters: seq<ClusterBox>,
      singles: seq<PlacedNode>)
    requires Families(placed, parentOf, rows) && ClustersOf(rows, clusters) && Singles(rows, singles)
    ensures Apart(BoxList(clusters, singles))
  {
    var boxes := BoxList(clusters, singles);
    forall i | 0 <= i < |boxes| ensures Once(boxes[i].Members()) {
      if i < |clusters| {
        KinOnce(placed, parentOf, rows[i]);
      }
    }
    forall i, j | 0 <= i < j < |boxes| ensures boxes[i].Frame() !! boxes[j].Frame() {
      PairApart(placed, parentOf, rows, clusters, singles, i, j);
    }
  }

  lemma PairApart(
      placed: seq<PlacedNode>, parentOf: map<string, string>, rows: seq<Family>, clusters: seq<ClusterBox>,
      singles: seq<PlacedNode>, i: nat, j: nat)
    requires Families(placed, parentOf, rows) && ClustersOf(rows, clusters) && Singles(rows, singles)
    requires i < j < |clusters| + |singles|
    ensures var boxes := BoxList(clusters, singles); boxes[i].Frame() !! boxes[j].Frame()
  {
    var n := |clusters|;
    if j < n {
      ClustersApart(placed, parentOf, rows, clusters, i, j);
    } else if i < n {
      SingleApart(rows, clusters, i, singles[j - n]);
    } else {
      assert singles[i - n] != singles[j - n];
    }
  }

  // The member m of box i is the node p.
  ghost predicate Member(boxes: seq<Box>, i: int, m: int, p: PlacedNode) {
    0 <= i < |boxes| && 0 <= m < |boxes[i].Members()| && boxes[i].Members()[m] == p
  }

  // Every placed node is in a box.
  lemma InSomeBox(
      placed: seq<PlacedNode>, groupIds: set<string>, parentOf: map<string, string>, rows: seq<Family>,
      clusters: seq<ClusterBox>, p: PlacedNode)
    returns (i: nat, m: nat)
    requires WellFormed(placed, groupIds) && Families(placed, parentOf, rows) && ClustersOf(rows, clusters)
    requires p in placed
    ensures Member(BoxList(clusters, Standalone(placed, KinIds(rows))), i, m, p)
  {
    var singles := Standalone(placed, KinIds(rows));
    if p.id in KinIds(rows) {
      var n;
      i, n := FromKinIds(rows, p.id);
      assert n in placed;
      SameId(placed, groupIds, n, p);
      m :| m < |Kin(rows[i])| && Kin(rows[i])[m] == n;
    } else {
      StandaloneFrom(placed, KinIds(rows), p);
      var k :| 0 <= k < |singles| && singles[k] == p;
      i, m := |clusters| + k, 0;
    }
  }

  lemma SamePlace(placed: seq<PlacedNode>, groupIds: set<string>, i: nat, j: nat)
    requires WellFormed(placed, groupIds) && i < |placed| && j < |placed|
    ensures placed[i].id == placed[j].id ==> i == j
  {
  }

  lemma SameId(placed: seq<PlacedNode>, groupIds: set<string>, p: PlacedNode, q: PlacedNode)
    requires WellFormed(placed, groupIds) && p in placed && q in placed && p.id == q.id
    ensures p == q
  {
    var i :| 0 <= i < |placed| && placed[i] == p;
    var j :| 0 <= j < |placed| && placed[j] == q;
    SamePlace(placed, groupIds, i, j);
  }

  lemma SingleTidy(s: PlacedNode)
    requires s.w >= 0.0 && s.h >= 0.0
    ensures Tidy(Alone(s).Stance())
  {
  }

  lemma PackedTidy(clusters: seq<ClusterBox>, poses: seq<Pose>, singles: seq<PlacedNode>)
    requires |poses| == |clusters| && forall i :: 0 <= i < |clusters| ==> Cluster(clusters[i]).Stance() == poses[i]
    requires forall i :: 0 <= i < |poses| ==> Tidy(poses[i])
    requires forall i :: 0 <= i < |singles| ==> singles[i].w >= 0.0 && singles[i].h >= 0.0
    ensures forall i :: 0 <= i < |BoxList(clusters, singles)| ==> Tidy(Poses(BoxList(clusters, singles))[i])
  {
    var boxes := BoxList(clusters, singles);
    forall i | 0 <= i < |boxes| ensures Tidy(boxes[i].Stance()) {
      if i < |clusters| {
        assert boxes[i].Stance() == poses[i];
      } else {
        SingleTidy(singles[i - |clusters|]);
      }
    }
  }

  // ---------------------------------------------------------------------------
  // The whole layout

  ghost predicate Packed(
      placed: seq<PlacedNode>, parentOf: map<string, string>, rows: seq<Family>, clusters: seq<ClusterBox>,
      boxes: seq<Box>)
  {
    && Families(placed, parentOf, rows) && ClustersOf(rows, clusters)
    && boxes == BoxList(clusters, Standalone(placed, KinIds(rows)))
  }

  lemma PlacedOnce(placed: seq<PlacedNode>, groupIds: set<string>)
    requires WellFormed(placed, groupIds)
    ensures Once(placed)
  {
  }

  lemma PackedSingles(placed: seq<PlacedNode>, groupIds: set<string>, rows: seq<Family>)
    requires WellFormed(placed, groupIds)
    ensures var singles := Standalone(placed, KinIds(rows));
            Singles(rows, singles) && forall i :: 0 <= i < |singles| ==> singles[i] in placed
  {
    var singles := Standalone(placed, KinIds(rows));
    PlacedOnce(placed, groupIds);
    StandaloneOnce(placed, KinIds(rows));
    forall i | 0 <= i < |singles| ensures singles[i] in placed && singles[i].id !in KinIds(rows) {
      StandaloneFrom(placed, KinIds(rows), singles[i]);
    }
  }

  // The nodes of the boxes are the placed ones.
  lemma PackedFrame(
      placed: seq<PlacedNode>, groupIds: set<string>, parentOf: map<string, string>, rows: seq<Family>,
      clusters: seq<ClusterBox>, boxes: seq<Box>, o: object)
    requires WellFormed(placed, groupIds) && Packed(placed, parentOf, rows, clusters, boxes) && o in FrameOf(boxes)
    ensures o in placed || o in clusters
  {
    var i :| 0 <= i < |boxes| && o in boxes[i].Frame();
    if i < |clusters| {
      ClusterFrame(placed, parentOf, rows, clusters, i, o);
    } else {
      PackedSingles(placed, groupIds, rows);
    }
  }

  lemma ClusterFrame(
      placed: seq<PlacedNode>, parentOf: map<string, string>, rows: seq<Family>, clusters: seq<ClusterBox>, i: nat,
      o: object)
    requires Families(placed, parentOf, rows) && ClustersOf(rows, clusters) && i < |rows|
    requires o in Cluster(clusters[i]).Frame()
    ensures o in placed || o in clusters
  {
    if o != clusters[i] {
      var k :| 0 <= k < |Kin(rows[i])| && Kin(rows[i])[k] == o;
      assert Kin(rows[i])[k] in placed;
    }
  }

  // From the boxes to the nodes: no clash means that any two nodes are clear.
  lemma NodesClear(
      placed: seq<PlacedNode>, groupIds: set<string>, parentOf: map<string, string>, rows: seq<Family>,
      clusters: seq<ClusterBox>, boxes: seq<Box>, p: PlacedNode, q: PlacedNode)
    requires WellFormed(placed, groupIds) && Packed(placed, parentOf, rows, clusters, boxes)
    requires ClashFree(Poses(boxes)) && forall i :: 0 <= i < |boxes| ==> Tidy(Poses(boxes)[i])
    requires p in placed && q in placed && p != q
    ensures Clear(p.Area(), q.Area())
  {
    var i, m := InSomeBox(placed, groupIds, parentOf, rows, clusters, p);
    var j, n := InSomeBox(placed, groupIds, parentOf, rows, clusters, q);
    assert Poses(boxes)[i].members[m] == p.Area();
    assert Poses(boxes)[j].members[n] == q.Area();
    AllClear(Poses(boxes), i, m, j, n);
  }

  lemma RowStays(f: Family, c: ClusterBox)
    requires c.members == Kin(f) && Tidy(Cluster(c).Stance())
    ensures Rowed(f)
  {
    assert Areas(Kin(f))[1..] == Areas(f.groups);
  }

  lemma FamiliesTidy(placed: seq<PlacedNode>, parentOf: map<string, string>, rows: seq<Family>)
    returns (poses: seq<Pose>)
    requires Families(placed, parentOf, rows) && AllSized(placed)
    requires forall i :: 0 <= i < |rows| ==> Rowed(rows[i])
    ensures |poses| == |rows| && forall i :: 0 <= i < |rows| ==> PoseOf(rows[i]) == poses[i] && Tidy(poses[i])
  {
    poses := [];
    for k := 0 to |rows|
      invariant |poses| == k && forall i :: 0 <= i < k ==> PoseOf(rows[i]) == poses[i] && Tidy(poses[i])
    {
      PoseTidy(placed, parentOf, rows[k]);
      poses := poses + [PoseOf(rows[k])];
    }
  }

  lemma StandsThere(
      placed: seq<PlacedNode>, parentOf: map<string, string>, rows: seq<Family>, poses: seq<Pose>,
      clusters: seq<ClusterBox>, areas: seq<Rect>, i: nat)
    requires Families(placed, parentOf, rows) && Posed(placed, parentOf, rows, poses)
    requires ClustersOf(rows, clusters) && PlacedAt(clusters, areas) && i < |rows| && areas[i] == poses[i].area
    ensures Cluster(clusters[i]).Stance() == poses[i]
  {
    assert PoseAt(placed, parentOf, rows[i]) == poses[i] && RectOf(clusters[i]) == areas[i];
  }

  // The cluster boxes stand where the families do.
  method BoxFamilies(
      rows: seq<Family>, ghost placed: seq<PlacedNode>, ghost parentOf: map<string, string>, ghost poses: seq<Pose>)
    returns (clusters: seq<ClusterBox>, inCluster: set<string>)
    requires Families(placed, parentOf, rows) && Posed(placed, parentOf, rows, poses)
    ensures ClustersOf(rows, clusters) && inCluster == KinIds(rows)
    ensures forall i :: 0 <= i < |clusters| ==> fresh(clusters[i])
    ensures forall i :: 0 <= i < |clusters| ==> Cluster(clusters[i]).Stance() == poses[i]
  {
    var areas := Measure(rows, placed, parentOf, poses);
    clusters, inCluster := MakeClusters(rows, areas);
    forall i | 0 <= i < |rows| ensures Cluster(clusters[i]).Stance() == poses[i] {
      StandsThere(placed, parentOf, rows, poses, clusters, areas, i);
    }
  }

  lemma PackedWell(
      placed: seq<PlacedNode>, groupIds: set<string>, parentOf: map<string, string>, rows: seq<Family>,
      clusters: seq<ClusterBox>)
    requires WellFormed(placed, groupIds) && AllSized(placed)
    requires Families(placed, parentOf, rows) && ClustersOf(rows, clusters)
    ensures var singles := Standalone(placed, KinIds(rows));
            && Packed(placed, parentOf, rows, clusters, BoxList(clusters, singles))
            && Apart(BoxList(clusters, singles))
            && forall i :: 0 <= i < |singles| ==> singles[i].w >= 0.0 && singles[i].h >= 0.0
  {
    PackedSingles(placed, groupIds, rows);
    PackedApart(placed, parentOf, rows, clusters, Standalone(placed, KinIds(rows)));
  }

  // Clusters for the families, then the single nodes.
  method Pack(
      placed: seq<PlacedNode>, ghost groupIds: set<string>, ghost parentOf: map<string, string>, rows: seq<Family>)
    returns (boxes: seq<Box>, ghost clusters: seq<ClusterBox>)
    requires WellFormed(placed, groupIds) && AllSized(placed) && Families(placed, parentOf, rows)
    requires forall i :: 0 <= i < |rows| ==> Rowed(rows[i])
    ensures Packed(placed, parentOf, rows, clusters, boxes) && Apart(boxes)
    ensures forall i :: 0 <= i < |clusters| ==> fresh(clusters[i])
    ensures forall i :: 0 <= i < |boxes| ==> Tidy(Poses(boxes)[i])
  {
    ghost var poses := FamiliesTidy(placed, parentOf, rows);
    var made, inCluster := BoxFamilies(rows, placed, parentOf, poses);
    clusters := made;
    PackedWell(placed, groupIds, parentOf, rows, clusters);
    boxes := BoxList(made, Standalone(placed, inCluster));
    PackedTidy(clusters, poses, Standalone(placed, inCluster));
  }

  lemma ChildInRow(
      placed: seq<PlacedNode>, parentOf: map<string, string>, keys: seq<string>, siblings: map<string, seq<PlacedNode>>,
      fs: seq<Family>, rows: seq<Family>, p: PlacedNode, q: PlacedNode)
    requires Once(placed) && Grouped(placed, parentOf, keys, siblings)
    requires AllChildren(placed, parentOf, keys, fs) && Reordered(fs, rows)
    requires p in placed && q in placed && ChildOf(p, parentOf, q.id)
    ensures InFamily(rows, p, q.id)
  {
    ChildrenMembers(placed, parentOf, q.id);
    assert Listed(siblings, q.id) == Children(placed, parentOf, q.id);
    assert q.id in Elements(keys);
    var i :| 0 <= i < |fs| && fs[i].parent.id == q.id && p in fs[i].groups;
    assert rows[i].parent.id == q.id && p in rows[i].groups;
  }

  // The boxes are where fifty rounds take them from `packed`; a layout without clashes is
  // settled and stays.
  ghost predicate Corrected(boxes: seq<Box>, packed: seq<Pose>, settled: bool)
    reads FrameOf(boxes)
  {
    && Poses(boxes) == Rounds(packed, MAX_ROUNDS)
    && (settled <==> exists k :: 0 <= k < MAX_ROUNDS && ClashFreeAfter(packed, k))
    && (ClashFree(packed) ==> settled && Poses(boxes) == packed)
  }

  lemma ParentFirst(
      placed: seq<PlacedNode>, parentOf: map<string, string>, rows: seq<Family>, clusters: seq<ClusterBox>,
      boxes: seq<Box>, i: nat)
    requires Packed(placed, parentOf, rows, clusters, boxes) && i < |rows|
    ensures !rows[i].parent.isGroup && rows[i].parent in placed
    ensures |Poses(boxes)[i].members| > 0 && Poses(boxes)[i].members[0] == rows[i].parent.Area()
  {
    assert boxes[i] == Cluster(clusters[i]) && boxes[i].Members()[0] == rows[i].parent;
  }

  // The families are given by the edges: a placed group is in the family of the placed node
  // that leads to it last from outside the groups, and in no other.
  ghost predicate FamiliesOf(placed: seq<PlacedNode>, edges: seq<Edge>, groupIds: set<string>, rows: seq<Family>)
    reads placed
  {
    && (forall i :: 0 <= i < |rows| ==> rows[i].parent in placed)
    && (forall i, k :: 0 <= i < |rows| && 0 <= k < |rows[i].groups| ==>
          rows[i].groups[k] in placed && LeadsLast(edges, groupIds, rows[i].parent.id, rows[i].groups[k].id))
    && (forall p, q :: p in placed && q in placed && q.id != "" && LeadsLast(edges, groupIds, q.id, p.id) ==>
          InFamily(rows, p, q.id))
  }

  lemma RowsByEdges(
      placed: seq<PlacedNode>, edges: seq<Edge>, groupIds: set<string>, parentOf: map<string, string>,
      rows: seq<Family>)
    requires WellFormed(placed, groupIds) && ParentMap(edges, groupIds, parentOf) && Families(placed, parentOf, rows)
    requires forall p, q :: p in placed && q in placed && ChildOf(p, parentOf, q.id) ==> InFamily(rows, p, q.id)
    ensures FamiliesOf(placed, edges, groupIds, rows)
  {
    forall i, k | 0 <= i < |rows| && 0 <= k < |rows[i].groups|
      ensures rows[i].groups[k] in placed && LeadsLast(edges, groupIds, rows[i].parent.id, rows[i].groups[k].id)
    {
      assert Kindred(placed, parentOf, rows[i]);
      assert ChildOf(rows[i].groups[k], parentOf, rows[i].parent.id);
    }
    forall p, q | p in placed && q in placed && q.id != "" && LeadsLast(edges, groupIds, q.id, p.id)
      ensures InFamily(rows, p, q.id)
    {
      assert ChildOf(p, parentOf, q.id);
    }
  }

  // The layout behind the initial placement. Every group whose parent is placed ends up in
  // a row below it, however the rounds end; and if they end because nothing changed, any
  // two nodes that overlap vertically are at least GAP apart horizontally. The rounds start
  // from boxes packed around parents that have not moved.
  method Arrange(placed: seq<PlacedNode>, edges: seq<Edge>, groupIds: set<string>)
    returns (settled: bool, ghost parentOf: map<string, string>, ghost rows: seq<Family>,
             ghost boxes: seq<Box>, ghost packed: seq<Pose>)
    requires WellFormed(placed, groupIds) && AllSized(placed)
    modifies placed
    ensures ParentMap(edges, groupIds, parentOf) && Families(placed, parentOf, rows)
    ensures forall p, q :: p in placed && q in placed && ChildOf(p, parentOf, q.id) ==> InFamily(rows, p, q.id)
    ensures FamiliesOf(placed, edges, groupIds, rows)
    ensures forall i :: 0 <= i < |rows| ==> Rowed(rows[i])
    ensures Corrected(boxes, packed, settled) && |rows| <= |packed|
    ensures forall i :: 0 <= i < |packed| ==> Tidy(packed[i])
    ensures forall i :: 0 <= i < |rows| ==>
              packed[i].members != [] && packed[i].members[0] == old(rows[i].parent.Area())
    ensures settled ==> forall i, j :: 0 <= i < j < |placed| ==> Clear(placed[i].Area(), placed[j].Area())
  {
    PlacedOnce(placed, groupIds);
    var parents := GroupParents(edges, groupIds);
    parentOf := parents;
    var keys, siblings := SiblingsByParent(placed, parents);
    var families := FindFamilies(placed, keys, siblings, edges, groupIds, parentOf);
    var placedRows := PlaceRows(placed, parentOf, families);
    rows := placedRows;
    ChildrenInRows(placed, parentOf, keys, siblings, families, rows);
    RowsByEdges(placed, edges, groupIds, parentOf, rows);
    var list, clusters := Pack(placed, groupIds, parentOf, placedRows);
    boxes, packed := list, Poses(list);
    forall i | 0 <= i < |rows| ensures packed[i].members[0] == old(rows[i].parent.Area()) {
      ParentFirst(placed, parentOf, rows, clusters, boxes, i);
    }
    forall o | o in FrameOf(boxes) ensures o in placed || o in clusters {
      PackedFrame(placed, groupIds, parentOf, rows, clusters, boxes, o);
    }
    ghost var ds;
    settled, ds := Separate(list);
    TidySlid(packed, Poses(boxes), ds);
    RowsStay(placed, parentOf, rows, clusters, boxes);
    if settled {
      AllNodesClear(placed, groupIds, parentOf, rows, clusters, boxes);
    }
  }

  lemma RowsStay(
      placed: seq<PlacedNode>, parentOf: map<string, string>, rows: seq<Family>, clusters: seq<ClusterBox>,
      boxes: seq<Box>)
    requires Packed(placed, parentOf, rows, clusters, boxes)
    requires forall i :: 0 <= i < |boxes| ==> Tidy(Poses(boxes)[i])
    ensures forall i :: 0 <= i < |rows| ==> Rowed(rows[i])
  {
    forall i | 0 <= i < |rows| ensures Rowed(rows[i]) {
      assert Tidy(Poses(boxes)[i]);
      RowStays(rows[i], clusters[i]);
    }
  }

  lemma AllNodesClear(
      placed: seq<PlacedNode>, groupIds: set<string>, parentOf: map<string, string>, rows: seq<Family>,
      clusters: seq<ClusterBox>, boxes: seq<Box>)
    requires WellFormed(placed, groupIds) && Packed(placed, parentOf, rows, clusters, boxes)
    requires ClashFree(Poses(boxes)) && forall i :: 0 <= i < |boxes| ==> Tidy(Poses(boxes)[i])
    ensures forall i, j :: 0 <= i < j < |placed| ==> Clear(placed[i].Area(), placed[j].Area())
  {
    forall i, j | 0 <= i < j < |placed| ensures Clear(placed[i].Area(), placed[j].Area()) {
      SamePlace(placed, groupIds, i, j);
      NodesClear(placed, groupIds, parentOf, rows, clusters, boxes, placed[i], placed[j]);
    }
  }

  lemma ChildrenInRows(
      placed: seq<PlacedNode>, parentOf: map<string, string>, keys: seq<string>, siblings: map<string, seq<PlacedNode>>,
      fs: seq<Family>, rows: seq<Family>)
    requires Once(placed) && Grouped(placed, parentOf, keys, siblings)
    requires AllChildren(placed, parentOf, keys, fs) && Reordered(fs, rows)
    ensures forall p, q :: p in placed && q in placed && ChildOf(p, parentOf, q.id) ==> InFamily(rows, p, q.id)
  {
    forall p, q | p in placed && q in placed && ChildOf(p, parentOf, q.id) ensures InFamily(rows, p, q.id) {
      ChildInRow(placed, parentOf, keys, siblings, fs, rows, p, q);
    }
  }
}
