/** The boxes of a laid out graph, and the rounds that push overlapping ones apart. */
module DagBoxes {

  const GAP: real := 20.0

  const MAX_ROUNDS: nat := 50

  datatype Rect = Rect(x: real, y: real, w: real, h: real)

  class PlacedNode {
    const id: string
    var x: real
    var y: real
    const w: real
    const h: real
    const isGroup: bool

    function Area(): Rect
      reads this
    {
      Rect(x, y, w, h)
    }

    constructor (id: string, x: real, y: real, w: real, h: real, isGroup: bool)
      ensures this.id == id && this.x == x && this.y == y && this.w == w && this.h == h && this.isGroup == isGroup
    {
      this.id, this.x, this.y, this.w, this.h, this.isGroup := id, x, y, w, h, isGroup;
    }
  }

  // A parent and its groups.
  class ClusterBox {
    const parentId: string
    const members: seq<PlacedNode>
    var x: real
    const y: real
    const w: real
    const h: real

    constructor (parentId: string, members: seq<PlacedNode>, x: real, y: real, w: real, h: real)
      ensures this.parentId == parentId && this.members == members
      ensures this.x == x && this.y == y && this.w == w && this.h == h
    {
      this.parentId, this.members, this.x, this.y, this.w, this.h := parentId, members, x, y, w, h;
    }
  }

  // Where a box and its members are.
  datatype Pose = Pose(area: Rect, members: seq<Rect>)

  function RectMoved(r: Rect, d: real): Rect {
    r.(x := r.x + d)
  }

  function RectsMoved(rs: seq<Rect>, d: real): (r: seq<Rect>)
    ensures |r| == |rs| && forall i :: 0 <= i < |rs| ==> r[i] == RectMoved(rs[i], d)
  {
    seq(|rs|, i requires 0 <= i < |rs| => RectMoved(rs[i], d))
  }

  // The box and all its members moved by d along the x axis, and nothing else.
  function PoseMoved(p: Pose, d: real): Pose {
    Pose(RectMoved(p.area, d), RectsMoved(p.members, d))
  }

  ghost function Areas(ms: seq<PlacedNode>): (r: seq<Rect>)
    reads ms
    ensures |r| == |ms| && forall i :: 0 <= i < |ms| ==> r[i] == ms[i].Area()
  {
    seq(|ms|, i requires 0 <= i < |ms| reads ms => ms[i].Area())
  }

  datatype Box = Cluster(cluster: ClusterBox) | Alone(node: PlacedNode) {

    function Members(): seq<PlacedNode> {
      if Cluster? then cluster.members else [node]
    }

    // The objects that carry the position of the box.
    ghost function Frame(): set<object> {
      var members: set<object> := set m: PlacedNode | m in Members();
      if Cluster? then members + {cluster} else members
    }

    function Area(): Rect
      reads Frame()
    {
      if Cluster? then Rect(cluster.x, cluster.y, cluster.w, cluster.h) else node.Area()
    }

    ghost function Stance(): Pose
      reads Frame()
    {
      Pose(Area(), Areas(Members()))
    }

    method Shift(dx: real)
      requires Once(Members())
      modifies Frame()
      ensures Stance() == PoseMoved(old(Stance()), dx)
    {
      if Alone? {
        node.x := node.x + dx;
        return;
      }
      cluster.x := cluster.x + dx;
      for k := 0 to |cluster.members|
        invariant cluster.x == old(cluster.x) + dx
        invariant forall i :: 0 <= i < |cluster.members| ==>
                    cluster.members[i].Area() ==
                    RectMoved(old(cluster.members[i].Area()), if i < k then dx else 0.0)
      {
        cluster.members[k].x := cluster.members[k].x + dx;
      }
    }
  }

  // No object twice.
  ghost predicate Once(ms: seq<PlacedNode>) {
    forall i, j :: 0 <= i < j < |ms| ==> ms[i] != ms[j]
  }

  // Boxes that share no object.
  ghost predicate Apart(boxes: seq<Box>) {
    && (forall i :: 0 <= i < |boxes| ==> Once(boxes[i].Members()))
    && forall i, j :: 0 <= i < j < |boxes| ==> boxes[i].Frame() !! boxes[j].Frame()
  }

  ghost function FrameOf(boxes: seq<Box>): set<object> {
    set i, o | 0 <= i < |boxes| && o in boxes[i].Frame() :: o
  }

  // ---------------------------------------------------------------------------
  // Clashes

  function Larger(a: real, b: real): real {
    if a >= b then a else b
  }

  function Smaller(a: real, b: real): real {
    if a <= b then a else b
  }

  // How far a reaches, with the gap, beyond the left edge of b.
  function OverlapX(a: Rect, b: Rect): real {
    a.x + a.w + GAP - b.x
  }

  function OverlapY(a: Rect, b: Rect): real {
    Smaller(a.y + a.h, b.y + b.h) - Larger(a.y, b.y)
  }

  predicate Clash(a: Rect, b: Rect) {
    OverlapX(a, b) > 0.0 && OverlapY(a, b) > 0.0
  }

  function PushOf(a: Rect, b: Rect): real {
    OverlapX(a, b) / 2.0 + GAP / 2.0
  }

  // ---------------------------------------------------------------------------
  // Displacements

  ghost function Poses(boxes: seq<Box>): (r: seq<Pose>)
    reads FrameOf(boxes)
    ensures |r| == |boxes|
  {
    seq(|boxes|, i requires 0 <= i < |boxes| reads FrameOf(boxes) => boxes[i].Stance())
  }

  // Every box i has moved by ds[i].
  ghost predicate Slid(before: seq<Pose>, after: seq<Pose>, ds: seq<real>) {
    && |before| == |after| == |ds|
    && forall i :: 0 <= i < |ds| ==> after[i] == PoseMoved(before[i], ds[i])
  }

  function Sum(ds: seq<real>): real {
    if ds == [] then 0.0 else Sum(ds[..|ds| - 1]) + ds[|ds| - 1]
  }

  // They have moved, and together not at all.
  ghost predicate Balanced(before: seq<Pose>, after: seq<Pose>, ds: seq<real>) {
    Slid(before, after, ds) && Sum(ds) == 0.0
  }

  lemma PoseMovedTwice(p: Pose, d: real, e: real)
    ensures PoseMoved(PoseMoved(p, d), e) == PoseMoved(p, d + e)
  {
  }

  function Plus(a: seq<real>, b: seq<real>): (r: seq<real>)
    requires |a| == |b|
    ensures |r| == |a| && forall i :: 0 <= i < |a| ==> r[i] == a[i] + b[i]
  {
    if a == [] then [] else Plus(a[..|a| - 1], b[..|b| - 1]) + [a[|a| - 1] + b[|b| - 1]]
  }

  lemma {:induction false} PlusSum(a: seq<real>, b: seq<real>)
    requires |a| == |b|
    ensures Sum(Plus(a, b)) == Sum(a) + Sum(b)
  {
    if a != [] {
      PlusSum(a[..|a| - 1], b[..|b| - 1]);
    }
  }

  lemma BalancedOn(p0: seq<Pose>, p1: seq<Pose>, p2: seq<Pose>, a: seq<real>, b: seq<real>)
    requires Balanced(p0, p1, a) && Balanced(p1, p2, b)
    ensures Balanced(p0, p2, Plus(a, b))
  {
    PlusSum(a, b);
    forall i | 0 <= i < |a| ensures p2[i] == PoseMoved(p0[i], Plus(a, b)[i]) {
      MovedOn(p0[i], p1[i], p2[i], a[i], b[i]);
    }
  }

  lemma MovedOn(p0: Pose, p1: Pose, p2: Pose, d: real, e: real)
    requires p1 == PoseMoved(p0, d) && p2 == PoseMoved(p1, e)
    ensures p2 == PoseMoved(p0, d + e)
  {
    PoseMovedTwice(p0, d, e);
  }

  function Still(n: nat): (r: seq<real>)
    ensures |r| == n && Sum(r) == 0.0 && forall i :: 0 <= i < n ==> r[i] == 0.0
  {
    if n == 0 then [] else Still(n - 1) + [0.0]
  }

  lemma BalancedStill(p: seq<Pose>)
    ensures Balanced(p, p, Still(|p|))
  {
    forall i | 0 <= i < |p| ensures p[i] == PoseMoved(p[i], 0.0) {
      assert RectsMoved(p[i].members, 0.0) == p[i].members;
    }
  }

  lemma {:induction false} SumOther(a: seq<real>, b: seq<real>, k: nat)
    requires k < |a| == |b| && forall i :: 0 <= i < |a| && i != k ==> a[i] == b[i]
    ensures Sum(b) - Sum(a) == b[k] - a[k]
  {
    var n := |a| - 1;
    if k < n {
      SumOther(a[..n], b[..n], k);
    } else {
      assert a[..n] == b[..n];
    }
  }

  // Box i to the left by d, box j to the right.
  function Opposite(n: nat, i: nat, j: nat, d: real): (r: seq<real>)
    requires i < j < n
    ensures |r| == n
    ensures forall k :: 0 <= k < n ==> r[k] == if k == i then -d else if k == j then d else 0.0
  {
    Still(n)[i := -d][j := d]
  }

  lemma OppositeSum(n: nat, i: nat, j: nat, d: real)
    requires i < j < n
    ensures Sum(Opposite(n, i, j, d)) == 0.0
  {
    var half := Still(n)[i := -d];
    SumOther(Still(n), half, i);
    SumOther(half, Opposite(n, i, j, d), j);
  }

  function SumX(ps: seq<Pose>): real {
    if ps == [] then 0.0 else SumX(ps[..|ps| - 1]) + ps[|ps| - 1].area.x
  }

  lemma {:induction false} SlidSum(before: seq<Pose>, after: seq<Pose>, ds: seq<real>)
    requires Slid(before, after, ds)
    ensures SumX(after) == SumX(before) + Sum(ds)
    decreases |ds|
  {
    if ds != [] {
      var n := |ds| - 1;
      SlidSum(before[..n], after[..n], ds[..n]);
    }
  }

  // Heights, widths and vertical positions stay, and so does the sum of the x positions.
  lemma BalancedKeeps(before: seq<Pose>, after: seq<Pose>, ds: seq<real>)
    requires Balanced(before, after, ds)
    ensures SumX(after) == SumX(before)
    ensures forall i :: 0 <= i < |before| ==> after[i].area.(x := before[i].area.x) == before[i].area
    ensures forall i, m :: 0 <= i < |before| && 0 <= m < |before[i].members| ==>
              after[i].members[m].x - after[i].area.x == before[i].members[m].x - before[i].area.x
  {
    SlidSum(before, after, ds);
  }

  // ---------------------------------------------------------------------------
  // The rounds

  lemma ApartFrom(boxes: seq<Box>, i: nat)
    requires Apart(boxes) && i < |boxes|
    ensures forall k :: 0 <= k < |boxes| && k != i ==> boxes[k].Frame() !! boxes[i].Frame()
  {
    forall k | 0 <= k < |boxes| && k != i ensures boxes[k].Frame() !! boxes[i].Frame() {
      if k < i {
        assert boxes[k].Frame() !! boxes[i].Frame();
      } else {
        assert boxes[i].Frame() !! boxes[k].Frame();
      }
    }
  }

  lemma FrameWithin(boxes: seq<Box>, i: nat)
    requires i < |boxes|
    ensures boxes[i].Frame() <= FrameOf(boxes)
  {
  }

  // The boxes stand at these poses.
  ghost predicate Stand(boxes: seq<Box>, ps: seq<Pose>)
    reads FrameOf(boxes)
  {
    |ps| == |boxes| && forall i :: 0 <= i < |ps| ==> boxes[i].Stance() == ps[i]
  }

  lemma StandAt(boxes: seq<Box>, ps: seq<Pose>)
    ensures Stand(boxes, ps) <==> ps == Poses(boxes)
  {
  }

  // One box moves, the others stay.
  method ShiftOne(boxes: seq<Box>, i: nat, d: real, ghost ps: seq<Pose>)
    requires Apart(boxes) && i < |boxes| && Stand(boxes, ps)
    modifies FrameOf(boxes)
    ensures Stand(boxes, Slide(ps, i, d))
  {
    FrameWithin(boxes, i);
    ApartFrom(boxes, i);
    assert boxes[i].Stance() == ps[i];
    boxes[i].Shift(d);
    forall k | 0 <= k < |boxes| && k != i ensures boxes[k].Stance() == ps[k] {
    }
  }

  lemma StillPose(p: Pose)
    ensures PoseMoved(p, 0.0) == p
  {
    assert RectsMoved(p.members, 0.0) == p.members;
  }

  // Box i moves by d.
  function Slide(ps: seq<Pose>, i: nat, d: real): (r: seq<Pose>)
    requires i < |ps|
    ensures |r| == |ps|
  {
    ps[i := PoseMoved(ps[i], d)]
  }

  // Box i goes left and box j goes right; nothing else moves.
  function MovedApart(ps: seq<Pose>, i: nat, j: nat, push: real): (r: seq<Pose>)
    requires i < j < |ps|
    ensures |r| == |ps|
  {
    Slide(Slide(ps, i, -push), j, push)
  }

  // One pair is pushed apart when it clashes.
  function Parted(ps: seq<Pose>, i: nat, j: nat): (r: seq<Pose>)
    requires i < j < |ps|
    ensures |r| == |ps|
  {
    if Clash(ps[i].area, ps[j].area) then MovedApart(ps, i, j, PushOf(ps[i].area, ps[j].area)) else ps
  }

  // Box i against all later ones in front of box j.
  function PartedFrom(ps: seq<Pose>, i: nat, j: nat): (r: seq<Pose>)
    requires j <= |ps|
    ensures |r| == |ps|
  {
    if j <= i + 1 then ps else Parted(PartedFrom(ps, i, j - 1), i, j - 1)
  }

  lemma PartedNext(ps: seq<Pose>, i: nat, j: nat)
    requires i < j < |ps|
    ensures PartedFrom(ps, i, j + 1) == Parted(PartedFrom(ps, i, j), i, j)
  {
  }

  // The first i boxes against all later ones.
  function PartedTo(ps: seq<Pose>, i: nat): (r: seq<Pose>)
    ensures |r| == |ps|
  {
    if i == 0 then ps else PartedFrom(PartedTo(ps, i - 1), i - 1, |ps|)
  }

  // n rounds over all pairs.
  function Rounds(ps: seq<Pose>, n: nat): (r: seq<Pose>)
    ensures |r| == |ps|
  {
    if n == 0 then ps else PartedTo(Rounds(ps, n - 1), |ps|)
  }

  // A clashing pair ends up twice the gap apart; no pair clashes once it was treated.
  lemma PartedClear(ps: seq<Pose>, i: nat, j: nat)
    requires i < j < |ps|
    ensures var r := Parted(ps, i, j);
            && !Clash(r[i].area, r[j].area)
            && (Clash(ps[i].area, ps[j].area) ==> r[j].area.x == r[i].area.x + r[i].area.w + 2.0 * GAP)
  {
  }

  lemma OppositeSlides(ps: seq<Pose>, i: nat, j: nat, push: real)
    requires i < j < |ps|
    ensures Slid(ps, MovedApart(ps, i, j, push), Opposite(|ps|, i, j, push))
  {
    forall k | 0 <= k < |ps| && k != i && k != j ensures ps[k] == PoseMoved(ps[k], 0.0) {
      StillPose(ps[k]);
    }
  }

  lemma PartedBalanced(ps: seq<Pose>, i: nat, j: nat) returns (ds: seq<real>)
    requires i < j < |ps|
    ensures Balanced(ps, Parted(ps, i, j), ds)
  {
    if Clash(ps[i].area, ps[j].area) {
      var push := PushOf(ps[i].area, ps[j].area);
      ds := Opposite(|ps|, i, j, push);
      OppositeSlides(ps, i, j, push);
      OppositeSum(|ps|, i, j, push);
    } else {
      ds := Still(|ps|);
      BalancedStill(ps);
    }
  }

  lemma {:induction false} PartedFromBalanced(ps: seq<Pose>, i: nat, j: nat) returns (ds: seq<real>)
    requires j <= |ps|
    ensures Balanced(ps, PartedFrom(ps, i, j), ds)
  {
    if j <= i + 1 {
      ds := Still(|ps|);
      BalancedStill(ps);
    } else {
      var before := PartedFrom(ps, i, j - 1);
      var a := PartedFromBalanced(ps, i, j - 1);
      var b := PartedBalanced(before, i, j - 1);
      BalancedOn(ps, before, Parted(before, i, j - 1), a, b);
      ds := Plus(a, b);
    }
  }

  lemma {:induction false} PartedToBalanced(ps: seq<Pose>, i: nat) returns (ds: seq<real>)
    ensures Balanced(ps, PartedTo(ps, i), ds)
  {
    if i == 0 {
      ds := Still(|ps|);
      BalancedStill(ps);
    } else {
      var before := PartedTo(ps, i - 1);
      var a := PartedToBalanced(ps, i - 1);
      var b := PartedFromBalanced(before, i - 1, |ps|);
      BalancedOn(ps, before, PartedFrom(before, i - 1, |ps|), a, b);
      ds := Plus(a, b);
    }
  }

  // However many rounds: every box moves rigidly along the x axis, and the displacements
  // add up to zero.
  lemma {:induction false} RoundsBalanced(ps: seq<Pose>, n: nat) returns (ds: seq<real>)
    ensures Balanced(ps, Rounds(ps, n), ds)
  {
    if n == 0 {
      ds := Still(|ps|);
      BalancedStill(ps);
    } else {
      var before := Rounds(ps, n - 1);
      var a := RoundsBalanced(ps, n - 1);
      var b := PartedToBalanced(before, |ps|);
      BalancedOn(ps, before, PartedTo(before, |ps|), a, b);
      ds := Plus(a, b);
    }
  }

  // No two boxes clash among these pairs: (k, l) with k < i, or k == i and l < j.
  ghost predicate NoClash(ps: seq<Pose>, i: int, j: int) {
    forall k, l {:trigger ps[k], ps[l]} ::
      0 <= k < l < |ps| && (k < i || (k == i && l < j)) ==> !Clash(ps[k].area, ps[l].area)
  }

  // No two boxes clash.
  ghost predicate ClashFree(ps: seq<Pose>) {
    NoClash(ps, |ps|, 0)
  }

  // The layout has no clash after n rounds.
  ghost predicate ClashFreeAfter(ps: seq<Pose>, n: nat) {
    ClashFree(Rounds(ps, n))
  }

  lemma {:induction false} PartedFromClashFree(ps: seq<Pose>, i: nat, j: nat)
    requires ClashFree(ps) && j <= |ps|
    ensures PartedFrom(ps, i, j) == ps
  {
    if j > i + 1 {
      PartedFromClashFree(ps, i, j - 1);
    }
  }

  lemma {:induction false} PartedToClashFree(ps: seq<Pose>, i: nat)
    requires ClashFree(ps)
    ensures PartedTo(ps, i) == ps
  {
    if i > 0 {
      PartedToClashFree(ps, i - 1);
      PartedFromClashFree(ps, i - 1, |ps|);
    }
  }

  // Once no boxes clash, further rounds change nothing.
  lemma {:induction false} ClashFreeForGood(ps: seq<Pose>, k: nat, n: nat)
    requires k <= n && ClashFreeAfter(ps, k)
    ensures Rounds(ps, n) == Rounds(ps, k)
    decreases n
  {
    if k < n {
      ClashFreeForGood(ps, k, n - 1);
      PartedToClashFree(Rounds(ps, k), |ps|);
    }
  }

  // i and j are the only boxes that clash.
  ghost predicate OnlyClash(ps: seq<Pose>, i: nat, j: nat) {
    && i < j < |ps| && Clash(ps[i].area, ps[j].area)
    && forall k, l {:trigger ps[k], ps[l]} ::
         0 <= k < l < |ps| && (k, l) != (i, j) ==> !Clash(ps[k].area, ps[l].area)
  }

  // Box i can be pushed to the left and box j to the right without reaching another box.
  ghost predicate RoomBeside(ps: seq<Pose>, i: nat, j: nat)
    requires i < j < |ps|
  {
    var a, b := ps[i].area, ps[j].area;
    && (forall k :: 0 <= k < i && OverlapY(ps[k].area, a) > 0.0 ==>
          ps[k].area.x + ps[k].area.w + GAP <= a.x - PushOf(a, b))
    && (forall l :: j < l < |ps| && OverlapY(b, ps[l].area) > 0.0 ==>
          b.x + PushOf(a, b) + b.w + GAP <= ps[l].area.x)
  }

  lemma PushedClear(ps: seq<Pose>, i: nat, j: nat)
    requires OnlyClash(ps, i, j) && RoomBeside(ps, i, j)
    ensures ClashFree(Parted(ps, i, j))
  {
    var r := Parted(ps, i, j);
    PartedClear(ps, i, j);
    forall k, l | 0 <= k < l < |r| ensures !Clash(r[k].area, r[l].area) {
      if (k, l) != (i, j) {
        StillClear(ps, i, j, k, l);
      }
    }
  }

  lemma StillClear(ps: seq<Pose>, i: nat, j: nat, k: nat, l: nat)
    requires OnlyClash(ps, i, j) && RoomBeside(ps, i, j) && k < l < |ps| && (k, l) != (i, j)
    ensures !Clash(Parted(ps, i, j)[k].area, Parted(ps, i, j)[l].area)
  {
    assert !Clash(ps[k].area, ps[l].area);
  }

  // Up to the clash nothing moves, and behind it nothing any more.
  lemma {:induction false} OnlyClashFrom(ps: seq<Pose>, i: nat, j: nat, k: nat, l: nat)
    requires OnlyClash(ps, i, j) && ClashFree(Parted(ps, i, j)) && k <= i && l <= |ps|
    ensures PartedFrom(ps, k, l) == if k == i && l > j then Parted(ps, i, j) else ps
    decreases l
  {
    if l > k + 1 {
      OnlyClashFrom(ps, i, j, k, l - 1);
    }
  }

  lemma {:induction false} OnlyClashTo(ps: seq<Pose>, i: nat, j: nat, k: nat)
    requires OnlyClash(ps, i, j) && ClashFree(Parted(ps, i, j)) && k <= |ps|
    ensures PartedTo(ps, k) == if k > i then Parted(ps, i, j) else ps
    decreases k
  {
    if k > 0 {
      OnlyClashTo(ps, i, j, k - 1);
      if k - 1 <= i {
        OnlyClashFrom(ps, i, j, k - 1, |ps|);
      } else {
        PartedFromClashFree(Parted(ps, i, j), k - 1, |ps|);
      }
    }
  }

  // A single clash with room beside it is settled by the first round, which moves nothing
  // but the two boxes; no later round moves anything.
  lemma SettlesAtOnce(ps: seq<Pose>, i: nat, j: nat, n: nat)
    requires OnlyClash(ps, i, j) && RoomBeside(ps, i, j) && n >= 1
    ensures Rounds(ps, n) == Parted(ps, i, j) && ClashFreeAfter(ps, n)
  {
    PushedClear(ps, i, j);
    OnlyClashTo(ps, i, j, |ps|);
    OneRound(ps);
    ClashFreeForGood(ps, 1, n);
  }

  // What the flag says so far: whether `start` has a clash among the pairs treated, and
  // that nothing has moved if not.
  ghost predicate Noted(start: seq<Pose>, now: seq<Pose>, i: nat, j: nat, changed: bool) {
    |now| == |start| && (changed <==> !NoClash(start, i, j)) && (!changed ==> now == start)
  }

  lemma NotedStart(start: seq<Pose>, now: seq<Pose>, i: nat, changed: bool)
    requires Noted(start, now, i, 0, changed)
    ensures Noted(start, now, i, i + 1, changed)
  {
  }

  lemma NotedNext(start: seq<Pose>, now: seq<Pose>, i: nat, j: nat, changed: bool)
    requires i < j < |start| && Noted(start, now, i, j, changed)
    ensures Noted(start, Parted(now, i, j), i, j + 1, changed || Clash(now[i].area, now[j].area))
  {
    if !changed && Clash(now[i].area, now[j].area) {
      assert Clash(start[i].area, start[j].area);
    }
  }

  lemma NotedRow(start: seq<Pose>, now: seq<Pose>, i: nat, changed: bool)
    requires Noted(start, now, i, |start|, changed)
    ensures Noted(start, now, i + 1, 0, changed)
  {
  }

  method PushApart(boxes: seq<Box>, i: nat, j: nat, left: real, right: real, ghost ps: seq<Pose>)
    requires Apart(boxes) && i < j < |boxes| && Stand(boxes, ps)
    modifies FrameOf(boxes)
    ensures Stand(boxes, Slide(Slide(ps, i, left), j, right))
  {
    ghost var half := Slide(ps, i, left);
    ShiftOne(boxes, i, left, ps);
    ShiftOne(boxes, j, right, half);
  }

  lemma AreaAt(boxes: seq<Box>, ps: seq<Pose>, i: nat)
    requires Stand(boxes, ps) && i < |boxes|
    ensures boxes[i].Area() == ps[i].area
  {
    assert boxes[i].Stance() == ps[i];
  }

  // One pair of boxes.
  method PartPair(boxes: seq<Box>, i: nat, j: nat, ghost ps: seq<Pose>) returns (changed: bool)
    requires Apart(boxes) && i < j < |boxes| && Stand(boxes, ps)
    modifies FrameOf(boxes)
    ensures changed <==> Clash(ps[i].area, ps[j].area)
    ensures Stand(boxes, Parted(ps, i, j))
  {
    AreaAt(boxes, ps, i);
    AreaAt(boxes, ps, j);
    var a, b := boxes[i].Area(), boxes[j].Area();
    changed := Clash(a, b);
    if changed {
      var left, right := -PushOf(a, b), PushOf(a, b);
      PushApart(boxes, i, j, left, right, ps);
      PartedClash(ps, i, j, a, b, left, right);
      assert Stand(boxes, Parted(ps, i, j));
    } else {
      PartedStill(ps, i, j, a, b);
      assert Stand(boxes, Parted(ps, i, j));
    }
  }

  lemma PartedClash(ps: seq<Pose>, i: nat, j: nat, a: Rect, b: Rect, left: real, right: real)
    requires i < j < |ps| && a == ps[i].area && b == ps[j].area && Clash(a, b)
    requires left == -PushOf(a, b) && right == PushOf(a, b)
    ensures Parted(ps, i, j) == Slide(Slide(ps, i, left), j, right)
  {
  }

  lemma PartedStill(ps: seq<Pose>, i: nat, j: nat, a: Rect, b: Rect)
    requires i < j < |ps| && a == ps[i].area && b == ps[j].area && !Clash(a, b)
    ensures Parted(ps, i, j) == ps
  {
  }

  // Box i has been treated against the later ones in front of box j.
  ghost predicate Treated(
      start: seq<Pose>, before: seq<Pose>, now: seq<Pose>, i: nat, j: nat, changed: bool)
  {
    j <= |before| && now == PartedFrom(before, i, j) && Noted(start, now, i, j, changed)
  }

  lemma TreatedNext(
      start: seq<Pose>, before: seq<Pose>, now: seq<Pose>, i: nat, j: nat, changed: bool, pushed: bool)
    requires i < j < |before| && Treated(start, before, now, i, j, changed)
    requires pushed <==> Clash(now[i].area, now[j].area)
    ensures Treated(start, before, Parted(now, i, j), i, j + 1, changed || pushed)
  {
    PartedNext(before, i, j);
    NotedNext(start, now, i, j, changed);
  }

  // One box against one later one.
  method PartNext(
      boxes: seq<Box>, i: nat, j: nat, changed0: bool, ghost start: seq<Pose>, ghost before: seq<Pose>,
      ghost now: seq<Pose>)
    returns (changed: bool, ghost next: seq<Pose>)
    requires Apart(boxes) && i < j < |boxes| == |before| == |now| && Stand(boxes, now)
    requires Treated(start, before, now, i, j, changed0)
    modifies FrameOf(boxes)
    ensures |next| == |now| && Stand(boxes, next) && Treated(start, before, next, i, j + 1, changed)
  {
    var pushed := PartPair(boxes, i, j, now);
    TreatedNext(start, before, now, i, j, changed0, pushed);
    next, changed := Parted(now, i, j), changed0 || pushed;
  }

  // One box against all later ones.
  method PartFrom(boxes: seq<Box>, i: nat, changed0: bool, ghost start: seq<Pose>, ghost before: seq<Pose>)
    returns (changed: bool)
    requires Apart(boxes) && i < |boxes| && Stand(boxes, before) && Noted(start, before, i, 0, changed0)
    modifies FrameOf(boxes)
    ensures Stand(boxes, PartedFrom(before, i, |before|))
    ensures Noted(start, PartedFrom(before, i, |before|), i + 1, 0, changed)
  {
    changed := changed0;
    NotedStart(start, before, i, changed);
    ghost var now := before;
    for j := i + 1 to |boxes|
      invariant |now| == |before| && Stand(boxes, now) && Treated(start, before, now, i, j, changed)
    {
      changed, now := PartNext(boxes, i, j, changed, start, before, now);
    }
    NotedRow(start, now, i, changed);
  }

  // One round over all pairs: it reports a change exactly when two boxes clashed.
  method Round(boxes: seq<Box>, ghost start: seq<Pose>) returns (changed: bool)
    requires Apart(boxes) && Stand(boxes, start)
    modifies FrameOf(boxes)
    ensures changed <==> !ClashFree(start)
    ensures Stand(boxes, Rounds(start, 1))
  {
    ghost var now := start;
    changed := false;
    for i := 0 to |boxes|
      invariant Stand(boxes, now) && Noted(start, now, i, 0, changed) && now == PartedTo(start, i)
    {
      changed := PartFrom(boxes, i, changed, start, now);
      now := PartedFrom(now, i, |now|);
    }
    OneRound(start);
  }

  lemma OneRound(ps: seq<Pose>)
    ensures Rounds(ps, 1) == PartedTo(ps, |ps|)
  {
    assert Rounds(ps, 0) == ps;
  }

  lemma RoundsNext(ps: seq<Pose>, n: nat)
    ensures Rounds(Rounds(ps, n), 1) == Rounds(ps, n + 1)
  {
    OneRound(Rounds(ps, n));
  }

  // The first round without a clash, or none among the first n.
  ghost predicate Rounding(start: seq<Pose>, now: seq<Pose>, n: nat, changed: bool) {
    && now == Rounds(start, n)
    && (changed <==> forall k :: 0 <= k < n ==> !ClashFreeAfter(start, k))
    && (!changed ==> ClashFree(now))
  }

  lemma RoundingNext(start: seq<Pose>, n: nat)
    requires Rounding(start, Rounds(start, n), n, true)
    ensures Rounding(start, Rounds(start, n + 1), n + 1, !ClashFreeAfter(start, n))
  {
    if ClashFreeAfter(start, n) {
      ClashFreeForGood(start, n, n + 1);
    }
  }

  // At most fifty rounds, until one changes nothing: the same as fifty rounds. Whatever
  // happens, every box moves rigidly along the x axis and the displacements add up to
  // zero. The rounds settle exactly when one of the fifty finds no clash, and then every
  // box ends GAP before any later one beside it.
  method Separate(boxes: seq<Box>) returns (settled: bool, ghost ds: seq<real>)
    requires Apart(boxes)
    modifies FrameOf(boxes)
    ensures Poses(boxes) == Rounds(old(Poses(boxes)), MAX_ROUNDS)
    ensures Balanced(old(Poses(boxes)), Poses(boxes), ds)
    ensures settled <==> exists k :: 0 <= k < MAX_ROUNDS && ClashFreeAfter(old(Poses(boxes)), k)
    ensures settled ==> ClashFree(Poses(boxes))
    ensures ClashFree(old(Poses(boxes))) ==> settled && Poses(boxes) == old(Poses(boxes))
  {
    ghost var start := Poses(boxes);
    ghost var now := start;
    StandAt(boxes, now);
    var changed, rounds := true, 0;
    while changed && rounds < MAX_ROUNDS
      invariant rounds <= MAX_ROUNDS && Stand(boxes, now) && Rounding(start, now, rounds, changed)
      decreases MAX_ROUNDS - rounds
    {
      RoundingNext(start, rounds);
      RoundsNext(start, rounds);
      changed := Round(boxes, now);
      now := Rounds(now, 1);
      rounds := rounds + 1;
    }
    settled := !changed;
    StandAt(boxes, now);
    SeparateDone(start, rounds, MAX_ROUNDS, changed);
    ds := RoundsBalanced(start, MAX_ROUNDS);
  }

  lemma SeparateDone(start: seq<Pose>, rounds: nat, most: nat, changed: bool)
    requires Rounding(start, Rounds(start, rounds), rounds, changed)
    requires 0 < most && rounds <= most && (changed ==> rounds == most)
    ensures Rounds(start, rounds) == Rounds(start, most)
    ensures !changed <==> exists k :: 0 <= k < most && ClashFreeAfter(start, k)
    ensures ClashFree(start) ==> !changed && Rounds(start, most) == start
  {
    assert ClashFreeAfter(start, 0) <==> ClashFree(start);
    if !changed {
      assert ClashFreeAfter(start, rounds);
      ClashFreeForGood(start, rounds, most);
    }
    if ClashFree(start) {
      ClashFreeForGood(start, 0, most);
    }
  }
}
