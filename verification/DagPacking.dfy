/** The boxes around families and single nodes, and what holds once no boxes clash. */
module DagPacking {
  import opened DagBoxes
  import opened DagRows

  // ---------------------------------------------------------------------------
  // Bounding boxes

  function Least(xs: seq<real>): (r: real)
    requires xs != []
    ensures r in xs && forall i :: 0 <= i < |xs| ==> r <= xs[i]
  {
    if |xs| == 1 then xs[0] else Smaller(Least(xs[..|xs| - 1]), xs[|xs| - 1])
  }

  function Greatest(xs: seq<real>): (r: real)
    requires xs != []
    ensures r in xs && forall i :: 0 <= i < |xs| ==> r >= xs[i]
  {
    if |xs| == 1 then xs[0] else Larger(Greatest(xs[..|xs| - 1]), xs[|xs| - 1])
  }

  predicate Inside(r: Rect, area: Rect) {
    area.x <= r.x && r.x + r.w <= area.x + area.w && area.y <= r.y && r.y + r.h <= area.y + area.h
  }

  // members.map(f)
  function Each(rs: seq<Rect>, f: Rect -> real): (xs: seq<real>)
    ensures |xs| == |rs| && forall i :: 0 <= i < |rs| ==> xs[i] == f(rs[i])
  {
    seq(|rs|, i requires 0 <= i < |rs| => f(rs[i]))
  }

  const LEFT_OF := (r: Rect) => r.x
  const RIGHT_OF := (r: Rect) => r.x + r.w
  const TOP_OF := (r: Rect) => r.y
  const BOTTOM_OF := (r: Rect) => r.y + r.h

  function Bounds(rs: seq<Rect>): Rect
    requires rs != []
  {
    var left, right := Least(Each(rs, LEFT_OF)), Greatest(Each(rs, RIGHT_OF));
    var top, bottom := Least(Each(rs, TOP_OF)), Greatest(Each(rs, BOTTOM_OF));
    Rect(left, top, right - left, bottom - top)
  }

  lemma EachWithin(rs: seq<Rect>, f: Rect -> real, i: nat)
    requires i < |rs|
    ensures Least(Each(rs, f)) <= f(rs[i]) <= Greatest(Each(rs, f))
  {
  }

  lemma BoundsHold(rs: seq<Rect>, i: nat)
    requires i < |rs|
    ensures Inside(rs[i], Bounds(rs))
  {
    EachWithin(rs, LEFT_OF, i);
    EachWithin(rs, RIGHT_OF, i);
    EachWithin(rs, TOP_OF, i);
    EachWithin(rs, BOTTOM_OF, i);
  }

  lemma EachReached(rs: seq<Rect>, f: Rect -> real) returns (i: nat, k: nat)
    requires rs != []
    ensures i < |rs| && k < |rs| && Least(Each(rs, f)) == f(rs[i]) && Greatest(Each(rs, f)) == f(rs[k])
  {
    var xs := Each(rs, f);
    i :| i < |xs| && xs[i] == Least(xs);
    k :| k < |xs| && xs[k] == Greatest(xs);
  }

  // Whatever area contains the members contains the bounding box.
  lemma BoundsLeast(rs: seq<Rect>, area: Rect)
    requires rs != [] && forall i :: 0 <= i < |rs| ==> Inside(rs[i], area)
    ensures Inside(Bounds(rs), area)
  {
    var left, _ := EachReached(rs, LEFT_OF);
    var _, right := EachReached(rs, RIGHT_OF);
    var top, _ := EachReached(rs, TOP_OF);
    var _, bottom := EachReached(rs, BOTTOM_OF);
    assert Inside(rs[left], area) && Inside(rs[right], area) && Inside(rs[top], area) && Inside(rs[bottom], area);
  }

  // ---------------------------------------------------------------------------
  // Poses

  predicate Sized(r: Rect) {
    r.w >= 0.0 && r.h >= 0.0
  }

  // A parent with a row of groups below it, or a single node, within the box.
  predicate Tidy(p: Pose) {
    && p.members != [] && InRow(p.members[0], p.members[1..])
    && forall m :: 0 <= m < |p.members| ==> Inside(p.members[m], p.area) && Sized(p.members[m])
  }

  lemma TidyMoved(p: Pose, d: real)
    requires Tidy(p)
    ensures Tidy(PoseMoved(p, d))
  {
    InRowMoved(p.members[0], p.members[1..], d);
    assert RectsMoved(p.members, d)[1..] == RectsMoved(p.members[1..], d);
  }

  lemma TidySlid(before: seq<Pose>, after: seq<Pose>, ds: seq<real>)
    requires Slid(before, after, ds) && forall i :: 0 <= i < |before| ==> Tidy(before[i])
    ensures forall i :: 0 <= i < |after| ==> Tidy(after[i])
  {
    forall i | 0 <= i < |after| ensures Tidy(after[i]) {
      TidyMoved(before[i], ds[i]);
    }
  }

  // Side by side at least GAP apart, or one above the other.
  predicate Clear(a: Rect, b: Rect) {
    OverlapY(a, b) > 0.0 ==> a.x + a.w + GAP <= b.x || b.x + b.w + GAP <= a.x
  }

  // Two members of one box.
  lemma MembersClear(p: Pose, m: nat, n: nat)
    requires Tidy(p) && m < n < |p.members|
    ensures Clear(p.members[m], p.members[n])
  {
    var row := p.members[1..];
    assert row[n - 1] == p.members[n];
    if m > 0 {
      assert row[m - 1] == p.members[m];
      assert forall k :: 0 <= k < |row| ==> row[k] == p.members[k + 1];
      RowApart(p.members[0], row, m - 1, n - 1);
    }
  }

  // Members of two boxes that do not clash.
  lemma InsideClear(a: Rect, b: Rect, boxA: Rect, boxB: Rect)
    requires Inside(a, boxA) && Inside(b, boxB) && !Clash(boxA, boxB)
    ensures Clear(a, b)
  {
  }

  lemma ClearBackwards(a: Rect, b: Rect)
    requires Clear(a, b)
    ensures Clear(b, a)
  {
  }

  // When no boxes clash, any two members, of one box or of two, are clear of each other.
  lemma AllClear(ps: seq<Pose>, i: nat, m: nat, j: nat, n: nat)
    requires ClashFree(ps) && forall k :: 0 <= k < |ps| ==> Tidy(ps[k])
    requires i < |ps| && j < |ps| && m < |ps[i].members| && n < |ps[j].members| && (i, m) != (j, n)
    ensures Clear(ps[i].members[m], ps[j].members[n])
  {
    var a, b := ps[i].members[m], ps[j].members[n];
    if i < j {
      InsideClear(a, b, ps[i].area, ps[j].area);
    } else if j < i {
      InsideClear(b, a, ps[j].area, ps[i].area);
      ClearBackwards(b, a);
    } else if m < n {
      MembersClear(ps[i], m, n);
    } else {
      MembersClear(ps[i], n, m);
      ClearBackwards(b, a);
    }
  }
}
