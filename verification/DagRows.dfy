/** The row of groups below their parent. */
module DagRows {
  import opened DagBoxes

  const CHILD_W: real := 168.0

  // ---------------------------------------------------------------------------
  // Sorting by position

  predicate Ascending(ns: seq<PlacedNode>)
    reads ns
  {
    forall i, j :: 0 <= i < j < |ns| ==> ns[i].x <= ns[j].x
  }

  // The same objects, each once.
  ghost predicate Rearranged(ns: seq<PlacedNode>, r: seq<PlacedNode>) {
    && |r| == |ns| && Once(r)
    && (forall i :: 0 <= i < |ns| ==> ns[i] in r)
    && forall i :: 0 <= i < |r| ==> r[i] in ns
  }

  // The list with n in front of its k-th element.
  function Inserted(ns: seq<PlacedNode>, k: nat, n: PlacedNode): (r: seq<PlacedNode>)
    requires k <= |ns|
    ensures |r| == |ns| + 1
    ensures forall i :: 0 <= i < |r| ==> r[i] == if i < k then ns[i] else if i == k then n else ns[i - 1]
  {
    ns[..k] + [n] + ns[k..]
  }

  lemma InsertedOnce(ns: seq<PlacedNode>, k: nat, n: PlacedNode)
    requires k <= |ns| && Once(ns) && n !in ns
    ensures Rearranged(ns + [n], Inserted(ns, k, n))
  {
    var r, all := Inserted(ns, k, n), ns + [n];
    forall i | 0 <= i < |all| ensures all[i] in r {
      assert r[if i == |ns| then k else if i < k then i else i + 1] == all[i];
    }
    forall i | 0 <= i < |r| ensures r[i] in all {
      assert all[if i == k then |ns| else if i < k then i else i - 1] == r[i];
    }
  }

  lemma InsertedAscending(ns: seq<PlacedNode>, k: nat, n: PlacedNode)
    requires k <= |ns| && Ascending(ns)
    requires forall i :: k <= i < |ns| ==> ns[i].x > n.x
    requires k > 0 ==> ns[k - 1].x <= n.x
    ensures Ascending(Inserted(ns, k, n))
  {
    var r := Inserted(ns, k, n);
    forall i, j | 0 <= i < j < |r| ensures r[i].x <= r[j].x {
      if j == k {
        assert ns[i].x <= ns[k - 1].x;
      }
    }
  }

  method InsertByX(sorted: seq<PlacedNode>, n: PlacedNode) returns (r: seq<PlacedNode>)
    requires Ascending(sorted) && Once(sorted) && n !in sorted
    ensures Ascending(r) && Rearranged(sorted + [n], r)
  {
    var k := |sorted|;
    while k > 0 && sorted[k - 1].x > n.x
      invariant 0 <= k <= |sorted| && forall i :: k <= i < |sorted| ==> sorted[i].x > n.x
    {
      k := k - 1;
    }
    InsertedOnce(sorted, k, n);
    InsertedAscending(sorted, k, n);
    r := Inserted(sorted, k, n);
  }

  lemma RearrangedOn(a: seq<PlacedNode>, b: seq<PlacedNode>, n: PlacedNode, r: seq<PlacedNode>)
    requires Rearranged(a, b) && Rearranged(b + [n], r)
    ensures Rearranged(a + [n], r)
  {
    var u, v := a + [n], b + [n];
    assert v[|b|] == n;
    forall i | 0 <= i < |u| ensures u[i] in r {
      if i < |a| {
        assert a[i] in b;
        var k :| 0 <= k < |b| && b[k] == a[i];
        assert v[k] == u[i];
      }
    }
    forall i | 0 <= i < |r| ensures r[i] in u {
      assert r[i] in v;
      assert u[|a|] == n;
    }
  }

  method SortByX(ns: seq<PlacedNode>) returns (r: seq<PlacedNode>)
    requires Once(ns)
    ensures Ascending(r) && Rearranged(ns, r)
  {
    r := [];
    for i := 0 to |ns|
      invariant Ascending(r) && Rearranged(ns[..i], r)
    {
      ghost var before := r;
      NotYet(ns, i, r);
      r := InsertByX(r, ns[i]);
      RearrangedOn(ns[..i], before, ns[i], r);
      assert ns[..i + 1] == ns[..i] + [ns[i]];
    }
    assert ns[..|ns|] == ns;
  }

  lemma NotYet(ns: seq<PlacedNode>, i: nat, r: seq<PlacedNode>)
    requires Once(ns) && i < |ns| && Rearranged(ns[..i], r)
    ensures ns[i] !in r
  {
    assert ns[i] !in ns[..i];
    forall k | 0 <= k < |r| ensures r[k] != ns[i] {
      assert r[k] in ns[..i];
    }
  }

  // ---------------------------------------------------------------------------
  // The row

  // Groups side by side, GAP apart, centred below the parent and GAP below it.
  predicate InRow(parent: Rect, row: seq<Rect>) {
    && (forall k :: 0 <= k < |row| ==> row[k].y == parent.y + parent.h + GAP)
    && (forall k :: 0 <= k < |row| - 1 ==> row[k + 1].x == row[k].x + row[k].w + GAP)
    && (row != [] ==> row[0].x + row[|row| - 1].x + row[|row| - 1].w == 2.0 * parent.x + CHILD_W)
  }

  // A row that moves with its parent stays one.
  lemma InRowMoved(parent: Rect, row: seq<Rect>, d: real)
    requires InRow(parent, row)
    ensures InRow(RectMoved(parent, d), RectsMoved(row, d))
  {
  }

  // Neighbours in a row are apart, and so are all others.
  lemma {:induction false} RowApart(parent: Rect, row: seq<Rect>, i: nat, j: nat)
    requires InRow(parent, row) && i < j < |row| && forall k :: 0 <= k < |row| ==> row[k].w >= 0.0
    ensures row[i].x + row[i].w + GAP <= row[j].x
    decreases j
  {
    if i < j - 1 {
      RowApart(parent, row, i, j - 1);
    }
  }

  // The widths of the first k nodes, with a gap behind each.
  function Offset(ns: seq<PlacedNode>, k: nat): real
    requires k <= |ns|
  {
    if k == 0 then 0.0 else Offset(ns, k - 1) + ns[k - 1].w + GAP
  }

  method TotalWidth(ns: seq<PlacedNode>) returns (total: real)
    ensures total == Offset(ns, |ns|) - GAP
  {
    total := 0.0;
    for k := 0 to |ns|
      invariant total == Offset(ns, k) - k as real * GAP
    {
      total := total + ns[k].w;
    }
    total := total + (|ns| - 1) as real * GAP;
  }

  // The loop that sets the y positions.
  method Lower(siblings: seq<PlacedNode>, y: real)
    modifies siblings`y
    ensures forall i :: 0 <= i < |siblings| ==> siblings[i].y == y
  {
    for k := 0 to |siblings|
      invariant forall i :: 0 <= i < k ==> siblings[i].y == y
    {
      siblings[k].y := y;
    }
  }

  // The row is the siblings in the order of their former positions.
  method PlaceRow(parent: PlacedNode, siblings: seq<PlacedNode>) returns (row: seq<PlacedNode>)
    requires Once(siblings) && parent !in siblings
    modifies siblings
    ensures Rearranged(siblings, row) && old(Ascending(row)) && InRow(parent.Area(), Areas(row))
  {
    var center, bottom := parent.x + CHILD_W / 2.0, parent.y + parent.h;
    Lower(siblings, bottom + GAP);
    row := SortByX(siblings);
    assert old(Ascending(row));
    var total := TotalWidth(row);
    ghost var offsets := Offsets(row);
    PlaceFrom(row, center - total / 2.0, offsets);
    RowDone(parent, row, center - total / 2.0, offsets);
  }

  // The loop that sets the x positions.
  method PlaceFrom(row: seq<PlacedNode>, left: real, ghost offsets: seq<real>)
    requires Once(row) && Steps(row, offsets)
    modifies row`x
    ensures forall i :: 0 <= i < |row| ==> row[i].x == left + offsets[i]
  {
    var x := left;
    for k := 0 to |row|
      invariant x == left + offsets[k]
      invariant forall i :: 0 <= i < k ==> row[i].x == left + offsets[i]
    {
      row[k].x := x;
      x := x + row[k].w + GAP;
    }
  }

  // Offsets that grow by one width and one gap at a time.
  ghost predicate Steps(row: seq<PlacedNode>, offsets: seq<real>) {
    && |offsets| == |row| + 1 && offsets[0] == 0.0
    && forall k :: 0 <= k < |row| ==> offsets[k + 1] == offsets[k] + row[k].w + GAP
  }

  function Offsets(row: seq<PlacedNode>): (r: seq<real>)
    ensures Steps(row, r) && r[|row|] == Offset(row, |row|)
  {
    seq(|row| + 1, i requires 0 <= i <= |row| => Offset(row, i))
  }

  lemma RowDone(parent: PlacedNode, row: seq<PlacedNode>, left: real, offsets: seq<real>)
    requires Steps(row, offsets) && left == parent.x + CHILD_W / 2.0 - (offsets[|row|] - GAP) / 2.0
    requires forall i :: 0 <= i < |row| ==> row[i].y == parent.y + parent.h + GAP && row[i].x == left + offsets[i]
    ensures InRow(parent.Area(), Areas(row))
  {
    if row != [] {
      var last := |row| - 1;
      assert offsets[last + 1] == offsets[last] + row[last].w + GAP;
    }
  }
}
