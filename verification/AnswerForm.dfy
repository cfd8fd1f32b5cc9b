/** What the final list of grants holds, row by row and field by field. */
module AnswerForm {
  import opened GrantTypes
  import opened GrantClassifier
  import opened FirstSeen
  import opened GrantRows

  // g passes on the privilege of h, on what the query names, with the type of h.
  predicate PassesOn(g: Grant, h: Grant, q: ObjectQuery) {
    && g.privilege == h.privilege && !g.grantable
    && g.catalog == q.catalog && g.database == q.database && g.name == q.name
    && g.objectType == if h.objectType != "" then h.objectType
                       else if q.TypeUpper() != "" then q.TypeUpper() else "TABLE"
  }

  lemma PassesOnTwice(g: Grant, h: Grant, k: Grant, q: ObjectQuery)
    requires PassesOn(g, h, q) && PassesOn(h, k, q)
    ensures PassesOn(g, k, q)
  {
  }

  // No row before this one owes its name a USAGE.
  predicate OwedFirst(rows: seq<Row>, i: int) {
    && 0 <= i < |rows| && rows[i].rel == IMPLICIT_USAGE
    && forall j :: 0 <= j < i && rows[j].rel == IMPLICIT_USAGE ==> rows[j].grant.grantee != rows[i].grant.grantee
  }

  // g is the right of usage of the queried database or catalog, for the grantee of a row.
  predicate UsageOf(g: Grant, q: ObjectQuery, row: Grant) {
    && g.grantee == row.grantee && g.granteeType == row.granteeType
    && g.privilege == "USAGE" && g.objectType == q.TypeUpper()
    && g.catalog == q.catalog && g.database == q.database && g.name == None
    && !g.grantable && g.source == row.source + " (implicit)"
  }

  // The grant that row i stands for: its own, or the first USAGE owed to its name.
  predicate Yields(rows: seq<Row>, q: ObjectQuery, i: int, g: Grant) {
    && 0 <= i < |rows|
    && if rows[i].rel == IMPLICIT_USAGE then OwedFirst(rows, i) && UsageOf(g, q, rows[i].grant)
       else g == rows[i].grant
  }

  // g stands for row i, and no row before it stands for the same.
  ghost predicate YieldsFirst(rows: seq<Row>, q: ObjectQuery, i: int, g: Grant) {
    Yields(rows, q, i, g) && forall j, h :: j < i && Yields(rows, q, j, h) ==> !SameGrant(g, h)
  }

  // Some answer says the same as g.
  ghost predicate Said(grants: seq<Grant>, g: Grant) {
    exists k :: 0 <= k < |grants| && SameGrant(grants[k], g)
  }

  // The answers stand for rows in their order, each for the first that says the same, no
  // two say the same, and what any row stands for is said.
  ghost predicate NormalForm(rows: seq<Row>, q: ObjectQuery, grants: seq<Grant>) {
    && (exists at :: |at| == |grants| && Increasing(at)
                     && forall k :: 0 <= k < |grants| ==> YieldsFirst(rows, q, at[k], grants[k]))
    && (forall j, k :: 0 <= j < k < |grants| ==> !SameGrant(grants[j], grants[k]))
    && (forall i, g :: Yields(rows, q, i, g) ==> Said(grants, g))
  }

  // ---------------------------------------------------------------------------

  // The grants yield from rows[at[0]], rows[at[1]], ... and these are all that yield.
  ghost predicate YieldAt(rows: seq<Row>, q: ObjectQuery, at: seq<int>, grants: seq<Grant>) {
    && |at| == |grants| && Increasing(at)
    && (forall k :: 0 <= k < |grants| ==> Yields(rows, q, at[k], grants[k]))
    && (forall i, g :: Yields(rows, q, i, g) ==> exists k :: 0 <= k < |grants| && at[k] == i && grants[k] == g)
  }

  lemma YieldsBefore(rows: seq<Row>, q: ObjectQuery, row: Row, i: int, g: Grant)
    requires i < |rows|
    ensures Yields(rows + [row], q, i, g) <==> Yields(rows, q, i, g)
  {
    assert forall j :: 0 <= j < |rows| ==> (rows + [row])[j] == rows[j];
  }

  lemma OwedLast(rows: seq<Row>, row: Row)
    requires row.rel == IMPLICIT_USAGE
    ensures OwedFirst(rows + [row], |rows|) <==> row.grant.grantee !in UsageNames(rows)
  {
    assert forall j :: 0 <= j < |rows| ==> (rows + [row])[j] == rows[j];
  }

  // The last row is turned into a grant.
  lemma YieldMore(rows: seq<Row>, q: ObjectQuery, row: Row, at: seq<int>, grants: seq<Grant>, g: Grant)
    requires YieldAt(rows, q, at, grants) && Yields(rows + [row], q, |rows|, g)
    ensures YieldAt(rows + [row], q, at + [|rows|], grants + [g])
  {
    var more, pos, all := rows + [row], at + [|rows|], grants + [g];
    forall k | 0 <= k < |all| ensures Yields(more, q, pos[k], all[k]) {
      if k < |grants| {
        YieldsBefore(rows, q, row, at[k], grants[k]);
      }
    }
    forall i, h | Yields(more, q, i, h) ensures exists k :: 0 <= k < |all| && pos[k] == i && all[k] == h {
      if i < |rows| {
        YieldsBefore(rows, q, row, i, h);
        var k :| 0 <= k < |grants| && at[k] == i && grants[k] == h;
        assert pos[k] == i && all[k] == h;
      } else {
        YieldsOnce(more, q, i, g, h);
        assert pos[|grants|] == i && all[|grants|] == h;
      }
    }
  }

  lemma YieldsOnce(rows: seq<Row>, q: ObjectQuery, i: int, g: Grant, h: Grant)
    requires Yields(rows, q, i, g) && Yields(rows, q, i, h)
    ensures g == h
  {
  }

  // The last row is not.
  lemma YieldNoMore(rows: seq<Row>, q: ObjectQuery, row: Row, at: seq<int>, grants: seq<Grant>)
    requires YieldAt(rows, q, at, grants) && row.rel == IMPLICIT_USAGE && row.grant.grantee in UsageNames(rows)
    ensures YieldAt(rows + [row], q, at, grants)
  {
    OwedLast(rows, row);
    forall k | 0 <= k < |grants| ensures Yields(rows + [row], q, at[k], grants[k]) {
      YieldsBefore(rows, q, row, at[k], grants[k]);
    }
    forall i, h | Yields(rows + [row], q, i, h) ensures exists k :: 0 <= k < |grants| && at[k] == i && grants[k] == h {
      YieldsBefore(rows, q, row, i, h);
    }
  }

  lemma {:induction false} ConvertedYield(rows: seq<Row>, q: ObjectQuery) returns (at: seq<int>)
    ensures YieldAt(rows, q, at, Converted(rows, q))
  {
    at := [];
    if rows != [] {
      var init, last := rows[..|rows| - 1], rows[|rows| - 1];
      assert rows == init + [last];
      at := ConvertedYield(init, q);
      if last.rel == IMPLICIT_USAGE && last.grant.grantee in UsageNames(init) {
        YieldNoMore(init, q, last, at, Converted(init, q));
      } else {
        var g := if last.rel == IMPLICIT_USAGE then UsageGrant(last.grant, q) else last.grant;
        LastYields(init, q, last, g);
        YieldMore(init, q, last, at, Converted(init, q), g);
        at := at + [|init|];
      }
    }
  }

  lemma LastYields(rows: seq<Row>, q: ObjectQuery, row: Row, g: Grant)
    requires row.rel == IMPLICIT_USAGE ==> row.grant.grantee !in UsageNames(rows)
    requires g == if row.rel == IMPLICIT_USAGE then UsageGrant(row.grant, q) else row.grant
    ensures Yields(rows + [row], q, |rows|, g)
  {
    if row.rel == IMPLICIT_USAGE {
      OwedLast(rows, row);
    }
  }

  // Position by position through both steps.
  lemma PickedYield(
      rows: seq<Row>, q: ObjectQuery, from: seq<int>, converted: seq<Grant>, at: seq<int>, grants: seq<Grant>, k: int)
    requires YieldAt(rows, q, from, converted) && PickedAt(converted, at, grants) && 0 <= k < |grants|
    requires FirstOfKey(converted, ROW_KEY, at[k])
    ensures YieldsFirst(rows, q, from[at[k]], grants[k])
  {
    forall j, h | j < from[at[k]] && Yields(rows, q, j, h) ensures !SameGrant(grants[k], h) {
      var m :| 0 <= m < |converted| && from[m] == j && converted[m] == h;
      assert m < at[k];
      SameKey(grants[k], h);
    }
  }

  lemma PickedAscend(from: seq<int>, at: seq<int>)
    requires Increasing(from) && Increasing(at) && forall k :: 0 <= k < |at| ==> 0 <= at[k] < |from|
    ensures Increasing(seq(|at|, k requires 0 <= k < |at| => from[at[k]]))
  {
  }

  lemma AllSaid(converted: seq<Grant>, g: Grant)
    requires g in converted
    ensures Said(Unique(converted, ROW_KEY), g)
  {
    var i :| 0 <= i < |converted| && converted[i] == g;
    UniqueKeeps(converted, ROW_KEY);
    assert ROW_KEY(g) in Keys(converted, ROW_KEY);
    var u := Unique(converted, ROW_KEY);
    var k :| 0 <= k < |u| && ROW_KEY(u[k]) == ROW_KEY(g);
    SameKey(u[k], g);
  }

  lemma NoneSaidTwice(converted: seq<Grant>, j: int, k: int)
    requires 0 <= j < k < |Unique(converted, ROW_KEY)|
    ensures !SameGrant(Unique(converted, ROW_KEY)[j], Unique(converted, ROW_KEY)[k])
  {
    UniqueKeeps(converted, ROW_KEY);
    SameKey(Unique(converted, ROW_KEY)[j], Unique(converted, ROW_KEY)[k]);
  }

  // Each answer stands for the first row that says the same, in order.
  lemma PickedForm(
      rows: seq<Row>, q: ObjectQuery, from: seq<int>, converted: seq<Grant>, at: seq<int>, grants: seq<Grant>)
    returns (pos: seq<int>)
    requires YieldAt(rows, q, from, converted) && PickedAt(converted, at, grants)
    requires forall i :: i in at ==> FirstOfKey(converted, ROW_KEY, i)
    ensures |pos| == |grants| && Increasing(pos)
    ensures forall k :: 0 <= k < |grants| ==> YieldsFirst(rows, q, pos[k], grants[k])
  {
    pos := seq(|at|, k requires 0 <= k < |at| => from[at[k]]);
    PickedAscend(from, at);
    forall k | 0 <= k < |grants| ensures YieldsFirst(rows, q, pos[k], grants[k]) {
      assert at[k] in at;
      PickedYield(rows, q, from, converted, at, grants, k);
    }
  }

  lemma YieldSaid(
      rows: seq<Row>, q: ObjectQuery, from: seq<int>, converted: seq<Grant>, i: int, g: Grant)
    requires YieldAt(rows, q, from, converted) && Yields(rows, q, i, g)
    ensures Said(Unique(converted, ROW_KEY), g)
  {
    var k :| 0 <= k < |converted| && from[k] == i && converted[k] == g;
    AllSaid(converted, g);
  }

  // Conversion and deduplication give the normal form of the rows.
  lemma FinalForm(rows: seq<Row>, q: ObjectQuery)
    ensures NormalForm(rows, q, Unique(Converted(rows, q), ROW_KEY))
  {
    var converted := Converted(rows, q);
    var grants := Unique(converted, ROW_KEY);
    var from := ConvertedYield(rows, q);
    var at := UniqueFirst(converted, ROW_KEY);
    var pos := PickedForm(rows, q, from, converted, at, grants);
    forall j, k | 0 <= j < k < |grants| ensures !SameGrant(grants[j], grants[k]) {
      NoneSaidTwice(converted, j, k);
    }
    forall i, g | Yields(rows, q, i, g) ensures Said(grants, g) {
      YieldSaid(rows, q, from, converted, i, g);
    }
  }

  method Finalize(rows: seq<Row>, q: ObjectQuery) returns (grants: seq<Grant>)
    ensures grants == Unique(Converted(rows, q), ROW_KEY) && NormalForm(rows, q, grants)
  {
    var results: seq<Grant> := [];
    var usageConverted: set<string> := {};
    for i := 0 to |rows|
      invariant results == Converted(rows[..i], q)
      invariant usageConverted == UsageNames(rows[..i])
    {
      var row := rows[i];
      assert rows[..i + 1][..i] == rows[..i];
      assert UsageNames(rows[..i + 1]) ==
             UsageNames(rows[..i]) + if row.rel == IMPLICIT_USAGE then {row.grant.grantee} else {} by {
        UsageNamesNext(rows, i);
      }
      if row.rel == IMPLICIT_USAGE {
        if row.grant.grantee !in usageConverted {
          usageConverted := usageConverted + {row.grant.grantee};
          results := results + [UsageGrant(row.grant, q)];
        }
      } else {
        results := results + [row.grant];
      }
    }
    assert rows[..|rows|] == rows;
    grants := Deduplicate(results);
    FinalForm(rows, q);
  }

  lemma UsageNamesNext(rows: seq<Row>, i: nat)
    requires i < |rows|
    ensures UsageNames(rows[..i + 1]) ==
            UsageNames(rows[..i]) + if rows[i].rel == IMPLICIT_USAGE then {rows[i].grant.grantee} else {}
  {
    var known, longer := rows[..i], rows[..i + 1];
    forall k | 0 <= k < i ensures longer[k] == known[k] {
    }
    assert longer[i] == rows[i];
  }

  // ---------------------------------------------------------------------------
  // What the form says

  // A row that is not owed a USAGE keeps its grant.
  lemma RowSaid(rows: seq<Row>, q: ObjectQuery, grants: seq<Grant>, row: Row)
    requires NormalForm(rows, q, grants) && row in rows && row.rel != IMPLICIT_USAGE
    ensures Said(grants, row.grant)
  {
    var i :| 0 <= i < |rows| && rows[i] == row;
    assert Yields(rows, q, i, row.grant);
  }

  // Every answer is the grant of such a row or a USAGE.
  lemma AnswerIs(rows: seq<Row>, q: ObjectQuery, grants: seq<Grant>, g: Grant)
    requires NormalForm(rows, q, grants) && g in grants
    ensures || (exists row :: row in rows && row.rel != IMPLICIT_USAGE && row.grant == g)
            || (exists i :: OwedFirst(rows, i) && UsageOf(g, q, rows[i].grant))
  {
    var k :| 0 <= k < |grants| && grants[k] == g;
    var at :| |at| == |grants| && Increasing(at)
              && forall k :: 0 <= k < |grants| ==> YieldsFirst(rows, q, at[k], grants[k]);
    assert YieldsFirst(rows, q, at[k], g);
  }

  ghost predicate ListsPriv(grants: seq<Grant>, name: string, t: GranteeType, priv: string) {
    exists g :: g in grants && g.grantee == name && g.granteeType == t && g.privilege == priv
  }

  // Without a USAGE the answer lists what the rows list.
  lemma ListsRows(rows: seq<Row>, q: ObjectQuery, grants: seq<Grant>, name: string, t: GranteeType, priv: string)
    requires NormalForm(rows, q, grants) && forall row :: row in rows ==> row.rel != IMPLICIT_USAGE
    ensures ListsPriv(grants, name, t, priv) <==> HasRow(rows, name, t, priv)
  {
    if row :| row in rows && row.grant.grantee == name && row.grant.granteeType == t && row.grant.privilege == priv {
      RowSaid(rows, q, grants, row);
      var k :| 0 <= k < |grants| && SameGrant(grants[k], row.grant);
      assert grants[k] in grants;
    }
    if g :| g in grants && g.grantee == name && g.granteeType == t && g.privilege == priv {
      AnswerIs(rows, q, grants, g);
    }
  }

  lemma ListsNames(rows: seq<Row>, q: ObjectQuery, grants: seq<Grant>, name: string, t: GranteeType)
    requires NormalForm(rows, q, grants) && forall row :: row in rows ==> row.rel != IMPLICIT_USAGE
    ensures ListsGrant(grants, name, t) <==> Lists(rows, name, t)
  {
    ListsSome(rows, name, t);
    if g :| g in grants && g.grantee == name && g.granteeType == t {
      ListsRows(rows, q, grants, name, t, g.privilege);
      assert ListsPriv(grants, name, t, g.privilege);
    }
    if x :| HasRow(rows, name, t, x) {
      ListsRows(rows, q, grants, name, t, x);
    }
  }
}
