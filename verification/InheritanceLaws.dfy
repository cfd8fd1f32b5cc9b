/**
  What the push of privileges to child roles keeps and what it drops, and whether the
  origin that a child role is credited to holds what the role inherits.
 */
module InheritanceLaws {
  import opened RoleGraph
  import opened RankedSearch
  import opened BfsResolver

  ghost predicate StrictlyAbove(g: Graph, h: string, c: string) {
    exists n: nat :: n >= 1 && Walk(g, h, c, n)
  }

  // The one holder whose privileges a reached role hands to its children.
  function Giver(H: set<string>, result: map<string, Inheritance>, p: string): string {
    if p in H || p !in result then p else result[p].origin
  }

  lemma HolderAbove(g: Graph, H: set<string>, result: map<string, Inheritance>, p: string)
    requires Origins(g, H, result) && ReachedFrom(g, H, p)
    ensures Giver(H, result, p) in H && Reaches(g, Giver(H, result, p), p)
    ensures p !in H ==> p in result && NearestAbove(g, H, p, result[p].origin)
  {
    if p in H {
      ReachesSelf(g, p);
    } else {
      var h :| h in H && Reaches(g, h, p);
      var n: nat :| Walk(g, h, p, n);
      assert Below(g, H, p);
      assert NearestAbove(g, H, p, result[p].origin);
    }
  }

  lemma GiverPasses(g: Graph, rolePrivs: RolePrivs, result: map<string, Inheritance>, p: string)
    requires ChildRoles(g, rolePrivs, result) && ReachedFrom(g, rolePrivs.Keys, p)
    ensures Giver(rolePrivs.Keys, result, p) in rolePrivs
    ensures Passed(rolePrivs, result, p) == rolePrivs[Giver(rolePrivs.Keys, result, p)]
    ensures Reaches(g, Giver(rolePrivs.Keys, result, p), p)
  {
    HolderAbove(g, rolePrivs.Keys, result, p);
  }

  // Nothing is inherited that no role above holds.
  lemma InheritanceSound(g: Graph, rolePrivs: RolePrivs, result: map<string, Inheritance>, c: string, x: string)
    requires ChildRoles(g, rolePrivs, result) && c in result && x in result[c].privs
    ensures exists h :: h in rolePrivs && x in rolePrivs[h] && StrictlyAbove(g, h, c)
  {
    var p :| HandedBy(g, rolePrivs, result, p, c, x);
    GiverPasses(g, rolePrivs, result, p);
    var h := Giver(rolePrivs.Keys, result, p);
    var n: nat :| Walk(g, h, p, n);
    WalkStep(g, h, p, c, n);
    assert StrictlyAbove(g, h, c);
  }

  // The last edge of a walk from a holder down to c starts at a reached role.
  lemma LastReached(g: Graph, H: set<string>, h: string, c: string) returns (p: string)
    requires h in H && StrictlyAbove(g, h, c)
    ensures ReachedFrom(g, H, p) && Reaches(g, h, p) && c in Next(g, p)
  {
    var n: nat :| n >= 1 && Walk(g, h, c, n);
    p :| Walk(g, h, p, n - 1) && c in Next(g, p);
    assert Reaches(g, h, p);
  }

  // When all holders above c hold the same privileges - one holder in particular -
  // c inherits exactly those.
  lemma AgreeingHoldersComplete(
      g: Graph, rolePrivs: RolePrivs, result: map<string, Inheritance>, c: string, privs: set<string>)
    requires ChildRoles(g, rolePrivs, result) && c in result
    requires forall h :: h in rolePrivs && StrictlyAbove(g, h, c) ==> rolePrivs[h] == privs
    ensures result[c].privs == privs
  {
    forall x | x in result[c].privs ensures x in privs {
      InheritanceSound(g, rolePrivs, result, c, x);
    }
    var h, n: nat :| h in rolePrivs && n >= 1 && Walk(g, h, c, n);
    var p := LastReached(g, rolePrivs.Keys, h, c);
    GiverPasses(g, rolePrivs, result, p);
    var o := Giver(rolePrivs.Keys, result, p);
    var m: nat :| Walk(g, o, p, m);
    WalkStep(g, o, p, c, m);
    assert StrictlyAbove(g, o, c);
    forall x | x in privs ensures x in result[c].privs {
      assert HandedBy(g, rolePrivs, result, p, c, x);
    }
  }

  // Every privilege held by a role above c arrives at c.
  ghost predicate Complete(g: Graph, rolePrivs: RolePrivs, result: map<string, Inheritance>, c: string)
    requires c in result
  {
    forall h, x :: h in rolePrivs && StrictlyAbove(g, h, c) && x in rolePrivs[h] ==> x in result[c].privs
  }

  // o is the only holder at minimum distance above p.
  ghost predicate OnlyNearest(g: Graph, H: set<string>, p: string, o: string) {
    NearestAbove(g, H, p, o) && forall q :: NearestAbove(g, H, p, q) ==> q == o
  }

  // p, a parent of c, hands on what h holds whichever way the ties are broken: it is h
  // itself, or it holds nothing and h is nearer to it than every other holder.
  ghost predicate Relays(g: Graph, H: set<string>, h: string, p: string, c: string) {
    ReachedFrom(g, H, p) && c in Next(g, p) && (p == h || (p !in H && OnlyNearest(g, H, p, h)))
  }

  // No holder above c is masked by another on all ways down to c.
  ghost predicate NeverMasked(g: Graph, H: set<string>, c: string) {
    forall h :: h in H && StrictlyAbove(g, h, c) ==> exists p :: Relays(g, H, h, p, c)
  }

  // In this result some reached parent of c hands on what h holds.
  ghost predicate GivesTo(g: Graph, H: set<string>, result: map<string, Inheritance>, h: string, c: string) {
    exists p :: ReachedFrom(g, H, p) && c in Next(g, p) && Giver(H, result, p) == h
  }

  lemma RelayGives(g: Graph, H: set<string>, result: map<string, Inheritance>, h: string, p: string, c: string)
    requires Origins(g, H, result) && h in H && Relays(g, H, h, p, c)
    ensures GivesTo(g, H, result, h, c)
  {
    if p != h {
      HolderAbove(g, H, result, p);
    }
    assert Giver(H, result, p) == h;
  }

  lemma NeverMaskedComplete(g: Graph, rolePrivs: RolePrivs, result: map<string, Inheritance>, c: string)
    requires ChildRoles(g, rolePrivs, result) && c in result
    requires NeverMasked(g, rolePrivs.Keys, c)
    ensures Complete(g, rolePrivs, result, c)
  {
    var H := rolePrivs.Keys;
    forall h, x | h in rolePrivs && StrictlyAbove(g, h, c) && x in rolePrivs[h] ensures x in result[c].privs {
      var q :| Relays(g, H, h, q, c);
      RelayGives(g, H, result, h, q, c);
      var p :| ReachedFrom(g, H, p) && c in Next(g, p) && Giver(H, result, p) == h;
      GiverPasses(g, rolePrivs, result, p);
      assert HandedBy(g, rolePrivs, result, p, c, x);
    }
  }

  lemma {:induction false} SomeNearest(g: Graph, H: set<string>, h: string, c: string, n: nat)
    requires h in H && n >= 1 && Walk(g, h, c, n)
    ensures exists o :: NearestAbove(g, H, c, o)
    decreases n
  {
    if q, m: nat :| q in H && 1 <= m < n && Walk(g, q, c, m) {
      SomeNearest(g, H, q, c, m);
    } else {
      assert NearestAbove(g, H, c, h);
    }
  }

  lemma BelowInUniverse(g: Graph, H: set<string>, c: string)
    requires Below(g, H, c)
    ensures c in Universe(g, H)
  {
    var h, n: nat :| h in H && n >= 1 && Walk(g, h, c, n);
    WalkInUniverse(g, H, h, c, n);
  }

  // ---------------------------------------------------------------------------
  // The run for a given order of the holders

  // The set in some order.
  lemma OrderOf(H: set<string>) returns (order: seq<string>)
    ensures Elements(order) == H && NoRepeats(order)
  {
    order := [];
    var rest := H;
    while rest != {}
      invariant rest <= H && Elements(order) == H - rest && NoRepeats(order)
      decreases rest
    {
      var h :| h in rest;
      ElementsAppend(order, h);
      assert h !in Elements(order);
      order, rest := order + [h], rest - {h};
    }
  }

  // An order that starts with h.
  lemma OrderFrom(H: set<string>, h: string) returns (order: seq<string>)
    requires h in H
    ensures Elements(order) == H && NoRepeats(order) && order != [] && order[0] == h
  {
    var rest := OrderOf(H - {h});
    order := [h] + rest;
    assert h !in Elements(rest);
    forall r ensures r in order <==> r == h || r in Elements(rest) {
      assert r in order <==> r == h || r in rest;
    }
  }

  // An order that ends with h.
  lemma OrderTo(H: set<string>, h: string) returns (order: seq<string>)
    requires h in H
    ensures Elements(order) == H && NoRepeats(order) && order != [] && order[|order| - 1] == h
  {
    var rest := OrderOf(H - {h});
    order := rest + [h];
    assert h !in Elements(rest);
    ElementsAppend(rest, h);
  }

  lemma LastRank(order: seq<string>, o: string)
    requires NoRepeats(order) && order != [] && o in order
    ensures Rank(order, o) == |order| - 1 <==> o == order[|order| - 1]
  {
    RankAt(order, |order| - 1);
  }

  lemma {:induction false} FirstOfNearest(g: Graph, order: seq<string>, c: string, o: string) returns (f: string)
    requires NearestAbove(g, Elements(order), c, o)
    ensures FirstAbove(g, order, c, f)
    decreases Rank(order, o)
  {
    if q :| NearestAbove(g, Elements(order), c, q) && Rank(order, q) < Rank(order, o) {
      f := FirstOfNearest(g, order, c, q);
    } else {
      f := o;
    }
  }

  ghost function FirstOf(g: Graph, order: seq<string>, c: string): (o: string)
    ensures (exists f :: FirstAbove(g, order, c, f)) ==> FirstAbove(g, order, c, o)
  {
    if f :| FirstAbove(g, order, c, f) then f else ""
  }

  // The origins of the run.
  ghost function RunOrigins(g: Graph, order: seq<string>): map<string, Inheritance> {
    map c | c in Universe(g, Elements(order)) && Below(g, Elements(order), c) ::
      Inheritance({}, FirstOf(g, order, c))
  }

  ghost predicate FirstOrigins(g: Graph, order: seq<string>, result: map<string, Inheritance>) {
    && Origins(g, Elements(order), result)
    && forall c :: c in result ==> FirstAbove(g, order, c, result[c].origin)
  }

  lemma RunOriginsAre(g: Graph, order: seq<string>)
    ensures FirstOrigins(g, order, RunOrigins(g, order))
  {
    var H, run := Elements(order), RunOrigins(g, order);
    forall c | Below(g, H, c) ensures c in run && FirstAbove(g, order, c, run[c].origin) {
      BelowInUniverse(g, H, c);
      var q, n: nat :| q in H && n >= 1 && Walk(g, q, c, n);
      SomeNearest(g, H, q, c, n);
      var o :| NearestAbove(g, H, c, o);
      var f := FirstOfNearest(g, order, c, o);
    }
  }

  // The same holders, each holding just a privilege named after itself.
  function Names(H: set<string>): RolePrivs {
    map h | h in H :: {h}
  }

  ghost function NamedResult(g: Graph, H: set<string>, result: map<string, Inheritance>): map<string, Inheritance> {
    map c | c in result :: Inheritance((set h | h in H && GivesTo(g, H, result, h, c)), result[c].origin)
  }

  lemma NamedInherits(g: Graph, H: set<string>, result: map<string, Inheritance>, c: string, x: string)
    requires Origins(g, H, result) && c in result
    ensures Inherits(g, Names(H), NamedResult(g, H, result), c, x) <==> x in H && GivesTo(g, H, result, x, c)
  {
    var names, named := Names(H), NamedResult(g, H, result);
    assert names.Keys == H;
    forall p | ReachedFrom(g, H, p)
      ensures Giver(H, result, p) in H && Passed(names, named, p) == {Giver(H, result, p)}
    {
      HolderAbove(g, H, result, p);
    }
    if x in H && GivesTo(g, H, result, x, c) {
      var p :| ReachedFrom(g, H, p) && c in Next(g, p) && Giver(H, result, p) == x;
      assert HandedBy(g, names, named, p, c, x);
    }
    if p :| HandedBy(g, names, named, p, c, x) {
      assert Giver(H, result, p) == x;
    }
  }

  lemma NamedIsResult(g: Graph, H: set<string>, result: map<string, Inheritance>)
    requires Origins(g, H, result)
    ensures Names(H).Keys == H && ChildRoles(g, Names(H), NamedResult(g, H, result))
  {
    assert Names(H).Keys == H;
    forall c, x | c in result
      ensures x in NamedResult(g, H, result)[c].privs <==> Inherits(g, Names(H), NamedResult(g, H, result), c, x)
    {
      NamedInherits(g, H, result, c, x);
    }
  }

  // The run for this order, when each holder holds just a privilege named after itself.
  ghost function NamedRun(g: Graph, order: seq<string>): map<string, Inheritance> {
    NamedResult(g, Elements(order), RunOrigins(g, order))
  }

  lemma NamedIsRun(g: Graph, order: seq<string>)
    requires NoRepeats(order)
    ensures Names(Elements(order)).Keys == Elements(order)
    ensures ChildRun(g, Names(Elements(order)), order, NamedRun(g, order))
  {
    RunOriginsAre(g, order);
    NamedIsResult(g, Elements(order), RunOrigins(g, order));
  }

  // A holder that comes last gives only where no tie has to be broken.
  lemma LastGives(g: Graph, order: seq<string>, h: string, c: string)
    requires NoRepeats(order) && order != [] && order[|order| - 1] == h
    requires GivesTo(g, Elements(order), RunOrigins(g, order), h, c)
    ensures exists p :: Relays(g, Elements(order), h, p, c)
  {
    var H, run := Elements(order), RunOrigins(g, order);
    RunOriginsAre(g, order);
    var p :| ReachedFrom(g, H, p) && c in Next(g, p) && Giver(H, run, p) == h;
    if p !in H {
      HolderAbove(g, H, run, p);
      LastOnly(g, order, p, h);
    }
    assert Relays(g, H, h, p, c);
  }

  lemma LastOnly(g: Graph, order: seq<string>, p: string, h: string)
    requires NoRepeats(order) && order != [] && order[|order| - 1] == h && FirstAbove(g, order, p, h)
    ensures OnlyNearest(g, Elements(order), p, h)
  {
    forall q | NearestAbove(g, Elements(order), p, q) ensures q == h {
      assert q in order && h in order;
      LastRank(order, h);
      LastRank(order, q);
    }
  }

  // Every run leaves c complete.
  ghost predicate AlwaysComplete(g: Graph, H: set<string>, c: string) {
    forall privs: RolePrivs, order: seq<string>, result: map<string, Inheritance> ::
      privs.Keys == H && ChildRun(g, privs, order, result) && c in result ==> Complete(g, privs, result, c)
  }

  lemma MaskedIncomplete(g: Graph, H: set<string>, h: string, c: string)
    requires h in H && StrictlyAbove(g, h, c) && !exists p :: Relays(g, H, h, p, c)
    ensures !AlwaysComplete(g, H, c)
  {
    var order := OrderTo(H, h);
    NamedIsRun(g, order);
    RunOriginsAre(g, order);
    assert Below(g, H, c);
    if GivesTo(g, H, RunOrigins(g, order), h, c) {
      LastGives(g, order, h, c);
    }
    assert h in Names(H)[h] && h !in NamedRun(g, order)[c].privs;
    assert !Complete(g, Names(H), NamedRun(g, order), c);
  }

  // Inheritance into c is complete, whatever the holders hold and in whatever order they
  // are taken, exactly when no holder above c is masked.
  lemma CompleteIffNeverMasked(g: Graph, H: set<string>, c: string)
    ensures NeverMasked(g, H, c) <==> AlwaysComplete(g, H, c)
  {
    if NeverMasked(g, H, c) {
      forall privs: RolePrivs, order: seq<string>, result: map<string, Inheritance> |
        privs.Keys == H && ChildRun(g, privs, order, result) && c in result
        ensures Complete(g, privs, result, c)
      {
        NeverMaskedComplete(g, privs, result, c);
      }
    } else {
      var h :| h in H && StrictlyAbove(g, h, c) && !exists p :: Relays(g, H, h, p, c);
      MaskedIncomplete(g, H, h, c);
    }
  }

  // The failing family is real, already on a chain: the nearer holder masks the other.
  lemma MaskedHolder()
    ensures var g: Graph := map["a" := ["b"], "b" := ["c"]];
            var rolePrivs: RolePrivs := map["a" := {"SELECT"}, "b" := {"INSERT"}];
            forall result: map<string, Inheritance> :: ChildRoles(g, rolePrivs, result) ==>
              && "c" in result && StrictlyAbove(g, "a", "c")
              && result["c"].privs == {"INSERT"}
  {
    var g: Graph := map["a" := ["b"], "b" := ["c"]];
    var rolePrivs: RolePrivs := map["a" := {"SELECT"}, "b" := {"INSERT"}];
    assert Walk(g, "a", "a", 0);
    WalkStep(g, "a", "a", "b", 0);
    WalkStep(g, "a", "b", "c", 1);
    forall result: map<string, Inheritance> | ChildRoles(g, rolePrivs, result)
      ensures "c" in result && result["c"].privs == {"INSERT"}
    {
      assert Below(g, rolePrivs.Keys, "c");
      ReachesSelf(g, "b");
      assert ReachedFrom(g, rolePrivs.Keys, "b");
      assert HandedBy(g, rolePrivs, result, "b", "c", "INSERT");
    }
  }

  // ---------------------------------------------------------------------------
  // Whether the credited origin holds what it is credited with

  // The origin holds everything inherited with it.
  predicate CreditHeld(rolePrivs: RolePrivs, i: Inheritance) {
    i.privs <= Own(rolePrivs, i.origin)
  }

  // p gets its privileges from where c gets its origin: it is the only nearest holder
  // above c, or it holds nothing and has the same nearest holders.
  ghost predicate SameSource(g: Graph, H: set<string>, p: string, c: string) {
    if p in H then forall o :: NearestAbove(g, H, c, o) ==> o == p
    else forall o :: NearestAbove(g, H, p, o) <==> NearestAbove(g, H, c, o)
  }

  ghost predicate SameSources(g: Graph, H: set<string>, c: string) {
    forall p {:trigger SameSource(g, H, p, c)} :: ReachedFrom(g, H, p) && c in Next(g, p) ==> SameSource(g, H, p, c)
  }

  lemma OneFirst(g: Graph, order: seq<string>, c: string, o: string, q: string)
    requires FirstAbove(g, order, c, o) && FirstAbove(g, order, c, q)
    ensures o == q
  {
    assert o in order && q in order;
    SameRank(order, o, q);
  }

  // In every run such a parent hands on what the origin of c holds.
  lemma SameGiver(
      g: Graph, order: seq<string>, result: map<string, Inheritance>, p: string, c: string)
    requires FirstOrigins(g, order, result) && ReachedFrom(g, Elements(order), p) && c in result
    requires SameSource(g, Elements(order), p, c)
    ensures Giver(Elements(order), result, p) == result[c].origin
  {
    var H := Elements(order);
    assert FirstAbove(g, order, c, result[c].origin);
    HolderAbove(g, H, result, p);
    if p !in H {
      assert FirstAbove(g, order, p, result[p].origin);
      assert FirstAbove(g, order, c, result[p].origin);
      OneFirst(g, order, c, result[p].origin, result[c].origin);
    }
  }

  lemma OriginHolds(
      g: Graph, rolePrivs: RolePrivs, order: seq<string>, result: map<string, Inheritance>, c: string)
    requires ChildRun(g, rolePrivs, order, result) && c in result && SameSources(g, rolePrivs.Keys, c)
    ensures CreditHeld(rolePrivs, result[c])
  {
    forall x | x in result[c].privs ensures x in Own(rolePrivs, result[c].origin) {
      var p :| HandedBy(g, rolePrivs, result, p, c, x);
      assert SameSource(g, rolePrivs.Keys, p, c);
      SameGiver(g, order, result, p, c);
      GiverPasses(g, rolePrivs, result, p);
    }
  }

  // The holder that comes first is the origin wherever it is a nearest one.
  lemma LeaderFirst(g: Graph, order: seq<string>, c: string, o: string)
    requires NoRepeats(order) && order != [] && NearestAbove(g, Elements(order), c, order[0])
    requires FirstAbove(g, order, c, o)
    ensures o == order[0]
  {
    RankAt(order, 0);
    assert o in order;
    SameRank(order, order[0], o);
  }

  // A holder whose place first in the order gives c and its parent p different sources.
  ghost predicate Divides(g: Graph, H: set<string>, p: string, c: string, o: string) {
    o in H && if p in H then o != p && NearestAbove(g, H, c, o)
              else !(NearestAbove(g, H, p, o) <==> NearestAbove(g, H, c, o))
  }

  lemma SomeDivides(g: Graph, H: set<string>, p: string, c: string) returns (o: string)
    requires !SameSource(g, H, p, c)
    ensures Divides(g, H, p, c, o)
  {
    if p in H {
      o :| NearestAbove(g, H, c, o) && o != p;
    } else {
      o :| !(NearestAbove(g, H, p, o) <==> NearestAbove(g, H, c, o));
    }
  }

  lemma LeaderDivides(g: Graph, order: seq<string>, p: string, c: string)
    requires NoRepeats(order) && order != [] && Divides(g, Elements(order), p, c, order[0])
    requires ReachedFrom(g, Elements(order), p) && c in RunOrigins(g, order)
    ensures Giver(Elements(order), RunOrigins(g, order), p) != RunOrigins(g, order)[c].origin
  {
    var H, run := Elements(order), RunOrigins(g, order);
    RunOriginsAre(g, order);
    assert FirstAbove(g, order, c, run[c].origin);
    if NearestAbove(g, H, c, order[0]) {
      LeaderFirst(g, order, c, run[c].origin);
    }
    if p !in H {
      HolderAbove(g, H, run, p);
      assert FirstAbove(g, order, p, run[p].origin);
      if NearestAbove(g, H, p, order[0]) {
        LeaderFirst(g, order, p, run[p].origin);
      }
    }
  }

  // In every run the origin of c holds what c inherits.
  ghost predicate AlwaysHeld(g: Graph, H: set<string>, c: string) {
    forall privs: RolePrivs, order: seq<string>, result: map<string, Inheritance> ::
      privs.Keys == H && ChildRun(g, privs, order, result) && c in result ==> CreditHeld(privs, result[c])
  }

  lemma Miscredited(g: Graph, H: set<string>, p: string, c: string)
    requires ReachedFrom(g, H, p) && c in Next(g, p) && !SameSource(g, H, p, c)
    ensures !AlwaysHeld(g, H, c)
  {
    var o := SomeDivides(g, H, p, c);
    var order := OrderFrom(H, o);
    var run := RunOrigins(g, order);
    NamedIsRun(g, order);
    RunOriginsAre(g, order);
    ParentBelow(g, H, p, c);
    LeaderDivides(g, order, p, c);
    HolderAbove(g, H, run, p);
    var h := Giver(H, run, p);
    assert GivesTo(g, H, run, h, c);
    NamedMiscredits(g, H, run, h, c);
  }

  lemma ParentBelow(g: Graph, H: set<string>, p: string, c: string)
    requires ReachedFrom(g, H, p) && c in Next(g, p)
    ensures Below(g, H, c)
  {
    var h :| h in H && Reaches(g, h, p);
    var n: nat :| Walk(g, h, p, n);
    WalkStep(g, h, p, c, n);
  }

  lemma NamedMiscredits(g: Graph, H: set<string>, result: map<string, Inheritance>, h: string, c: string)
    requires c in result && h in H && GivesTo(g, H, result, h, c) && h != result[c].origin
    ensures c in NamedResult(g, H, result) && !CreditHeld(Names(H), NamedResult(g, H, result)[c])
  {
    assert h in NamedResult(g, H, result)[c].privs && h !in Own(Names(H), result[c].origin);
  }

  // The credited origin of a role holds all that the role inherits, whatever the holders
  // hold and in whatever order they are taken, exactly when each of its parents has the
  // same source.
  lemma CreditHeldIffSameSources(g: Graph, H: set<string>, c: string)
    ensures SameSources(g, H, c) <==> AlwaysHeld(g, H, c)
  {
    if SameSources(g, H, c) {
      forall privs: RolePrivs, order: seq<string>, result: map<string, Inheritance> |
        privs.Keys == H && ChildRun(g, privs, order, result) && c in result
        ensures CreditHeld(privs, result[c])
      {
        OriginHolds(g, privs, order, result, c);
      }
    } else {
      var p :| ReachedFrom(g, H, p) && c in Next(g, p) && !SameSource(g, H, p, c);
      Miscredited(g, H, p, c);
    }
  }

  // All ways to c end in p.
  ghost predicate OnlyParent(g: Graph, H: set<string>, p: string, c: string) {
    c in Next(g, p) && forall q :: ReachedFrom(g, H, q) && c in Next(g, q) ==> q == p
  }

  lemma LongerWalk(g: Graph, H: set<string>, p: string, c: string, h: string, n: nat)
    requires OnlyParent(g, H, p, c) && h in H && n >= 1 && Walk(g, h, c, n)
    ensures Walk(g, h, p, n - 1)
  {
    var q := LastStep(g, h, c, n);
    assert Reaches(g, h, q);
    assert ReachedFrom(g, H, q);
  }

  lemma NearestThrough(g: Graph, H: set<string>, p: string, c: string, o: string)
    requires OnlyParent(g, H, p, c) && p !in H
    ensures NearestAbove(g, H, p, o) <==> NearestAbove(g, H, c, o)
  {
    if NearestAbove(g, H, p, o) {
      var n: nat :| n >= 1 && o in H && Walk(g, o, p, n)
                    && forall h, m: nat :: h in H && m >= 1 && Walk(g, h, p, m) ==> n <= m;
      WalkStep(g, o, p, c, n);
      forall h, m: nat | h in H && m >= 1 && Walk(g, h, c, m) ensures n + 1 <= m {
        LongerWalk(g, H, p, c, h, m);
        assert m == 1 ==> h == p;
      }
    }
    if NearestAbove(g, H, c, o) {
      var n: nat :| n >= 1 && o in H && Walk(g, o, c, n)
                    && forall h, m: nat :: h in H && m >= 1 && Walk(g, h, c, m) ==> n <= m;
      LongerWalk(g, H, p, c, o, n);
      assert n == 1 ==> o == p;
      forall h, m: nat | h in H && m >= 1 && Walk(g, h, p, m) ensures n - 1 <= m {
        WalkStep(g, h, p, c, m);
      }
    }
  }

  lemma HeldByParent(g: Graph, H: set<string>, p: string, c: string, o: string)
    requires OnlyParent(g, H, p, c) && p in H && NearestAbove(g, H, c, o)
    ensures o == p
  {
    var n: nat :| n >= 1 && o in H && Walk(g, o, c, n)
                  && forall h, m: nat :: h in H && m >= 1 && Walk(g, h, c, m) ==> n <= m;
    assert Walk(g, p, p, 0);
    WalkStep(g, p, p, c, 0);
    LongerWalk(g, H, p, c, o, n);
  }

  // A role with a single parent is always credited rightly, however many holders are nearest.
  lemma OnlyParentHeld(g: Graph, H: set<string>, p: string, c: string)
    requires OnlyParent(g, H, p, c)
    ensures AlwaysHeld(g, H, c)
  {
    if p in H {
      forall o | NearestAbove(g, H, c, o) ensures o == p {
        HeldByParent(g, H, p, c, o);
      }
    } else {
      forall o ensures NearestAbove(g, H, p, o) <==> NearestAbove(g, H, c, o) {
        NearestThrough(g, H, p, c, o);
      }
    }
    assert SameSource(g, H, p, c);
    CreditHeldIffSameSources(g, H, c);
  }

  // Two parents that hold different privileges: the child inherits both, credited to one.
  lemma MiscreditedChild()
    ensures var g: Graph := map["a" := ["c"], "b" := ["c"]];
            var rolePrivs: RolePrivs := map["a" := {"SELECT"}, "b" := {"INSERT"}];
            forall result: map<string, Inheritance> :: ChildRoles(g, rolePrivs, result) ==>
              && "c" in result && result["c"].privs >= {"SELECT", "INSERT"}
              && !CreditHeld(rolePrivs, result["c"])
  {
    var g: Graph := map["a" := ["c"], "b" := ["c"]];
    var rolePrivs: RolePrivs := map["a" := {"SELECT"}, "b" := {"INSERT"}];
    forall result: map<string, Inheritance> | ChildRoles(g, rolePrivs, result)
      ensures "c" in result && result["c"].privs >= {"SELECT", "INSERT"} && !CreditHeld(rolePrivs, result["c"])
    {
      FromParent(g, rolePrivs, result, "a", "c", "SELECT");
      FromParent(g, rolePrivs, result, "b", "c", "INSERT");
    }
  }

  lemma FromParent(
      g: Graph, rolePrivs: RolePrivs, result: map<string, Inheritance>, p: string, c: string, x: string)
    requires ChildRoles(g, rolePrivs, result) && p in rolePrivs && c in Next(g, p) && x in rolePrivs[p]
    ensures c in result && x in result[c].privs
  {
    assert Walk(g, p, p, 0);
    WalkStep(g, p, p, c, 0);
    assert Below(g, rolePrivs.Keys, c);
    ReachesSelf(g, p);
    assert HandedBy(g, rolePrivs, result, p, c, x);
  }
}
