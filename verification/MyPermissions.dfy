/** The role tree of the current user, and its flattening into effective privileges. */
module MyPermissions {
  import opened RoleGraph
  import opened GrantTypes
  import opened FirstSeen
  import opened RoleHelpers

  datatype RoleInfo = RoleInfo(grants: seq<Grant>, parents: seq<string>)
  type RoleTree = map<string, RoleInfo>

  function TreeGraph(tree: RoleTree): Graph {
    map r | r in tree :: tree[r].parents
  }

  function GrantsIn(tree: RoleTree, role: string): seq<Grant> {
    if role in tree then tree[role].grants else []
  }

  lemma UniqueSame(rs: seq<string>)
    ensures forall r :: r in Unique(rs, ITSELF) <==> r in rs
  {
    UniqueKeeps(rs, ITSELF);
    forall r | r in rs ensures r in Unique(rs, ITSELF) {
      assert ITSELF(r) in Keys(rs, ITSELF);
      assert r in Keys(Unique(rs, ITSELF), ITSELF);
    }
  }

  // `for r in rs: if r not in distinct: distinct.append(r)`
  method Distinct(rs: seq<string>) returns (distinct: seq<string>)
    ensures distinct == Unique(rs, ITSELF)
  {
    distinct := [];
    for i := 0 to |rs|
      invariant distinct == Unique(rs[..i], ITSELF)
    {
      assert rs[..i + 1][..i] == rs[..i];
      UniqueSame(rs[..i]);
      assert rs[i] in Keys(rs[..i], ITSELF) <==> rs[i] in rs[..i];
      if rs[i] !in distinct {
        distinct := distinct + [rs[i]];
      }
    }
    assert rs[..|rs|] == rs;
  }

  // ---------------------------------------------------------------------------
  // Collecting the tree

  ghost predicate SameHead(queue: seq<string>, s: Search, i: int)
    requires |queue| == |s.queue| && 0 <= i < |queue|
  {
    queue[i] == s.queue[i].0
  }

  // The search picture behind an unlabelled queue.
  ghost predicate Shadows(queue: seq<string>, s: Search) {
    |queue| == |s.queue| && forall i :: 0 <= i < |queue| ==> SameHead(queue, s, i)
  }

  // Every role of the tree, and every role waiting, hangs under a direct role inside
  // the tree.
  ghost predicate Hangs(direct: set<string>, tree: RoleTree, queue: seq<string>) {
    && Rooted(direct, tree)
    && (forall r {:trigger ReachedFrom(TreeGraph(tree), direct, r)} ::
          r in queue ==> ReachedFrom(TreeGraph(tree), direct, r))
  }

  // Every role of the tree is reached from a direct role along parents in the tree.
  ghost predicate Rooted(direct: set<string>, tree: RoleTree) {
    forall r {:trigger ReachedFrom(TreeGraph(tree), direct, r)} ::
      r in tree ==> ReachedFrom(TreeGraph(tree), direct, r)
  }

  lemma {:induction false} GrowWalk(tree: RoleTree, role: string, info: RoleInfo, a: string, b: string, n: nat)
    requires role !in tree && Walk(TreeGraph(tree), a, b, n)
    ensures Walk(TreeGraph(tree[role := info]), a, b, n)
    decreases n
  {
    if n > 0 {
      var c :| Walk(TreeGraph(tree), a, c, n - 1) && b in Next(TreeGraph(tree), c);
      GrowWalk(tree, role, info, a, c, n - 1);
      WalkStep(TreeGraph(tree[role := info]), a, c, b, n - 1);
    }
  }

  lemma GrowReach(direct: set<string>, tree: RoleTree, role: string, info: RoleInfo, r: string)
    requires role !in tree && ReachedFrom(TreeGraph(tree), direct, r)
    ensures ReachedFrom(TreeGraph(tree[role := info]), direct, r)
  {
    var a :| a in direct && Reaches(TreeGraph(tree), a, r);
    var n: nat :| Walk(TreeGraph(tree), a, r, n);
    GrowWalk(tree, role, info, a, r, n);
  }

  lemma GrowHangs(direct: set<string>, tree: RoleTree, queue: seq<string>, info: RoleInfo, pushed: seq<string>)
    requires Hangs(direct, tree, queue) && queue != [] && queue[0] !in tree
    requires forall w :: w in pushed ==> w in info.parents
    ensures Hangs(direct, tree[queue[0] := info], queue[1..] + pushed)
  {
    var role := queue[0];
    var grown := tree[role := info];
    forall r | r in tree || r in queue ensures ReachedFrom(TreeGraph(grown), direct, r) {
      GrowReach(direct, tree, role, info, r);
    }
    forall r | r in pushed ensures ReachedFrom(TreeGraph(grown), direct, r) {
      var a :| a in direct && Reaches(TreeGraph(grown), a, role);
      ReachesStep(TreeGraph(grown), a, role, r);
    }
  }

  // The tree holds what SHOW GRANTS answered for its roles.
  ghost predicate Faithful(tree: RoleTree, parentsOf: Graph, grantsOf: map<string, seq<Grant>>) {
    forall r {:trigger Answer(parentsOf, grantsOf, r)} :: r in tree ==> tree[r] == Answer(parentsOf, grantsOf, r)
  }

  function Answer(parentsOf: Graph, grantsOf: map<string, seq<Grant>>, role: string): RoleInfo {
    RoleInfo(if role in grantsOf then grantsOf[role] else [], Unique(Next(parentsOf, role), ITSELF))
  }

  // The grants as answered; the parents, each once and none missing.
  lemma AnswerMeaning(parentsOf: Graph, grantsOf: map<string, seq<Grant>>, role: string)
    ensures var info := Answer(parentsOf, grantsOf, role);
            && (role in grantsOf ==> info.grants == grantsOf[role]) && (role !in grantsOf ==> info.grants == [])
            && NoRepeats(info.parents) && forall p :: p in info.parents <==> p in Next(parentsOf, role)
  {
    UniqueKeeps(Next(parentsOf, role), ITSELF);
    UniqueSame(Next(parentsOf, role));
  }

  lemma FaithfulNext(tree: RoleTree, parentsOf: Graph, grantsOf: map<string, seq<Grant>>, role: string, info: RoleInfo)
    requires Faithful(tree, parentsOf, grantsOf) && info == Answer(parentsOf, grantsOf, role)
    ensures Faithful(tree[role := info], parentsOf, grantsOf)
  {
  }

  ghost predicate Growing(
      parentsOf: Graph, seeds: set<string>, s: Search, queue: seq<string>, tree: RoleTree)
  {
    Shadows(queue, s) && s.dist.Keys == tree.Keys && Inv(parentsOf, seeds, s) && Hangs(seeds, tree, queue)
  }

  lemma StartGrowing(parentsOf: Graph, direct: seq<string>)
    ensures Growing(parentsOf, Elements(direct), Start(direct), direct, map[])
  {
    StartInv(parentsOf, direct);
    var none: RoleTree := map[];
    forall r | r in direct ensures ReachedFrom(TreeGraph(none), Elements(direct), r) {
      ReachesSelf(TreeGraph(none), r);
    }
  }

  lemma SkipGrowing(parentsOf: Graph, seeds: set<string>, s: Search, queue: seq<string>, tree: RoleTree)
    returns (t: Search)
    requires Growing(parentsOf, seeds, s, queue, tree) && queue != [] && queue[0] in tree
    ensures Growing(parentsOf, seeds, t, queue[1..], tree)
  {
    assert SameHead(queue, s, 0);
    SkipInv(parentsOf, seeds, s);
    t := Skip(s);
    forall i | 0 <= i < |queue| - 1 ensures SameHead(queue[1..], t, i) {
      assert SameHead(queue, s, i + 1);
    }
  }

  lemma VisitGrowing(
      parentsOf: Graph, seeds: set<string>, s: Search, queue: seq<string>, tree: RoleTree, info: RoleInfo,
      visited: set<string>)
    returns (t: Search)
    requires Growing(parentsOf, seeds, s, queue, tree) && queue != [] && queue[0] !in tree
    requires visited == tree.Keys + {queue[0]}
    requires info.parents == Unique(Next(parentsOf, queue[0]), ITSELF)
    ensures Growing(parentsOf, seeds, t, queue[1..] + Fresh(info.parents, visited), tree[queue[0] := info])
    ensures visited == tree[queue[0] := info].Keys
  {
    var pushed := Fresh(info.parents, visited);
    assert SameHead(queue, s, 0);
    UniqueSame(Next(parentsOf, queue[0]));
    GrowHangs(seeds, tree, queue, info, pushed);
    ExpandsAll(parentsOf, s, pushed);
    VisitInv(parentsOf, seeds, s, pushed);
    t := Visit(s, pushed);
    var longer := queue[1..] + pushed;
    forall i | 0 <= i < |longer| ensures SameHead(longer, t, i) {
      if i < |queue| - 1 {
        assert SameHead(queue, s, i + 1);
      }
    }
  }

  // `collect_role_chain` with the answers of SHOW GRANTS given: the roles assigned to
  // the user, the parents of each role, and the grants of each role.
  method CollectRoleChain(granted: seq<string>, parentsOf: Graph, grantsOf: map<string, seq<Grant>>)
    returns (direct: seq<string>, tree: RoleTree, ghost origin: map<string, string>)
    ensures direct == Unique(granted, ITSELF)
    ensures Faithful(tree, parentsOf, grantsOf)
    // At most 100 roles, the nearest ones, all of them if there are no more.
    ensures tree.Keys == origin.Keys && NearestChain(parentsOf, Elements(direct), 100, origin)
    // No role of the tree is cut off from the direct roles, even when the cap was hit.
    ensures Rooted(Elements(direct), tree)
  {
    direct := Distinct(granted);
    tree := map[];
    var visited: set<string> := {};
    var queue := direct;
    ghost var s, room: nat := Start(direct), CHAIN_CAP;
    StartGrowing(parentsOf, direct);
    while queue != [] && |visited| < CHAIN_CAP
      invariant visited == tree.Keys && |visited| + room == CHAIN_CAP
      invariant Growing(parentsOf, Elements(direct), s, queue, tree)
      invariant Faithful(tree, parentsOf, grantsOf)
      decreases room, |queue|
    {
      var role := queue[0];
      if role in visited {
        s := SkipGrowing(parentsOf, Elements(direct), s, queue, tree);
        queue := queue[1..];
        continue;
      }
      OneMore(visited, role);
      room := room - 1;
      visited := visited + {role};
      var parents := Distinct(Next(parentsOf, role));
      var info := RoleInfo(if role in grantsOf then grantsOf[role] else [], parents);
      FaithfulNext(tree, parentsOf, grantsOf, role, info);
      s := VisitGrowing(parentsOf, Elements(direct), s, queue, tree, info, visited);
      tree := tree[role := info];
      queue := queue[1..] + Fresh(parents, visited);
    }
    origin := s.origin;
    GrowthDone(parentsOf, Elements(direct), s, queue, tree);
  }

  lemma GrowthDone(parentsOf: Graph, seeds: set<string>, s: Search, queue: seq<string>, tree: RoleTree)
    requires Growing(parentsOf, seeds, s, queue, tree)
    requires |tree.Keys| <= CHAIN_CAP && (queue == [] || |tree.Keys| == CHAIN_CAP)
    ensures tree.Keys == s.origin.Keys && NearestChain(parentsOf, seeds, CHAIN_CAP, s.origin)
    ensures Rooted(seeds, tree)
  {
    assert |s.dist| == |s.dist.Keys|;
    SearchChain(parentsOf, seeds, s, CHAIN_CAP);
  }

  // ---------------------------------------------------------------------------
  // Flattening

  // The fields an effective-privilege row takes from its grant, and its source.
  datatype Effective = Effective(
    privilege: string, objectType: string, catalog: Option<string>, database: Option<string>,
    name: Option<string>, source: string)

  function RowFor(g: Grant, source: string): Effective {
    Effective(g.privilege, g.objectType, g.catalog, g.database, g.name, source)
  }

  function RowsFor(grants: seq<Grant>, source: string): (r: seq<Effective>)
    ensures |r| == |grants| && forall i :: 0 <= i < |grants| ==> r[i] == RowFor(grants[i], source)
  {
    seq(|grants|, i requires 0 <= i < |grants| => RowFor(grants[i], source))
  }

  function SourceName(origin: string, role: string): string {
    if origin == role then origin else origin + " \U{2192} " + role
  }

  // The rows of the roles in `order`, all credited to `origin`.
  function Section(tree: RoleTree, order: seq<string>, origin: string): seq<Effective> {
    if order == [] then []
    else
      var n := |order| - 1;
      Section(tree, order[..n], origin) + RowsFor(GrantsIn(tree, order[n]), SourceName(origin, order[n]))
  }

  lemma SectionNext(tree: RoleTree, order: seq<string>, role: string, origin: string)
    ensures Section(tree, order + [role], origin) ==
            Section(tree, order, origin) + RowsFor(GrantsIn(tree, role), SourceName(origin, role))
  {
    assert (order + [role])[..|order|] == order;
  }

  lemma {:induction false} SectionConcat(tree: RoleTree, a: seq<string>, b: seq<string>, origin: string)
    ensures Section(tree, a + b, origin) == Section(tree, a, origin) + Section(tree, b, origin)
    decreases |b|
  {
    if b == [] {
      assert a + b == a;
    } else {
      var init, last := b[..|b| - 1], b[|b| - 1];
      assert b == init + [last];
      ConcatAssociates(a, init, [last]);
      SectionConcat(tree, a, init, origin);
      SectionNext(tree, a + init, last, origin);
      SectionNext(tree, init, last, origin);
      ConcatAssociates(Section(tree, a, origin), Section(tree, init, origin),
                       RowsFor(GrantsIn(tree, last), SourceName(origin, last)));
    }
  }

  // What one call of the recursion has visited: `order` lists the newly seen roles once
  // each, all of them reached from `role`, and whatever they inherit has been seen.
  ghost predicate Explores(tree: RoleTree, role: string, before: set<string>, order: seq<string>, after: set<string>) {
    && NoRepeats(order)
    && after == before + Elements(order)
    && Elements(order) !! before
    && (forall r :: r in order ==> Reaches(TreeGraph(tree), role, r))
    && (forall r, p :: r in order && p in Next(TreeGraph(tree), r) ==> p in after)
  }

  ghost predicate WithinUniverse(tree: RoleTree, universe: set<string>, role: string) {
    role in universe && Closed(TreeGraph(tree), universe)
  }

  function Parents(tree: RoleTree, role: string): seq<string> {
    if role in tree then tree[role].parents else []
  }

  // Halfway through the parents of `role`: the first i of them have been seen.
  ghost predicate Exploring(
      tree: RoleTree, role: string, before: set<string>, order: seq<string>, seen: set<string>, i: nat)
    requires i <= |Parents(tree, role)|
  {
    && NoRepeats(order)
    && role in order
    && seen == before + Elements(order)
    && Elements(order) !! before
    && (forall r :: r in order ==> Reaches(TreeGraph(tree), role, r))
    && (forall r, p :: r in order && r != role && p in Next(TreeGraph(tree), r) ==> p in seen)
    && (forall k :: 0 <= k < i ==> Parents(tree, role)[k] in seen)
  }

  lemma StartExploring(tree: RoleTree, role: string, before: set<string>)
    requires role !in before
    ensures Exploring(tree, role, before, [role], before + {role}, 0)
  {
    ReachesSelf(TreeGraph(tree), role);
    assert Elements([role]) == {role};
  }

  lemma ElementsConcat(a: seq<string>, b: seq<string>)
    ensures Elements(a + b) == Elements(a) + Elements(b)
  {
    assert forall r :: r in a + b <==> r in a || r in b;
  }

  lemma JoinNoRepeats(a: seq<string>, b: seq<string>)
    requires NoRepeats(a) && NoRepeats(b) && Elements(a) !! Elements(b)
    ensures NoRepeats(a + b)
  {
    forall i, j | 0 <= i < |a| <= j < |a + b| ensures (a + b)[i] != (a + b)[j] {
      assert (a + b)[i] in Elements(a) && (a + b)[j] in Elements(b);
    }
  }

  lemma NextExploring(
      tree: RoleTree, role: string, before: set<string>, order: seq<string>, seen: set<string>, i: nat,
      more: seq<string>, after: set<string>)
    requires i < |Parents(tree, role)| && Exploring(tree, role, before, order, seen, i)
    requires Explores(tree, Parents(tree, role)[i], seen, more, after) && Parents(tree, role)[i] in after
    ensures Exploring(tree, role, before, order + more, after, i + 1)
  {
    var parent := Parents(tree, role)[i];
    JoinNoRepeats(order, more);
    ElementsConcat(order, more);
    forall r | r in more ensures Reaches(TreeGraph(tree), role, r) && r != role {
      assert parent in Next(TreeGraph(tree), role);
      ReachesSelf(TreeGraph(tree), role);
      ReachesStep(TreeGraph(tree), role, role, parent);
      ReachesTrans(TreeGraph(tree), role, parent, r);
      assert r in Elements(more);
    }
  }

  lemma EndExploring(tree: RoleTree, role: string, before: set<string>, order: seq<string>, seen: set<string>)
    requires Exploring(tree, role, before, order, seen, |Parents(tree, role)|)
    ensures Explores(tree, role, before, order, seen) && role in seen
  {
  }

  ghost function Unseen(universe: set<string>, seen: set<string>): nat {
    |universe - seen|
  }

  lemma SeesMore(universe: set<string>, seen: set<string>, role: string, after: set<string>)
    requires role in universe && role !in seen && seen + {role} <= after
    ensures Unseen(universe, after) < Unseen(universe, seen)
  {
    SubsetSize(universe - after, universe - seen - {role});
  }

  // The nested function: depth-first, sharing one seen-set and one list of rows.
  method Collect(
      tree: RoleTree, role: string, origin: string, seen: set<string>, rows: seq<Effective>,
      ghost universe: set<string>)
    returns (seen': set<string>, rows': seq<Effective>, ghost order: seq<string>)
    requires WithinUniverse(tree, universe, role)
    ensures Explores(tree, role, seen, order, seen') && role in seen'
    ensures rows' == rows + Section(tree, order, origin)
    decreases Unseen(universe, seen)
  {
    if role in seen {
      return seen, rows, [];
    }
    seen' := seen + {role};
    rows' := rows + RowsFor(GrantsIn(tree, role), SourceName(origin, role));
    order := [role];
    assert order[..0] == [];
    StartExploring(tree, role, seen);
    var parents := Parents(tree, role);
    for i := 0 to |parents|
      invariant Exploring(tree, role, seen, order, seen', i)
      invariant rows' == rows + Section(tree, order, origin)
    {
      ghost var more, known := [], seen';
      SeesMore(universe, seen, role, seen');
      BoundsParent(tree, universe, role, i);
      seen', rows', more := Collect(tree, parents[i], origin, seen', rows', universe);
      NextExploring(tree, role, seen, order, known, i, more, seen');
      SectionConcat(tree, order, more, origin);
      ConcatAssociates(rows, Section(tree, order, origin), Section(tree, more, origin));
      order := order + more;
    }
    EndExploring(tree, role, seen, order, seen');
  }

  lemma BoundsParent(tree: RoleTree, universe: set<string>, role: string, i: nat)
    requires WithinUniverse(tree, universe, role) && i < |Parents(tree, role)|
    ensures WithinUniverse(tree, universe, Parents(tree, role)[i])
  {
    assert Parents(tree, role)[i] in Next(TreeGraph(tree), role);
  }

  lemma UniverseBounds(tree: RoleTree, role: string)
    ensures WithinUniverse(tree, Universe(TreeGraph(tree), {role}), role)
  {
  }

  // order lists exactly the roles that `role` reaches in the tree, itself included, once each.
  ghost predicate ListsReach(tree: RoleTree, role: string, order: seq<string>) {
    NoRepeats(order) && forall r :: r in order <==> Reaches(TreeGraph(tree), role, r)
  }

  // One such list for every direct role.
  ghost predicate ListsAll(tree: RoleTree, direct: seq<string>, orders: seq<seq<string>>) {
    && |orders| == |direct|
    && forall i {:trigger orders[i]} :: 0 <= i < |direct| ==> ListsReach(tree, direct[i], orders[i])
  }

  lemma ListsOneMore(
      tree: RoleTree, direct: seq<string>, orders: seq<seq<string>>, role: string, order: seq<string>,
      rows: seq<Effective>)
    requires ListsAll(tree, direct, orders) && ListsReach(tree, role, order)
    ensures ListsAll(tree, direct + [role], orders + [order])
    ensures (rows + Sections(tree, direct, orders)) + Section(tree, order, role) ==
            rows + Sections(tree, direct + [role], orders + [order])
  {
    assert (direct + [role])[..|direct|] == direct && (orders + [order])[..|orders|] == orders;
    ConcatAssociates(rows, Sections(tree, direct, orders), Section(tree, order, role));
  }

  lemma ExploredAll(tree: RoleTree, role: string, order: seq<string>, after: set<string>)
    requires Explores(tree, role, {}, order, after) && role in after
    ensures ListsReach(tree, role, order)
  {
    forall r | Reaches(TreeGraph(tree), role, r) ensures r in order {
      assert after == Elements(order);
      ClosedReaches(TreeGraph(tree), after, role, r);
    }
  }

  function Sections(tree: RoleTree, direct: seq<string>, orders: seq<seq<string>>): seq<Effective>
    requires |direct| == |orders|
  {
    if direct == [] then []
    else
      var n := |direct| - 1;
      Sections(tree, direct[..n], orders[..n]) + Section(tree, orders[n], direct[n])
  }

  // One direct role, with a fresh seen-set.
  method CollectFrom(tree: RoleTree, role: string, rows: seq<Effective>)
    returns (rows': seq<Effective>, ghost order: seq<string>)
    ensures ListsReach(tree, role, order) && rows' == rows + Section(tree, order, role)
  {
    UniverseBounds(tree, role);
    var seen;
    seen, rows', order := Collect(tree, role, role, {}, rows, Universe(TreeGraph(tree), {role}));
    ExploredAll(tree, role, order, seen);
  }

  method OwnRows(own: seq<Grant>) returns (rows: seq<Effective>)
    ensures rows == RowsFor(own, "direct")
  {
    rows := [];
    for i := 0 to |own|
      invariant rows == RowsFor(own[..i], "direct")
    {
      rows := rows + [RowFor(own[i], "direct")];
    }
    assert own[..|own|] == own;
  }

  // The user's own grants, then for each direct role the grants of every role it
  // reaches, each role exactly once under that direct role.
  ghost predicate Flattened(own: seq<Grant>, direct: seq<string>, tree: RoleTree, rows: seq<Effective>) {
    exists orders {:trigger ListsAll(tree, direct, orders)} ::
      ListsAll(tree, direct, orders) && rows == RowsFor(own, "direct") + Sections(tree, direct, orders)
  }

  // Cyclic trees included.
  method FlattenEffective(own: seq<Grant>, direct: seq<string>, tree: RoleTree) returns (rows: seq<Effective>)
    ensures Flattened(own, direct, tree, rows)
  {
    rows := OwnRows(own);
    ghost var orders, done := [], [];
    for i := 0 to |direct|
      invariant done == direct[..i] && FlatSoFar(own, done, tree, orders, rows)
    {
      ghost var order;
      rows, order := CollectFrom(tree, direct[i], rows);
      ListsOneMore(tree, done, orders, direct[i], order, RowsFor(own, "direct"));
      TakeNext(direct, i);
      done, orders := done + [direct[i]], orders + [order];
    }
    assert direct[..|direct|] == direct;
  }

  // The direct roles dealt with so far.
  ghost predicate FlatSoFar(
      own: seq<Grant>, done: seq<string>, tree: RoleTree, orders: seq<seq<string>>, rows: seq<Effective>)
  {
    ListsAll(tree, done, orders) && rows == RowsFor(own, "direct") + Sections(tree, done, orders)
  }

  // A grant of a tree role shows up under every direct role that reaches it ...
  lemma ShownUnder(
      tree: RoleTree, direct: seq<string>, orders: seq<seq<string>>, i: nat, role: string, g: Grant)
    requires |direct| == |orders| && i < |direct| && role in orders[i] && g in GrantsIn(tree, role)
    ensures RowFor(g, SourceName(direct[i], role)) in Sections(tree, direct, orders)
  {
    ShownIn(tree, orders[i], direct[i], role, g);
    InSections(tree, direct, orders, i, RowFor(g, SourceName(direct[i], role)));
  }

  lemma SectionsLast(tree: RoleTree, direct: seq<string>, orders: seq<seq<string>>)
    requires |direct| == |orders| > 0
    ensures var n := |direct| - 1;
            Sections(tree, direct, orders) ==
            Sections(tree, direct[..n], orders[..n]) + Section(tree, orders[n], direct[n])
  {
  }

  lemma InFormer(tree: RoleTree, direct: seq<string>, orders: seq<seq<string>>, row: Effective)
    requires |direct| == |orders| > 0
    requires row in Sections(tree, direct[..|direct| - 1], orders[..|direct| - 1])
    ensures row in Sections(tree, direct, orders)
  {
    SectionsLast(tree, direct, orders);
  }

  lemma InLast(tree: RoleTree, direct: seq<string>, orders: seq<seq<string>>, row: Effective)
    requires |direct| == |orders| > 0 && row in Section(tree, orders[|direct| - 1], direct[|direct| - 1])
    ensures row in Sections(tree, direct, orders)
  {
    SectionsLast(tree, direct, orders);
  }

  lemma SectionLast(tree: RoleTree, order: seq<string>, origin: string)
    requires order != []
    ensures var n := |order| - 1;
            Section(tree, order, origin) ==
            Section(tree, order[..n], origin) + RowsFor(GrantsIn(tree, order[n]), SourceName(origin, order[n]))
  {
  }

  lemma {:induction false} InSections(
      tree: RoleTree, direct: seq<string>, orders: seq<seq<string>>, i: nat, row: Effective)
    requires |direct| == |orders| && i < |direct| && row in Section(tree, orders[i], direct[i])
    ensures row in Sections(tree, direct, orders)
    decreases |direct|
  {
    if i < |direct| - 1 {
      InSections(tree, direct[..|direct| - 1], orders[..|direct| - 1], i, row);
      InFormer(tree, direct, orders, row);
    } else {
      InLast(tree, direct, orders, row);
    }
  }

  lemma {:induction false} ShownIn(tree: RoleTree, order: seq<string>, origin: string, role: string, g: Grant)
    requires role in order && g in GrantsIn(tree, role)
    ensures RowFor(g, SourceName(origin, role)) in Section(tree, order, origin)
    decreases |order|
  {
    var n := |order| - 1;
    SectionLast(tree, order, origin);
    if role == order[n] {
      RowShown(GrantsIn(tree, role), SourceName(origin, role), g);
    } else {
      ShownIn(tree, order[..n], origin, role, g);
    }
  }

  lemma RowShown(grants: seq<Grant>, source: string, g: Grant)
    requires g in grants
    ensures RowFor(g, source) in RowsFor(grants, source)
  {
    var k :| 0 <= k < |grants| && grants[k] == g;
    assert RowsFor(grants, source)[k] == RowFor(g, source);
  }

  // The row carries the privilege and the object of the grant.
  predicate Carries(row: Effective, g: Grant) {
    && row.privilege == g.privilege && row.objectType == g.objectType
    && row.catalog == g.catalog && row.database == g.database && row.name == g.name
  }

  lemma RowsForMember(grants: seq<Grant>, source: string, row: Effective)
    ensures row in RowsFor(grants, source) <==> row.source == source && exists g :: g in grants && Carries(row, g)
  {
    if g :| g in grants && Carries(row, g) {
      RowShown(grants, source, g);
      assert row.source == source ==> row == RowFor(g, source);
    }
    if row in RowsFor(grants, source) {
      var k :| 0 <= k < |grants| && RowsFor(grants, source)[k] == row;
      assert grants[k] in grants && Carries(row, grants[k]);
    }
  }

  // Under the role itself, or under the direct role that leads to it.
  predicate SourceSays(source: string, direct: string, role: string) {
    if role == direct then source == role else source == direct + " \U{2192} " + role
  }

  ghost predicate FromRole(tree: RoleTree, role: string, row: Effective) {
    exists g :: g in GrantsIn(tree, role) && Carries(row, g)
  }

  ghost predicate ShowsRole(tree: RoleTree, direct: string, role: string, row: Effective) {
    FromRole(tree, role, row) && SourceSays(row.source, direct, role)
  }

  lemma RoleRows(tree: RoleTree, direct: string, role: string, row: Effective)
    ensures row in RowsFor(GrantsIn(tree, role), SourceName(direct, role)) <==> ShowsRole(tree, direct, role, row)
  {
    RowsForMember(GrantsIn(tree, role), SourceName(direct, role), row);
  }

  lemma {:induction false} SectionMember(tree: RoleTree, order: seq<string>, origin: string, row: Effective)
    ensures row in Section(tree, order, origin) <==>
            exists role :: role in order && ShowsRole(tree, origin, role, row)
  {
    if order != [] {
      var init, last := order[..|order| - 1], order[|order| - 1];
      SectionMember(tree, init, origin, row);
      RoleRows(tree, origin, last, row);
      SectionLast(tree, order, origin);
      assert forall role :: role in order <==> role in init || role == last;
    }
  }

  ghost predicate InSection(
      tree: RoleTree, direct: seq<string>, orders: seq<seq<string>>, row: Effective, i: int)
    requires |direct| == |orders|
  {
    0 <= i < |direct| && row in Section(tree, orders[i], direct[i])
  }

  lemma {:induction false} SectionsMember(
      tree: RoleTree, direct: seq<string>, orders: seq<seq<string>>, row: Effective)
    requires |direct| == |orders|
    ensures row in Sections(tree, direct, orders) <==> exists i :: InSection(tree, direct, orders, row, i)
  {
    if direct != [] {
      var n := |direct| - 1;
      SectionsMember(tree, direct[..n], orders[..n], row);
      SectionsLast(tree, direct, orders);
      InLonger(tree, direct, orders, row);
      assert InSection(tree, direct, orders, row, n) <==> row in Section(tree, orders[n], direct[n]);
    }
  }

  lemma InLonger(tree: RoleTree, direct: seq<string>, orders: seq<seq<string>>, row: Effective)
    requires |direct| == |orders| > 0
    ensures var n := |direct| - 1;
            forall i :: i != n ==>
              (InSection(tree, direct[..n], orders[..n], row, i) <==> InSection(tree, direct, orders, row, i))
  {
    var n := |direct| - 1;
    forall i | i != n
      ensures InSection(tree, direct[..n], orders[..n], row, i) <==> InSection(tree, direct, orders, row, i)
    {
      if 0 <= i < n {
        assert direct[..n][i] == direct[i] && orders[..n][i] == orders[i];
      }
    }
  }

  // The row shows a grant of a role that this direct role reaches.
  ghost predicate ShownThrough(tree: RoleTree, direct: string, row: Effective) {
    exists role :: Reaches(TreeGraph(tree), direct, role) && ShowsRole(tree, direct, role, row)
  }

  ghost predicate OwnRow(own: seq<Grant>, row: Effective) {
    row.source == "direct" && exists g :: g in own && Carries(row, g)
  }

  // Exactly these rows are shown: the own grants, and for every direct role the grants of
  // all roles that it reaches, each with its five fields and its source.
  lemma EffectiveExact(own: seq<Grant>, direct: seq<string>, tree: RoleTree, rows: seq<Effective>, row: Effective)
    requires Flattened(own, direct, tree, rows)
    ensures row in rows <==> OwnRow(own, row) || exists d :: d in direct && ShownThrough(tree, d, row)
  {
    var orders :| ListsAll(tree, direct, orders) && rows == RowsFor(own, "direct") + Sections(tree, direct, orders);
    RowsForMember(own, "direct", row);
    SectionsMember(tree, direct, orders, row);
    forall i | 0 <= i < |direct|
      ensures InSection(tree, direct, orders, row, i) <==> ShownThrough(tree, direct[i], row)
    {
      SectionMember(tree, orders[i], direct[i], row);
      assert ListsReach(tree, direct[i], orders[i]);
    }
  }

  function GrantCount(tree: RoleTree, order: seq<string>): nat {
    if order == [] then 0 else GrantCount(tree, order[..|order| - 1]) + |GrantsIn(tree, order[|order| - 1])|
  }

  function CountAll(tree: RoleTree, orders: seq<seq<string>>): nat {
    if orders == [] then 0 else CountAll(tree, orders[..|orders| - 1]) + GrantCount(tree, orders[|orders| - 1])
  }

  lemma {:induction false} SectionCount(tree: RoleTree, order: seq<string>, origin: string)
    ensures |Section(tree, order, origin)| == GrantCount(tree, order)
  {
    if order != [] {
      SectionCount(tree, order[..|order| - 1], origin);
      SectionLast(tree, order, origin);
    }
  }

  lemma {:induction false} SectionsCount(tree: RoleTree, direct: seq<string>, orders: seq<seq<string>>)
    requires |direct| == |orders|
    ensures |Sections(tree, direct, orders)| == CountAll(tree, orders)
  {
    if direct != [] {
      var n := |direct| - 1;
      SectionsCount(tree, direct[..n], orders[..n]);
      SectionsLast(tree, direct, orders);
      SectionCount(tree, orders[n], direct[n]);
    }
  }

  // The own grants come first and in order, and no grant is shown twice: there are as many
  // rows as own grants, and as grants of the roles below each direct role, each role
  // counted once there.
  lemma EffectiveOrder(own: seq<Grant>, direct: seq<string>, tree: RoleTree, rows: seq<Effective>)
    requires Flattened(own, direct, tree, rows)
    ensures |rows| >= |own| && forall i :: 0 <= i < |own| ==> Carries(rows[i], own[i]) && rows[i].source == "direct"
    ensures exists orders :: ListsAll(tree, direct, orders) && |rows| == |own| + CountAll(tree, orders)
  {
    var orders :| ListsAll(tree, direct, orders) && rows == RowsFor(own, "direct") + Sections(tree, direct, orders);
    SectionsCount(tree, direct, orders);
    forall i | 0 <= i < |own| ensures rows[i] == RowFor(own[i], "direct") {
    }
  }

  // ... so on a collected tree no grant is lost: every role of the tree is shown under
  // at least one direct role.
  lemma NoGrantLost(
      own: seq<Grant>, direct: seq<string>, tree: RoleTree, rows: seq<Effective>, role: string, g: Grant)
    requires Rooted(Elements(direct), tree) && Flattened(own, direct, tree, rows)
    requires role in tree && g in tree[role].grants
    ensures exists d :: d in direct && RowFor(g, SourceName(d, role)) in rows
  {
    var orders :| ListsAll(tree, direct, orders) && rows == RowsFor(own, "direct") + Sections(tree, direct, orders);
    assert ReachedFrom(TreeGraph(tree), Elements(direct), role);
    var d :| d in Elements(direct) && Reaches(TreeGraph(tree), d, role);
    var i :| 0 <= i < |direct| && direct[i] == d;
    ShownUnder(tree, direct, orders, i, role, g);
    assert RowFor(g, SourceName(d, role)) in Sections(tree, direct, orders);
  }
}
