/**
  The statements that SHOW GRANTS lists, read from their text: scopes, unquoted paths and
  objects outside the catalogs.
 */
module GrantListings {
  import opened Text
  import opened GrantTypes
  import opened FirstSeen
  import opened GrantParser
  import opened GrantRoundTrip
  import opened ListingScan
  import opened ListingTargets
  import opened ListingPaths

  // The catalog of a row, where it has one.
  function OwnCatalog(rowCatalog: string): Option<string> {
    if rowCatalog == "" then None else Some(rowCatalog)
  }

  // All objects of a type.
  function AllText(t: string): string {
    "ALL " + t + "S"
  }

  function ScopeHeadText(t: string): string {
    AllText(t) + " IN DATABASE "
  }

  lemma OneHead(w: string)
    requires HeadWord(w)
    ensures Steady(w + " ") && !IsSpace(w[0])
  {
    SteadyWord("", w);
    assert "" + w + " " == w + " ";
  }

  // The first words, and the last one.
  lemma PluralHead(t: string) returns (h: string, last: string)
    requires t in LISTED_TYPES + {"DATABASE"}
    ensures h + last == AllText(t) && Steady(h) && h != "" && !IsSpace(h[0])
    ensures HeadWord(last) && |last| > 2
  {
    PluralWords();
    OneHead("ALL");
    assert "ALL" + " " == "ALL ";
    if t == "MATERIALIZED VIEW" {
      h, last := MaterializedHead(t);
    } else {
      h, last := "ALL ", t + "S";
      assert last == "TABLES" || last == "VIEWS" || last == "FUNCTIONS" || last == "DATABASES";
      WordSolid(last);
      assert h + last == "ALL " + t + "S";
    }
  }

  lemma MaterializedHead(t: string) returns (h: string, last: string)
    requires t == "MATERIALIZED VIEW" && Steady("ALL ")
    ensures h + last == AllText(t) && Steady(h) && h != "" && !IsSpace(h[0])
    ensures HeadWord(last) && |last| > 2
  {
    h, last := "ALL " + "MATERIALIZED" + " ", "VIEWS";
    SteadyWord("ALL ", "MATERIALIZED");
    TwoPlural("MATERIALIZED", "VIEWS", t);
  }

  lemma ListedHead(t: string)
    requires t in LISTED_TYPES
    ensures Steady(AllText(t) + " IN DATABASE ") && Steady(AllText(t) + " IN ALL ")
    ensures AllText(t)[0] == 'A'
  {
    var h, last := PluralHead(t);
    SteadyWord(h, last);
    ScopeWords(AllText(t));
  }

  lemma ScopeWords(h: string)
    requires Steady(h + " ")
    ensures Steady(h + " IN DATABASE ") && Steady(h + " IN ALL ")
  {
    SteadyWord(h + " ", "IN");
    assert h + " " + "IN" + " " == h + " IN ";
    SteadyWord(h + " IN ", "DATABASE");
    assert h + " IN " + "DATABASE" + " " == h + " IN DATABASE ";
    SteadyWord(h + " IN ", "ALL");
    assert h + " IN " + "ALL" + " " == h + " IN ALL ";
  }

  lemma ScopeText(privs: seq<string>, t: string, db: string, rest: string)
    ensures "GRANT " + Join(privs, ", ") + " ON ALL " + t + "S IN DATABASE " + db + " TO " + rest ==
            Printed(privs, ScopeHeadText(t) + db, rest)
  {
    var head := "GRANT " + Join(privs, ", ");
    assert head + " ON ALL " + t + "S IN DATABASE " + db == head + " ON " + (ScopeHeadText(t) + db);
  }

  lemma TailTaken(on: string, rest: string, k: nat)
    requires k <= |on|
    ensures Tail(on, rest)[..k] == on[..k]
  {
  }

  // A target that ends in a word, read to its end.
  lemma WordEnds(
      privs: seq<string>, h: string, last: string, rest: string, rowCatalog: string, grantee: string,
      granteeType: GranteeType, target: Target)
    requires GoodList(privs) && Steady(h) && (h == "" || !IsSpace(h[0])) && Solid(last)
    requires (h == "" || Upper(last) != "TO") && ParseTarget(h + last) == target
    ensures ReadsEach(Printed(privs, h + last, rest), rowCatalog, grantee, granteeType, privs, target.objectType,
                      Completed(target.objectType, target.at.catalog, rowCatalog), target.at.database, target.at.name)
  {
    var on := h + last;
    assert on[0] == if h == "" then last[0] else h[0];
    WholeTarget(h, last, rest);
    TailTaken(on, rest, |on|);
    assert on[..|on|] == on;
    ReadsCut(privs, on, rest, |on|, rowCatalog, grantee, granteeType, target.objectType,
             Completed(target.objectType, target.at.catalog, rowCatalog), target.at.database, target.at.name);
  }

  lemma CatalogTypes(t: string)
    requires t in LISTED_TYPES + {"DATABASE", "CATALOG"}
    ensures t !in NON_CATALOG_TYPES
  {
  }

  lemma NamedDatabase(
      privs: seq<string>, t: string, db: string, rest: string, rowCatalog: string, grantee: string,
      granteeType: GranteeType)
    requires GoodList(privs) && t in LISTED_TYPES && Solid(db) && '`' !in db && Upper(db) != "TO"
    ensures ReadsEach(Printed(privs, ScopeHeadText(t) + db, rest), rowCatalog, grantee, granteeType, privs, t,
                      OwnCatalog(rowCatalog), Some(db), None)
  {
    ListedHead(t);
    CatalogTypes(t);
    DatabaseTarget(t, db);
    assert ScopeHeadText(t)[0] == AllText(t)[0];
    WordEnds(privs, ScopeHeadText(t), db, rest, rowCatalog, grantee, granteeType,
             Target(t, Coordinates(None, Some(db), None)));
  }

  lemma DatabaseTarget(t: string, db: string)
    requires t in LISTED_TYPES && Solid(db) && '`' !in db
    ensures ParseTarget(ScopeHeadText(t) + db) == Target(t, Coordinates(None, Some(db), None))
  {
    InDatabaseClause(db);
    ScopedTarget(t, " IN DATABASE " + db, Some(db));
    ConcatAssociates(AllText(t), " IN DATABASE ", db);
  }

  lemma LostDatabase(
      privs: seq<string>, t: string, db: string, rest: string, rowCatalog: string, grantee: string,
      granteeType: GranteeType)
    requires GoodList(privs) && t in LISTED_TYPES && Solid(db) && Upper(db) == "TO"
    ensures !ReadsEach(Printed(privs, ScopeHeadText(t) + db, rest), rowCatalog, grantee, granteeType, privs, t,
                       OwnCatalog(rowCatalog), Some(db), None)
  {
    var on, k := ScopeHeadText(t) + db, |ScopeHeadText(t)| - 1;
    ListedHead(t);
    CutTarget(ScopeHeadText(t), db, rest);
    NamelessScope(t);
    TailTaken(on, rest, k);
    NamelessText(t, db);
    ReadsCut(privs, on, rest, k, rowCatalog, grantee, granteeType, t, OwnCatalog(rowCatalog), Some(db), None);
  }

  lemma NamelessText(t: string, db: string)
    ensures (ScopeHeadText(t) + db)[..|ScopeHeadText(t)| - 1] == "ALL " + t + "S IN DATABASE"
  {
    assert ScopeHeadText(t) == "ALL " + t + "S IN DATABASE" + " ";
  }

  // A grant on all objects of a type in one database is read as such, with the catalog of
  // its row, unless the database is named like the mark that ends the target.
  lemma InDatabaseReads(
      privs: seq<string>, t: string, db: string, rest: string, rowCatalog: string, grantee: string,
      granteeType: GranteeType)
    requires GoodList(privs) && t in LISTED_TYPES && Solid(db) && '`' !in db
    ensures Upper(db) != "TO" <==>
            ReadsEach("GRANT " + Join(privs, ", ") + " ON ALL " + t + "S IN DATABASE " + db + " TO " + rest,
                      rowCatalog, grantee, granteeType, privs, t, OwnCatalog(rowCatalog), Some(db), None)
  {
    ScopeText(privs, t, db, rest);
    if Upper(db) != "TO" {
      NamedDatabase(privs, t, db, rest, rowCatalog, grantee, granteeType);
    } else {
      LostDatabase(privs, t, db, rest, rowCatalog, grantee, granteeType);
    }
  }

  // ---------------------------------------------------------------------------
  // Scopes without a database

  lemma AllDatabasesTarget(t: string)
    requires t in LISTED_TYPES
    ensures ParseTarget(AllText(t) + " IN ALL " + "DATABASES") == Target(t, Coordinates(None, None, None))
  {
    AllDatabasesClause();
    ScopedTarget(t, " IN ALL DATABASES", None);
    AllDatabasesJoined();
    ConcatAssociates(AllText(t), " IN ALL ", "DATABASES");
  }

  lemma AllDatabasesJoined()
    ensures " IN ALL " + "DATABASES" == " IN ALL DATABASES"
  {
  }

  // A grant on all objects of a type in all databases names no database.
  lemma InAllDatabasesReads(
      privs: seq<string>, t: string, rest: string, rowCatalog: string, grantee: string, granteeType: GranteeType)
    requires GoodList(privs) && t in LISTED_TYPES
    ensures ReadsEach("GRANT " + Join(privs, ", ") + " ON ALL " + t + "S IN ALL DATABASES TO " + rest,
                      rowCatalog, grantee, granteeType, privs, t, OwnCatalog(rowCatalog), None, None)
  {
    ListedHead(t);
    PluralWords();
    WordSolid("DATABASES");
    CatalogTypes(t);
    AllDatabasesTarget(t);
    WordEnds(privs, AllText(t) + " IN ALL ", "DATABASES", rest, rowCatalog, grantee, granteeType,
             Target(t, Coordinates(None, None, None)));
    AllDatabasesText(privs, t, rest);
  }

  lemma AllDatabasesText(privs: seq<string>, t: string, rest: string)
    ensures "GRANT " + Join(privs, ", ") + " ON ALL " + t + "S IN ALL DATABASES TO " + rest ==
            Printed(privs, AllText(t) + " IN ALL " + "DATABASES", rest)
  {
    var head := "GRANT " + Join(privs, ", ");
    assert head + " ON ALL " + t + "S IN ALL DATABASES TO " ==
           head + " ON " + (AllText(t) + " IN ALL " + "DATABASES") + " TO ";
  }

  // A grant on all objects of a type names nothing.
  lemma AllReads(
      privs: seq<string>, t: string, rest: string, rowCatalog: string, grantee: string, granteeType: GranteeType)
    requires GoodList(privs) && t in LISTED_TYPES + {"DATABASE"}
    ensures ReadsEach("GRANT " + Join(privs, ", ") + " ON " + ("ALL " + t + "S") + " TO " + rest,
                      rowCatalog, grantee, granteeType, privs, t, OwnCatalog(rowCatalog), None, None)
  {
    var h, last := PluralHead(t);
    AllOfType(t);
    CatalogTypes(t);
    assert |Upper(last)| > 2;
    WordEnds(privs, h, last, rest, rowCatalog, grantee, granteeType, Target(t, Coordinates(None, None, None)));
  }

  // ---------------------------------------------------------------------------
  // Unquoted paths

  lemma TypeHead(t: string)
    requires t in PATH_TYPES + OUTSIDE_KINDS
    ensures Steady(t + " ") && !IsSpace(t[0]) && |t| > 2
  {
    if t == "MATERIALIZED VIEW" {
      TwoWordHead(t, "MATERIALIZED", "VIEW");
    } else if t == "STORAGE VOLUME" {
      TwoWordHead(t, "STORAGE", "VOLUME");
    } else if t == "GLOBAL FUNCTION" {
      TwoWordHead(t, "GLOBAL", "FUNCTION");
    } else if t == "RESOURCE GROUP" {
      TwoWordHead(t, "RESOURCE", "GROUP");
    } else {
      OneWordHead(t);
    }
  }

  lemma OneWordHead(t: string)
    requires t in {"TABLE", "VIEW", "FUNCTION", "DATABASE", "CATALOG"}
    ensures Steady(t + " ") && !IsSpace(t[0])
  {
    assert forall c :: c in t ==> 'A' <= c <= 'Z';
    CapitalHead(t);
    OneHead(t);
  }

  lemma CapitalHead(t: string)
    requires |t| > 1 && t[1] != 'O' && forall c :: c in t ==> 'A' <= c <= 'Z'
    ensures HeadWord(t)
  {
    assert forall i :: 0 <= i < |t| ==> t[i] in t;
  }

  lemma TwoWordHead(t: string, w: string, v: string)
    requires t == w + " " + v && HeadWord(w) && HeadWord(v)
    ensures Steady(t + " ") && !IsSpace(t[0])
  {
    SteadyWord("", w);
    assert "" + w + " " == w + " ";
    SteadyWord(w + " ", v);
    assert w + " " + v + " " == t + " ";
    assert t[0] == w[0];
  }

  // A target of a type and one word behind it.
  lemma PathEnds(
      privs: seq<string>, t: string, path: string, rest: string, rowCatalog: string, grantee: string,
      granteeType: GranteeType, at: Coordinates)
    requires GoodList(privs) && t in PATH_TYPES + OUTSIDE_KINDS && Solid(path) && Upper(path) != "TO"
    requires ParseTarget(t + " " + path) == Target(t, at)
    ensures ReadsEach("GRANT " + Join(privs, ", ") + " ON " + (t + " " + path) + " TO " + rest, rowCatalog,
                      grantee, granteeType, privs, t, Completed(t, at.catalog, rowCatalog), at.database, at.name)
  {
    TypeHead(t);
    assert (t + " ")[0] == t[0];
    WordEnds(privs, t + " ", path, rest, rowCatalog, grantee, granteeType, Target(t, at));
  }

  // The mark alone is no path.
  lemma DottedIsNoMark(a: string, b: string)
    ensures Upper(a + "." + b) != "TO"
  {
    var path := a + "." + b;
    assert path[|a|] == '.';
    assert Upper(path)[|a|] == '.';
  }

  // A star stands for all catalogs, then the catalog of the row counts.
  function ListedCatalog(c: string, rowCatalog: string): Option<string> {
    if c == "*" then OwnCatalog(rowCatalog) else Some(c)
  }

  // An object in a database, by its two names; a star counts as a name.
  lemma ListedPairReads(
      privs: seq<string>, t: string, db: string, name: string, rest: string, rowCatalog: string, grantee: string,
      granteeType: GranteeType)
    requires GoodList(privs) && t in LISTED_TYPES && PathPart(db) && PathPart(name)
    ensures ReadsEach("GRANT " + Join(privs, ", ") + " ON " + (t + " " + (db + "." + name)) + " TO " + rest,
                      rowCatalog, grantee, granteeType, privs, t, OwnCatalog(rowCatalog), Some(db), Some(name))
  {
    var path := db + "." + name;
    TwoParts(db, name);
    PathPlain(path);
    DottedIsNoMark(db, name);
    TwoTarget(t, db, name);
    CatalogTypes(t);
    PathEnds(privs, t, path, rest, rowCatalog, grantee, granteeType, Coordinates(None, Some(db), Some(name)));
  }

  // The same under a catalog; here a star stands for all.
  lemma TripleReads(
      privs: seq<string>, t: string, c: string, db: string, name: string, rest: string, rowCatalog: string,
      grantee: string, granteeType: GranteeType)
    requires GoodList(privs) && t in LISTED_TYPES && PathPart(c) && PathPart(db) && PathPart(name)
    ensures ReadsEach("GRANT " + Join(privs, ", ") + " ON " + (t + " " + (c + "." + db + "." + name)) + " TO " + rest,
                      rowCatalog, grantee, granteeType, privs, t,
                      ListedCatalog(c, rowCatalog), NoStar(db), NoStar(name))
  {
    var path := c + "." + db + "." + name;
    ThreeNames(c, db, name);
    PathPlain(path);
    DottedIsNoMark(c + "." + db, name);
    ThreeTarget(t, c, db, name);
    CatalogTypes(t);
    PathEnds(privs, t, path, rest, rowCatalog, grantee, granteeType,
             Coordinates(NoStar(c), NoStar(db), NoStar(name)));
  }

  // A database under a catalog; before a star the catalog is taken for the database.
  lemma ScopePairReads(
      privs: seq<string>, t: string, c: string, db: string, rest: string, rowCatalog: string, grantee: string,
      granteeType: GranteeType)
    requires GoodList(privs) && t == "DATABASE" && PathPart(c) && PathPart(db)
    ensures var stmt := "GRANT " + Join(privs, ", ") + " ON " + (t + " " + (c + "." + db)) + " TO " + rest;
            if db == "*" then
              ReadsEach(stmt, rowCatalog, grantee, granteeType, privs, t, OwnCatalog(rowCatalog), Some(c), None)
            else ReadsEach(stmt, rowCatalog, grantee, granteeType, privs, t, Some(c), Some(db), None)
  {
    var path := c + "." + db;
    TwoParts(c, db);
    PathPlain(path);
    DottedIsNoMark(c, db);
    ScopePairTarget(t, c, db);
    CatalogTypes(t);
    PathEnds(privs, t, path, rest, rowCatalog, grantee, granteeType, ScopePair(c, db));
  }

  // A database or a catalog by its name.
  lemma ListedNameReads(
      privs: seq<string>, t: string, x: string, rest: string, rowCatalog: string, grantee: string,
      granteeType: GranteeType)
    requires GoodList(privs) && t in {"DATABASE", "CATALOG"} && PathPart(x) && Upper(x) != "TO"
    ensures var stmt := "GRANT " + Join(privs, ", ") + " ON " + (t + " " + x) + " TO " + rest;
            if t == "DATABASE" then
              ReadsEach(stmt, rowCatalog, grantee, granteeType, privs, t, OwnCatalog(rowCatalog), NoStar(x), None)
            else
              ReadsEach(stmt, rowCatalog, grantee, granteeType, privs, t, ListedCatalog(x, rowCatalog), None, None)
  {
    NoDot(x);
    PathPlain(x);
    OneTarget(t, x);
    CatalogTypes(t);
    PathEnds(privs, t, x, rest, rowCatalog, grantee, granteeType,
             if t == "DATABASE" then Coordinates(None, NoStar(x), None) else Coordinates(NoStar(x), None, None));
  }

  // ---------------------------------------------------------------------------
  // Outside the catalogs

  // An object outside the catalogs has its name and no catalog, whatever the row says,
  // unless it is named like the mark that ends the target.
  lemma OutsideReads(
      privs: seq<string>, t: string, x: string, rest: string, rowCatalog: string, grantee: string,
      granteeType: GranteeType)
    requires GoodList(privs) && t in OUTSIDE_KINDS && Solid(x) && '`' !in x && '.' !in x && x != "*"
    ensures Upper(x) != "TO" <==>
            ReadsEach("GRANT " + Join(privs, ", ") + " ON " + (t + " " + x) + " TO " + rest,
                      rowCatalog, grantee, granteeType, privs, t, None, None, Some(x))
  {
    KindNormal(t);
    if Upper(x) != "TO" {
      KindTarget(t, x);
      PathEnds(privs, t, x, rest, rowCatalog, grantee, granteeType, Coordinates(None, None, Some(x)));
    } else {
      LostName(privs, t, x, rest, rowCatalog, grantee, granteeType);
    }
  }

  lemma LostName(
      privs: seq<string>, t: string, x: string, rest: string, rowCatalog: string, grantee: string,
      granteeType: GranteeType)
    requires GoodList(privs) && t in OUTSIDE_KINDS && Solid(x) && Upper(x) == "TO"
    ensures !ReadsEach(Printed(privs, t + " " + x, rest), rowCatalog, grantee, granteeType, privs, t, None, None,
                       Some(x))
  {
    var on := t + " " + x;
    TypeHead(t);
    CutTarget(t + " ", x, rest);
    KindAlone(t);
    TailTaken(on, rest, |t|);
    assert on[..|t|] == t && on[0] == t[0];
    ReadsCut(privs, on, rest, |t|, rowCatalog, grantee, granteeType, t, None, None, Some(x));
  }

  // A grant on the system names nothing at all.
  lemma SystemReads(
      privs: seq<string>, rest: string, rowCatalog: string, grantee: string, granteeType: GranteeType)
    requires GoodList(privs)
    ensures ReadsEach("GRANT " + Join(privs, ", ") + " ON SYSTEM TO " + rest,
                      rowCatalog, grantee, granteeType, privs, "SYSTEM", None, None, None)
  {
    SystemEnds(privs, "SYSTEM", rest, rowCatalog, grantee, granteeType);
    SystemText(privs, rest);
  }

  lemma SystemEnds(
      privs: seq<string>, t: string, rest: string, rowCatalog: string, grantee: string, granteeType: GranteeType)
    requires GoodList(privs) && t == "SYSTEM"
    ensures ReadsEach(Printed(privs, t, rest), rowCatalog, grantee, granteeType, privs, t, None, None, None)
  {
    SystemTarget(t);
    SystemSolid(t);
    assert "" + t == t;
    WordEnds(privs, "", t, rest, rowCatalog, grantee, granteeType, Target(t, Coordinates(None, None, None)));
  }

  lemma SystemSolid(t: string)
    requires t == "SYSTEM"
    ensures Solid(t) && t in NON_CATALOG_TYPES
  {
    assert forall c :: c in t ==> 'A' <= c <= 'Z';
    assert forall i :: 0 <= i < |t| ==> t[i] in t;
  }

  lemma SystemText(privs: seq<string>, rest: string)
    ensures "GRANT " + Join(privs, ", ") + " ON SYSTEM TO " + rest == Printed(privs, "SYSTEM", rest)
  {
    var head := "GRANT " + Join(privs, ", ");
    assert head + " ON SYSTEM TO " == head + " ON " + "SYSTEM" + " TO ";
  }

  // ---------------------------------------------------------------------------
  // Rows

  // A row of two columns is read from its statement, with its catalog.
  lemma ListedRow(c: string, stmt: string, grantee: string, granteeType: GranteeType)
    requires StartsCI(stmt, "GRANT") && !StartsCI(c, "GRANT")
    ensures ShowGrants([[("Catalog", c), ("Grants", stmt)]], grantee, granteeType) ==
            FillAll(Grants(stmt, grantee, granteeType), c)
  {
    var row := [("Catalog", c), ("Grants", stmt)];
    ListedCells(row, ("Catalog", c), ("Grants", stmt));
    CellFound(row, "Catalog", 0);
    NoOtherCatalog(row, c, stmt);
    OneStatement(row, stmt, grantee, granteeType);
  }

  lemma ListedCells(row: ResultRow, a: (string, string), b: (string, string))
    requires row == [a, b] && !StartsCI(a.1, "GRANT") && StartsCI(b.1, "GRANT")
    ensures Statements([row]) == [(row, b.1)]
  {
    assert row == [a] + [b] + [];
    CellsInOrder(row, [a], b, []);
    OneCell(row, a);
    assert StatementsOf(row, []) == [];
  }

  lemma NoOtherCatalog(row: ResultRow, c: string, stmt: string)
    requires row == [("Catalog", c), ("Grants", stmt)]
    ensures Cell(row, "catalog") == "" && RowCatalog(row) == c
  {
    var rest := row[1..];
    assert "Catalog"[0] != "catalog"[0] && "Grants"[0] != "catalog"[0];
    assert rest == [("Grants", stmt)] && rest[1..] == [];
    assert row[0].0 == "Catalog" && row[0].0 != "catalog" && rest[0].0 != "catalog";
    assert Cell(rest[1..], "catalog") == "";
    assert Cell(rest, "catalog") == "";
    CellFound(row, "Catalog", 0);
  }
}
