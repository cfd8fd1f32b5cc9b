/**
  Reading of GRANT statements. Each regular expression is a first-match scanner on
  suffixes of the text, with the priorities of the expression: a greedy repetition tries
  the longest run first, a lazy one the shortest.
 */
module GrantParser {
  import opened Text
  import opened GrantTypes

  // ---------------------------------------------------------------------------
  // GRANT\s+(.+?)\s+ON\s+(.+?)\s+TO\s+

  // s starts with `\s+word\s`.
  predicate Mark(s: string, word: string) {
    var t := LStrip(s);
    && StartsWithSpace(s)
    && StartsCI(t, word)
    && StartsWithSpace(t[|word|..])
  }

  // s behind `\s+word`; it still starts with white space.
  function BehindMark(s: string, word: string): (r: string)
    requires Mark(s, word)
    ensures StartsWithSpace(r) && |r| < |s|
  {
    LStrip(s)[|word|..]
  }

  // `(.+?)\s+TO\s+` at s: the second group.
  function LazyTo(s: string): Option<string> {
    if s == "" || s[0] == '\n' then None
    else if Mark(s[1..], "TO") then Some([s[0]])
    else
      var more := LazyTo(s[1..]);
      if more.Some? then Some([s[0]] + more.value) else None
  }

  // `\s+(.+?)\s+TO\s+` at s, longest white space first.
  function SpacedTo(s: string): Option<string> {
    if !StartsWithSpace(s) then None
    else
      var longer := SpacedTo(s[1..]);
      if longer.Some? then longer else LazyTo(s[1..])
  }

  // `(.+?)\s+ON\s+(.+?)\s+TO\s+` at s: both groups.
  function LazyOn(s: string): Option<(string, string)> {
    if s == "" || s[0] == '\n' then None
    else
      var here := if Mark(s[1..], "ON") then SpacedTo(BehindMark(s[1..], "ON")) else None;
      if here.Some? then Some(([s[0]], here.value))
      else
        var more := LazyOn(s[1..]);
        if more.Some? then Some(([s[0]] + more.value.0, more.value.1)) else None
  }

  function SpacedOn(s: string): Option<(string, string)> {
    if !StartsWithSpace(s) then None
    else
      var longer := SpacedOn(s[1..]);
      if longer.Some? then longer else LazyOn(s[1..])
  }

  function MatchGrantOn(stmt: string): Option<(string, string)> {
    if StartsCI(stmt, "GRANT") then SpacedOn(stmt[5..]) else None
  }

  // ---------------------------------------------------------------------------
  // The ON clause

  // `\s+IN\s+(?:ALL\s+DATABASES|DATABASE\s+(\S+))` at s; the group is None for all databases.
  function ScopeClause(s: string): Option<Option<string>> {
    var t := LStrip(s);
    if !StartsWithSpace(s) || !StartsCI(t, "IN") || !StartsWithSpace(t[2..]) then None
    else
      var scope := LStrip(t[2..]);
      if StartsCI(scope, "ALL") && StartsWithSpace(scope[3..]) && StartsCI(LStrip(scope[3..]), "DATABASES") then
        Some(None)
      else if StartsCI(scope, "DATABASE") && StartsWithSpace(scope[8..]) && LStrip(scope[8..]) != "" then
        Some(Some(TakeSolid(LStrip(scope[8..]))))
      else None
  }

  // Words are added to the type one by one until `IN ...` follows. A word cut short can
  // only be followed by the rest of itself, so whole words suffice.
  function TypeInScope(taken: string, s: string): Option<(string, Option<string>)>
    decreases |s|
  {
    var scope := ScopeClause(s);
    if scope.Some? then Some((taken, scope.value))
    else
      var t := LStrip(s);
      var word := TakeWord(t);
      if !StartsWithSpace(s) || word == "" then None
      else TypeInScope(taken + s[..|s| - |t|] + word, t[|word|..])
  }

  // ALL\s+(\w+(?:\s+\w+)*?)S?\s+IN\s+(?:ALL\s+DATABASES|DATABASE\s+(\S+))
  function AllInDatabase(on: string): Option<(string, Option<string>)> {
    if !StartsCI(on, "ALL") || !StartsWithSpace(on[3..]) then None
    else
      var t := LStrip(on[3..]);
      var word := TakeWord(t);
      if word == "" then None else TypeInScope(word, t[|word|..])
  }

  // `(?:\s+\w+)*` at s, as many words as there are.
  function MoreWords(s: string): string
    decreases |s|
  {
    var t := LStrip(s);
    var word := TakeWord(t);
    if !StartsWithSpace(s) || word == "" then ""
    else s[..|s| - |t|] + word + MoreWords(t[|word|..])
  }

  // ALL\s+(\w+(?:\s+\w+)*)
  function AllSimple(on: string): Option<string> {
    if !StartsCI(on, "ALL") || !StartsWithSpace(on[3..]) then None
    else
      var t := LStrip(on[3..]);
      var word := TakeWord(t);
      if word == "" then None else Some(word + MoreWords(t[|word|..]))
  }

  // rstrip("S")
  function DropS(s: string): string {
    if s != "" && s[|s| - 1] == 'S' then DropS(s[..|s| - 1]) else s
  }

  // `[^`]+`(?:\.`[^`]+`)*
  function QuotedPath(s: string): Option<string>
    decreases |s|
  {
    if s == "" || s[0] != '`' then None
    else
      var body := Before(s[1..], '`');
      if body == "" || |body| == |s| - 1 then None
      else
        var first := "`" + body + "`";
        var rest := s[|body| + 2..];
        var more := if HasPrefix(rest, ".") then QuotedPath(rest[1..]) else None;
        Some(if more.Some? then first + "." + more.value else first)
  }

  // [\w.*]+
  function TakePath(s: string): (r: string)
    ensures r <= s
  {
    if s != "" && (IsWord(s[0]) || s[0] in {'.', '*'}) then [s[0]] + TakePath(s[1..]) else ""
  }

  // (\w+(?:\s+\w+)*?)\s+(path): the lazy repetition of words is never used, because a
  // word that could be added is already a path.
  function TypeAndPath(on: string): Option<(string, string)> {
    var word := TakeWord(on);
    var t := LStrip(on[|word|..]);
    if word == "" || !StartsWithSpace(on[|word|..]) then None
    else
      var quoted := QuotedPath(t);
      if quoted.Some? then Some((word, quoted.value))
      else if TakePath(t) != "" then Some((word, TakePath(t)))
      else None
  }

  const MULTI_WORD_TYPES: seq<string> :=
    ["STORAGE VOLUME", "GLOBAL FUNCTION", "RESOURCE GROUP", "MATERIALIZED VIEW", "FAILOVER GROUP"]

  // The first of the types that the text starts with, up to case.
  function LeadingType(on: string, types: seq<string>): (r: Option<string>)
    ensures r.Some? ==> StartsCI(on, r.value)
  {
    if types == [] then None
    else if StartsCI(on, types[0]) then Some(types[0])
    else LeadingType(on, types[1..])
  }

  datatype OnClause = OnClause(objectType: string, path: string, scopedDatabase: Option<string>)

  function ParseOnClause(on: string): OnClause {
    var allInDb := AllInDatabase(on);
    if allInDb.Some? then
      var (t, db) := allInDb.value;
      OnClause(Upper(t), "", if db.Some? then Some(Erase(db.value, '`')) else None)
    else
      var all := AllSimple(on);
      if all.Some? then OnClause(DropS(Upper(all.value)), "", None)
      else
        var multi := LeadingType(on, MULTI_WORD_TYPES);
        if multi.Some? then OnClause(multi.value, Erase(Strip(on[|multi.value|..]), '`'), None)
        else
          var typed := TypeAndPath(on);
          if typed.Some? then OnClause(Upper(typed.value.0), Erase(Strip(typed.value.1), '`'), None)
          else OnClause(Upper(on), "", None)
  }

  const TYPE_MAP: seq<(string, string)> := [
    ("MATERIALIZED VIEW", "MATERIALIZED VIEW"),
    ("GLOBAL FUNCTION", "GLOBAL FUNCTION"),
    ("STORAGE VOLUME", "STORAGE VOLUME"),
    ("RESOURCE GROUP", "RESOURCE GROUP"),
    ("FAILOVER GROUP", "FAILOVER GROUP"),
    ("TABLE", "TABLE"),
    ("DATABASE", "DATABASE"),
    ("VIEW", "VIEW"),
    ("FUNCTION", "FUNCTION"),
    ("CATALOG", "CATALOG"),
    ("RESOURCE", "RESOURCE"),
    ("WAREHOUSE", "WAREHOUSE"),
    ("USER", "USER"),
    ("FAILOVER", "FAILOVER GROUP")]

  // The normal name of the first keyword contained in the type.
  function FirstKeyword(objectType: string, entries: seq<(string, string)>): string {
    if entries == [] then objectType
    else if Contains(objectType, entries[0].0) then entries[0].1
    else FirstKeyword(objectType, entries[1..])
  }

  function NormalizeObjectType(objectType: string): string {
    var t := FirstKeyword(objectType, TYPE_MAP);
    if Contains(t, "MASKING") || Contains(t, "ROW ACCESS") then "POLICY" else t
  }

  datatype Coordinates = Coordinates(catalog: Option<string>, database: Option<string>, name: Option<string>)

  function Segment(s: string): Option<string> {
    if s == "*" then None else Some(s)
  }

  function SplitObjectPath(objectType: string, path: string): Coordinates {
    var parts := if path == "" then [] else Split(path, '.');
    if |parts| == 3 then Coordinates(Segment(parts[0]), Segment(parts[1]), Segment(parts[2]))
    else if |parts| == 2 then
      if objectType in {"TABLE", "VIEW", "MATERIALIZED VIEW", "FUNCTION"} then
        Coordinates(None, Some(parts[0]), Some(parts[1]))
      else Coordinates(Some(parts[0]), Segment(parts[1]), None)
    else if |parts| == 1 && parts[0] != "*" then Coordinates(Some(parts[0]), None, None)
    else Coordinates(None, None, None)
  }

  const NAMED_SYSTEM_TYPES: set<string> :=
    {"STORAGE VOLUME", "GLOBAL FUNCTION", "RESOURCE GROUP", "WAREHOUSE", "RESOURCE", "PIPE", "USER"}

  function ApplyScopeOverrides(objectType: string, path: string, c: Coordinates, scoped: Option<string>): Coordinates {
    if Given(scoped) then Coordinates(None, scoped, c.name)
    else if objectType == "DATABASE" && Given(c.catalog) && !Given(c.database) then
      Coordinates(None, c.catalog, c.name)
    else if objectType in NAMED_SYSTEM_TYPES && Given(c.catalog) && !Given(c.database) then
      Coordinates(None, c.database, Some(path))
    else c
  }

  // ---------------------------------------------------------------------------
  // Statements

  datatype Target = Target(objectType: string, at: Coordinates)

  function Resolve(clause: OnClause): Target {
    var t := NormalizeObjectType(clause.objectType);
    Target(t, ApplyScopeOverrides(t, clause.path, SplitObjectPath(t, clause.path), clause.scopedDatabase))
  }

  function ParseTarget(on: string): Target {
    Resolve(ParseOnClause(on))
  }

  function GrantOn(target: Target, grantee: string, granteeType: GranteeType, privilege: string): Grant {
    Grant(grantee, granteeType, target.at.catalog, target.at.database, target.at.name,
          target.objectType, privilege, false, "direct")
  }

  // One grant for each non-empty privilege of the list.
  function GrantsOn(target: Target, grantee: string, granteeType: GranteeType, privs: seq<string>): seq<Grant> {
    if privs == [] then []
    else
      var n := |privs| - 1;
      GrantsOn(target, grantee, granteeType, privs[..n]) +
      if Strip(privs[n]) == "" then [] else [GrantOn(target, grantee, granteeType, Strip(privs[n]))]
  }

  function Grants(stmt: string, grantee: string, granteeType: GranteeType): seq<Grant> {
    var m := MatchGrantOn(stmt);
    if m.None? then []
    else GrantsOn(ParseTarget(Strip(m.value.1)), grantee, granteeType, Split(Strip(m.value.0), ','))
  }

  // This part of a privilege list grants g.
  predicate PartGrants(target: Target, grantee: string, granteeType: GranteeType, part: string, g: Grant) {
    Strip(part) != "" && g == GrantOn(target, grantee, granteeType, Strip(part))
  }

  lemma {:induction false} GrantsOnMember(
      target: Target, grantee: string, granteeType: GranteeType, privs: seq<string>, g: Grant)
    ensures g in GrantsOn(target, grantee, granteeType, privs) <==>
            exists part :: part in privs && PartGrants(target, grantee, granteeType, part, g)
  {
    if privs != [] {
      var n := |privs| - 1;
      GrantsOnMember(target, grantee, granteeType, privs[..n], g);
      assert privs == privs[..n] + [privs[n]];
      assert PartGrants(target, grantee, granteeType, privs[n], g) <==>
             g in if Strip(privs[n]) == "" then [] else [GrantOn(target, grantee, granteeType, Strip(privs[n]))];
    }
  }

  // The statement grants g to the grantee: a non-empty part of its privilege list, on the
  // target that its ON clause names.
  ghost predicate GrantedBy(stmt: string, grantee: string, granteeType: GranteeType, g: Grant) {
    var m := MatchGrantOn(stmt);
    && m.Some?
    && exists part :: part in Split(Strip(m.value.0), ',')
                      && PartGrants(ParseTarget(Strip(m.value.1)), grantee, granteeType, part, g)
  }

  lemma GrantsMember(stmt: string, grantee: string, granteeType: GranteeType, g: Grant)
    ensures g in Grants(stmt, grantee, granteeType) <==> GrantedBy(stmt, grantee, granteeType, g)
  {
    var m := MatchGrantOn(stmt);
    if m.Some? {
      GrantsOnMember(ParseTarget(Strip(m.value.1)), grantee, granteeType, Split(Strip(m.value.0), ','), g);
    }
  }

  // The loop over the listed privileges.
  method GrantEach(target: Target, grantee: string, granteeType: GranteeType, privs: seq<string>)
    returns (grants: seq<Grant>)
    ensures grants == GrantsOn(target, grantee, granteeType, privs)
  {
    grants := [];
    for i := 0 to |privs|
      invariant grants == GrantsOn(target, grantee, granteeType, privs[..i])
    {
      assert privs[..i + 1][..i] == privs[..i];
      var priv := Strip(privs[i]);
      if priv != "" {
        grants := grants + [GrantOn(target, grantee, granteeType, priv)];
      }
    }
    assert privs[..|privs|] == privs;
  }

  method ParseGrantStatement(stmt: string, grantee: string, granteeType: GranteeType) returns (grants: seq<Grant>)
    ensures grants == Grants(stmt, grantee, granteeType)
    ensures forall g :: g in grants <==> GrantedBy(stmt, grantee, granteeType, g)
  {
    forall g ensures g in Grants(stmt, grantee, granteeType) <==> GrantedBy(stmt, grantee, granteeType, g) {
      GrantsMember(stmt, grantee, granteeType, g);
    }
    var m := MatchGrantOn(stmt);
    if m.None? {
      return [];
    }
    grants := GrantEach(ParseTarget(Strip(m.value.1)), grantee, granteeType, Split(Strip(m.value.0), ','));
  }

  // ---------------------------------------------------------------------------
  // SHOW GRANTS rows

  // One row: its cells, column name and value, in column order.
  type ResultRow = seq<(string, string)>

  function Cell(row: ResultRow, column: string): string {
    if row == [] then "" else if row[0].0 == column then row[0].1 else Cell(row[1..], column)
  }

  // col(row, "Catalog"): an empty value falls through to the lower-case column.
  function RowCatalog(row: ResultRow): string {
    if Cell(row, "Catalog") != "" then Cell(row, "Catalog") else Cell(row, "catalog")
  }

  const NON_CATALOG_TYPES: set<string> :=
    {"SYSTEM", "GLOBAL FUNCTION", "STORAGE VOLUME", "RESOURCE GROUP", "RESOURCE", "WAREHOUSE", "USER", ""}

  function Fill(g: Grant, catalog: string): Grant {
    if catalog != "" && !Given(g.catalog) && g.objectType !in NON_CATALOG_TYPES then g.(catalog := Some(catalog)) else g
  }

  function FillAll(grants: seq<Grant>, catalog: string): (r: seq<Grant>)
    ensures |r| == |grants| && forall i :: 0 <= i < |grants| ==> r[i] == Fill(grants[i], catalog)
  {
    seq(|grants|, i requires 0 <= i < |grants| => Fill(grants[i], catalog))
  }

  // The cells that hold a GRANT statement, each with its row, row by row.
  function Statements(rows: seq<ResultRow>): seq<(ResultRow, string)> {
    if rows == [] then []
    else
      var n := |rows| - 1;
      Statements(rows[..n]) + StatementsOf(rows[n], rows[n])
  }

  function StatementsOf(row: ResultRow, cells: ResultRow): seq<(ResultRow, string)> {
    if cells == [] then []
    else
      var n := |cells| - 1;
      StatementsOf(row, cells[..n]) + if StartsCI(cells[n].1, "GRANT") then [(row, cells[n].1)] else []
  }

  // A cell of the row is this GRANT statement.
  ghost predicate Cites(row: ResultRow, stmt: string) {
    StartsCI(stmt, "GRANT") && exists j :: 0 <= j < |row| && row[j].1 == stmt
  }

  lemma {:induction false} StatementsOfMember(row: ResultRow, cells: ResultRow, found: (ResultRow, string))
    ensures found in StatementsOf(row, cells) <==> found.0 == row && Cites(cells, found.1)
  {
    if cells != [] {
      var n := |cells| - 1;
      StatementsOfMember(row, cells[..n], found);
      assert forall j :: 0 <= j < n ==> cells[..n][j] == cells[j];
    }
  }

  lemma {:induction false} StatementsMember(rows: seq<ResultRow>, found: (ResultRow, string))
    ensures found in Statements(rows) <==> found.0 in rows && Cites(found.0, found.1)
  {
    if rows != [] {
      var n := |rows| - 1;
      StatementsMember(rows[..n], found);
      StatementsOfMember(rows[n], rows[n], found);
      assert rows == rows[..n] + [rows[n]];
    }
  }

  // Row by row and cell by cell, exactly the cells that hold a GRANT statement.
  method IterGrantStatements(rows: seq<ResultRow>) returns (found: seq<(ResultRow, string)>)
    ensures found == Statements(rows)
    ensures forall row, s :: (row, s) in found <==> row in rows && Cites(row, s)
  {
    forall row, s ensures (row, s) in Statements(rows) <==> row in rows && Cites(row, s) {
      StatementsMember(rows, (row, s));
    }
    found := [];
    for i := 0 to |rows|
      invariant found == Statements(rows[..i])
    {
      assert rows[..i + 1][..i] == rows[..i];
      ghost var before := found;
      var row := rows[i];
      for j := 0 to |row|
        invariant found == before + StatementsOf(row, row[..j])
      {
        assert row[..j + 1][..j] == row[..j];
        if StartsCI(row[j].1, "GRANT") {
          found := found + [(row, row[j].1)];
        }
      }
      assert row[..|row|] == row;
    }
    assert rows[..|rows|] == rows;
  }

  // The loop that fills the catalog into the parsed grants, in place.
  method FillCatalog(parsed: seq<Grant>, catalog: string) returns (r: seq<Grant>)
    ensures r == FillAll(parsed, catalog)
  {
    r := parsed;
    if catalog != "" {
      for i := 0 to |parsed|
        invariant |r| == |parsed|
        invariant forall k :: 0 <= k < |parsed| ==> r[k] == if k < i then Fill(parsed[k], catalog) else parsed[k]
      {
        if !Given(r[i].catalog) && r[i].objectType !in NON_CATALOG_TYPES {
          r := r[i := r[i].(catalog := Some(catalog))];
        }
      }
    }
  }

  // The grants read from one statement, completed from its row.
  function Reader(grantee: string, granteeType: GranteeType): ((ResultRow, string)) -> seq<Grant> {
    (found: (ResultRow, string)) => FillAll(Grants(found.1, grantee, granteeType), RowCatalog(found.0))
  }

  function ReadAll(found: seq<(ResultRow, string)>, read: ((ResultRow, string)) -> seq<Grant>): seq<Grant> {
    if found == [] then []
    else ReadAll(found[..|found| - 1], read) + read(found[|found| - 1])
  }

  function ShowGrants(rows: seq<ResultRow>, grantee: string, granteeType: GranteeType): seq<Grant> {
    ReadAll(Statements(rows), Reader(grantee, granteeType))
  }

  lemma ReadNext(found: seq<(ResultRow, string)>, i: nat, read: ((ResultRow, string)) -> seq<Grant>)
    requires i < |found|
    ensures ReadAll(found[..i + 1], read) == ReadAll(found[..i], read) + read(found[i])
  {
    assert found[..i + 1][..i] == found[..i];
  }

  lemma ReaderReads(row: ResultRow, stmt: string, grantee: string, granteeType: GranteeType)
    ensures Reader(grantee, granteeType)((row, stmt)) ==
            FillAll(Grants(stmt, grantee, granteeType), RowCatalog(row))
  {
  }

  method ReadOne(row: ResultRow, stmt: string, grantee: string, granteeType: GranteeType)
    returns (filled: seq<Grant>)
    ensures filled == Reader(grantee, granteeType)((row, stmt))
  {
    var parsed := ParseGrantStatement(stmt, grantee, granteeType);
    filled := FillCatalog(parsed, RowCatalog(row));
    ReaderReads(row, stmt, grantee, granteeType);
  }

  // g is granted by a statement of the row, completed by its catalog.
  ghost predicate ReadFrom(row: ResultRow, stmt: string, grantee: string, granteeType: GranteeType, g: Grant) {
    && Cites(row, stmt)
    && exists h :: GrantedBy(stmt, grantee, granteeType, h) && g == Fill(h, RowCatalog(row))
  }

  lemma FillAllMember(grants: seq<Grant>, catalog: string, g: Grant)
    ensures g in FillAll(grants, catalog) <==> exists h :: h in grants && g == Fill(h, catalog)
  {
    if h :| h in grants && g == Fill(h, catalog) {
      var i :| 0 <= i < |grants| && grants[i] == h;
      assert FillAll(grants, catalog)[i] == g;
    }
  }

  lemma {:induction false} ReadAllMember(
      found: seq<(ResultRow, string)>, read: ((ResultRow, string)) -> seq<Grant>, g: Grant)
    ensures g in ReadAll(found, read) <==> exists f :: f in found && g in read(f)
  {
    if found != [] {
      var n := |found| - 1;
      ReadAllMember(found[..n], read, g);
      assert found == found[..n] + [found[n]];
    }
  }

  lemma ReaderMember(found: (ResultRow, string), grantee: string, granteeType: GranteeType, g: Grant)
    requires Cites(found.0, found.1)
    ensures g in Reader(grantee, granteeType)(found) <==> ReadFrom(found.0, found.1, grantee, granteeType, g)
  {
    ReaderReads(found.0, found.1, grantee, granteeType);
    FillAllMember(Grants(found.1, grantee, granteeType), RowCatalog(found.0), g);
    forall h ensures h in Grants(found.1, grantee, granteeType) <==> GrantedBy(found.1, grantee, granteeType, h) {
      GrantsMember(found.1, grantee, granteeType, h);
    }
  }

  lemma ShowGrantsMember(rows: seq<ResultRow>, grantee: string, granteeType: GranteeType, g: Grant)
    ensures g in ShowGrants(rows, grantee, granteeType) <==>
            exists row, s :: row in rows && ReadFrom(row, s, grantee, granteeType, g)
  {
    ReadAllMember(Statements(rows), Reader(grantee, granteeType), g);
    if f :| f in Statements(rows) && g in Reader(grantee, granteeType)(f) {
      StatementsMember(rows, f);
      ReaderMember(f, grantee, granteeType, g);
      assert ReadFrom(f.0, f.1, grantee, granteeType, g);
    }
    if row, s :| row in rows && ReadFrom(row, s, grantee, granteeType, g) {
      StatementsMember(rows, (row, s));
      ReaderMember((row, s), grantee, granteeType, g);
    }
  }

  // Exactly the grants of the GRANT statements in the rows, each completed from its row.
  method ParseShowGrants(rows: seq<ResultRow>, grantee: string, granteeType: GranteeType) returns (results: seq<Grant>)
    ensures results == ShowGrants(rows, grantee, granteeType)
    ensures forall g :: g in results <==>
                        exists row, s :: row in rows && ReadFrom(row, s, grantee, granteeType, g)
  {
    forall g ensures g in ShowGrants(rows, grantee, granteeType) <==>
                     exists row, s :: row in rows && ReadFrom(row, s, grantee, granteeType, g)
    {
      ShowGrantsMember(rows, grantee, granteeType, g);
    }
    results := [];
    var found := IterGrantStatements(rows);
    ghost var read := Reader(grantee, granteeType);
    for i := 0 to |found|
      invariant results == ReadAll(found[..i], read)
    {
      ReadNext(found, i, read);
      var (row, s) := found[i];
      var filled := ReadOne(row, s, grantee, granteeType);
      results := results + filled;
    }
    assert found[..|found|] == found;
  }

  // ---------------------------------------------------------------------------
  // Order

  lemma {:induction false} CellsConcat(row: ResultRow, a: ResultRow, b: ResultRow)
    ensures StatementsOf(row, a + b) == StatementsOf(row, a) + StatementsOf(row, b)
    decreases |b|
  {
    if b == [] {
      assert a + b == a;
    } else {
      var init, last := b[..|b| - 1], b[|b| - 1];
      CellsConcat(row, a, init);
      assert (a + b)[..|a + b| - 1] == a + init;
    }
  }

  lemma StatementsNext(rows: seq<ResultRow>, row: ResultRow)
    ensures Statements(rows + [row]) == Statements(rows) + StatementsOf(row, row)
  {
    assert (rows + [row])[..|rows|] == rows;
  }

  lemma {:induction false} StatementsConcat(a: seq<ResultRow>, b: seq<ResultRow>)
    ensures Statements(a + b) == Statements(a) + Statements(b)
    decreases |b|
  {
    if b == [] {
      assert a + b == a;
    } else {
      var init, last := b[..|b| - 1], b[|b| - 1];
      StatementsConcat(a, init);
      StatementsNext(a + init, last);
      StatementsNext(init, last);
      assert b == init + [last] && a + b == (a + init) + [last];
    }
  }

  lemma {:induction false} ReadConcat(
      a: seq<(ResultRow, string)>, b: seq<(ResultRow, string)>, read: ((ResultRow, string)) -> seq<Grant>)
    ensures ReadAll(a + b, read) == ReadAll(a, read) + ReadAll(b, read)
    decreases |b|
  {
    if b == [] {
      assert a + b == a;
    } else {
      var init, last := b[..|b| - 1], b[|b| - 1];
      ReadConcat(a, init, read);
      assert (a + b)[..|a + b| - 1] == a + init;
    }
  }

  // What is read from some rows comes in front of what is read from later ones.
  lemma RowsInOrder(a: seq<ResultRow>, b: seq<ResultRow>, grantee: string, granteeType: GranteeType)
    ensures ShowGrants(a + b, grantee, granteeType) ==
            ShowGrants(a, grantee, granteeType) + ShowGrants(b, grantee, granteeType)
  {
    StatementsConcat(a, b);
    ReadConcat(Statements(a), Statements(b), Reader(grantee, granteeType));
  }

  lemma OneCell(row: ResultRow, cell: (string, string))
    ensures StatementsOf(row, [cell]) == if StartsCI(cell.1, "GRANT") then [(row, cell.1)] else []
  {
    assert [cell][..0] == [];
  }

  lemma OneRow(row: ResultRow)
    ensures Statements([row]) == StatementsOf(row, row)
  {
    assert [row][..0] == [];
  }

  // So it is within a row.
  lemma CellsInOrder(row: ResultRow, a: ResultRow, cell: (string, string), b: ResultRow)
    requires row == a + [cell] + b
    ensures Statements([row]) ==
            StatementsOf(row, a) + (if StartsCI(cell.1, "GRANT") then [(row, cell.1)] else []) + StatementsOf(row, b)
  {
    OneRow(row);
    CellsConcat(row, a + [cell], b);
    CellsConcat(row, a, [cell]);
    OneCell(row, cell);
  }

  lemma OneStatement(row: ResultRow, stmt: string, grantee: string, granteeType: GranteeType)
    requires Statements([row]) == [(row, stmt)]
    ensures ShowGrants([row], grantee, granteeType) == FillAll(Grants(stmt, grantee, granteeType), RowCatalog(row))
  {
    var found, read := [(row, stmt)], Reader(grantee, granteeType);
    assert found[..0] == [];
    assert ReadAll(found, read) == ReadAll(found[..0], read) + read(found[0]);
  }

  // The first cell of the column counts.
  lemma {:induction false} CellFound(row: ResultRow, column: string, j: nat)
    requires j < |row| && row[j].0 == column && forall k :: 0 <= k < j ==> row[k].0 != column
    ensures Cell(row, column) == row[j].1
  {
    if j > 0 {
      assert row[0].0 != column;
      CellFound(row[1..], column, j - 1);
    }
  }
}
