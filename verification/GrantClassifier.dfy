/** How one grant relates to one object query. */
module GrantClassifier {
  import opened Text
  import opened GrantTypes
  import opened FirstSeen

  datatype Relevance = EXACT | PARENT_SCOPE | IMPLICIT_USAGE | IRRELEVANT

  const NON_OBJECT_TYPES: set<string> := {
    "SYSTEM", "USER", "ALL", "RESOURCE GROUP", "RESOURCE", "STORAGE VOLUME", "FAILOVER GROUP",
    "GLOBAL FUNCTION", "POLICY", "WAREHOUSE", "PIPE", "TASK"}

  const SYSTEM_ONLY_PRIVS: set<string> := {
    "REPOSITORY", "NODE", "BLACKLIST", "FILE", "OPERATE", "PLUGIN", "CREATE RESOURCE GROUP",
    "CREATE RESOURCE", "CREATE EXTERNAL CATALOG", "CREATE GLOBAL FUNCTION", "CREATE STORAGE VOLUME",
    "SECURITY", "GRANT", "CREATE WAREHOUSE"}

  const DB_ONLY_PRIVS: set<string> := {
    "CREATE TABLE", "CREATE VIEW", "CREATE FUNCTION", "CREATE MATERIALIZED VIEW", "CREATE PIPE",
    "CREATE MASKING POLICY", "CREATE ROW ACCESS POLICY"}

  const WILDCARD_TYPE_MAP: map<string, set<string>> := map[
    "TABLE" := {"TABLE"},
    "VIEW" := {"VIEW"},
    "MATERIALIZED VIEW" := {"MATERIALIZED VIEW", "MV"},
    "FUNCTION" := {"FUNCTION"},
    "DATABASE" := {"TABLE", "VIEW", "MATERIALIZED VIEW", "MV", "FUNCTION", "DATABASE"},
    "CATALOG" := {"TABLE", "VIEW", "MATERIALIZED VIEW", "MV", "FUNCTION", "DATABASE", "CATALOG"}]

  const SYSTEM_CREATE_MAP: map<string, string> := map[
    "CREATE RESOURCE GROUP" := "RESOURCE GROUP",
    "CREATE RESOURCE" := "RESOURCE",
    "CREATE EXTERNAL CATALOG" := "CATALOG",
    "CREATE STORAGE VOLUME" := "STORAGE VOLUME",
    "CREATE WAREHOUSE" := "WAREHOUSE",
    "CREATE GLOBAL FUNCTION" := "GLOBAL FUNCTION"]

  const CREATE_TYPE_MAP: map<string, string> := map[
    "CREATE TABLE" := "TABLE",
    "CREATE VIEW" := "VIEW",
    "CREATE MATERIALIZED VIEW" := "MATERIALIZED VIEW",
    "CREATE FUNCTION" := "FUNCTION",
    "CREATE PIPE" := "PIPE"]

  // 'fn(VARCHAR)' -> 'fn'
  function NormalizeFnName(name: string): string {
    Before(name, '(')
  }

  // A grant of this type cannot apply to objects of the queried type.
  predicate TypeClash(otype: string, q: ObjectQuery) {
    otype in WILDCARD_TYPE_MAP && q.TypeUpper() !in WILDCARD_TYPE_MAP[otype]
  }

  predicate ScopeMatches(gc: Option<string>, gd: Option<string>, gn: Option<string>, q: ObjectQuery) {
    && !(Given(gc) && Given(q.catalog) && gc != q.catalog)
    && !(Given(gd) && Given(q.database) && gd != q.database)
    && !(Given(gn) && Given(q.name) && gn != q.name)
  }

  // CREATE X privileges pass through to queries of their target type.
  predicate SystemCreateHit(priv: string, q: ObjectQuery) {
    priv in SYSTEM_CREATE_MAP && q.TypeUpper() == SYSTEM_CREATE_MAP[priv]
  }

  function ClassifyNonObject(otype: string, gn: Option<string>, q: ObjectQuery): Relevance {
    if q.TypeUpper() != otype then IRRELEVANT
    else if Given(gn) && Given(q.name) && NormalizeFnName(gn.value) != NormalizeFnName(q.name.value) then
      IRRELEVANT
    else if Given(gn) || !Given(q.name) then EXACT
    else PARENT_SCOPE
  }

  function Classify(g: Grant, q: ObjectQuery): Relevance {
    var otype := Upper(g.objectType);
    var priv := Upper(g.privilege);
    if q.IsSystem() then
      if otype == "SYSTEM" then EXACT else IRRELEVANT
    else if SystemCreateHit(priv, q) then PARENT_SCOPE
    else if otype == "SYSTEM" || priv in SYSTEM_ONLY_PRIVS then IRRELEVANT
    else if otype in NON_OBJECT_TYPES then ClassifyNonObject(otype, g.name, q)
    else if q.IsScopeQuery() && otype in q.ChildTypes() && ScopeMatches(g.catalog, g.database, g.name, q) then
      IMPLICIT_USAGE
    else if Given(q.name) && otype == "DATABASE" && priv in DB_ONLY_PRIVS then
      if priv in CREATE_TYPE_MAP && CREATE_TYPE_MAP[priv] == q.TypeUpper() then PARENT_SCOPE else IRRELEVANT
    else if Given(q.name) && q.TypeUpper() != "" && !Given(g.name) && TypeClash(otype, q) then IRRELEVANT
    else if !Given(g.catalog) && !Given(g.database) && !Given(g.name) && otype != "" then
      if q.TypeUpper() != "" && TypeClash(otype, q) then IRRELEVANT else PARENT_SCOPE
    else if ScopeMatches(g.catalog, g.database, g.name, q) then
      if Given(g.name) && q.TypeUpper() != "" && otype != "" && TypeClash(otype, q) then IRRELEVANT
      else if Given(g.name) then EXACT
      else PARENT_SCOPE
    else IRRELEVANT
  }

  // ---------------------------------------------------------------------------
  // Relevance and scope

  // A grant on a catalog object that is asked about as one.
  predicate ObjectGrant(g: Grant, q: ObjectQuery) {
    && !q.IsSystem() && !SystemCreateHit(Upper(g.privilege), q)
    && Upper(g.privilege) !in SYSTEM_ONLY_PRIVS && Upper(g.objectType) !in NON_OBJECT_TYPES
  }

  // The right to create objects of the queried type in some database.
  predicate CreatesQueried(g: Grant, q: ObjectQuery) {
    && Given(q.name) && Upper(g.objectType) == "DATABASE" && Upper(g.privilege) in CREATE_TYPE_MAP
    && CREATE_TYPE_MAP[Upper(g.privilege)] == q.TypeUpper()
  }

  // A grant whose coordinates contradict the query is relevant exactly when it is the
  // right to create such objects: that branch does not look at coordinates.
  lemma OutOfScope(g: Grant, q: ObjectQuery)
    requires ObjectGrant(g, q) && !ScopeMatches(g.catalog, g.database, g.name, q)
    ensures Classify(g, q) != IRRELEVANT <==> CreatesQueried(g, q) && Upper(g.privilege) in DB_ONLY_PRIVS
  {
  }

  // An exact answer names an object that no coordinate of the query contradicts, and a
  // USAGE is owed only for children within the scope.
  lemma InScope(g: Grant, q: ObjectQuery)
    requires ObjectGrant(g, q)
    ensures Classify(g, q) == EXACT ==> Given(g.name) && ScopeMatches(g.catalog, g.database, g.name, q)
    ensures Classify(g, q) == IMPLICIT_USAGE ==>
              && ScopeMatches(g.catalog, g.database, g.name, q)
              && !Given(q.name) && Upper(g.objectType) in q.ChildTypes()
  {
  }

  // The failing family is real: CREATE TABLE in one database answers for a table of another.
  lemma CreateIgnoresScope()
    ensures var q := ObjectQuery(Some("c"), Some("sales"), Some("orders"), Some("TABLE"));
            var g := Grant(
              "analyst", ROLE, Some("c"), Some("staging"), None, "DATABASE", "CREATE TABLE", false, "direct");
            ObjectGrant(g, q) && !ScopeMatches(g.catalog, g.database, g.name, q) && Classify(g, q) == PARENT_SCOPE
  {
    assert Upper("TABLE") == "TABLE" && Upper("DATABASE") == "DATABASE" && Upper("CREATE TABLE") == "CREATE TABLE";
    assert "sales"[1] != "staging"[1];
  }

  // A table grant owes a USAGE on a database that is queried.
  lemma UsageOwed(g: Grant, q: ObjectQuery)
    requires g.database == Some("sales") && g.objectType == "TABLE" && g.privilege == "SELECT"
    requires g.catalog == None && g.name == Some("orders")
    requires q == ObjectQuery(None, Some("sales"), None, Some("DATABASE"))
    ensures Classify(g, q) == IMPLICIT_USAGE
  {
    assert Upper("TABLE") == "TABLE" && Upper("DATABASE") == "DATABASE" && Upper("SELECT") == "SELECT";
  }

  // `original or q.type_upper or "TABLE"`
  function MakeInherited(
      grantee: string, granteeType: GranteeType, privilege: string, q: ObjectQuery,
      source: string, original: Option<string>): Grant
  {
    var otype :=
      if Given(original) then original.value else if q.TypeUpper() != "" then q.TypeUpper() else "TABLE";
    Grant(grantee, granteeType, q.catalog, q.database, q.name, otype, privilege, false, source)
  }

  // ---------------------------------------------------------------------------
  // Inheritance and relevance

  // g as it reaches a grantee through the role graph, with its own object type.
  function Inherited(g: Grant, q: ObjectQuery, grantee: string, granteeType: GranteeType, source: string): Grant {
    MakeInherited(grantee, granteeType, g.privilege, q, source, Some(g.objectType))
  }

  // The grant was accepted before any of its coordinates was looked at.
  predicate AcceptedByTypeAlone(g: Grant, q: ObjectQuery) {
    || q.IsSystem()
    || SystemCreateHit(Upper(g.privilege), q)
    || (q.IsScopeQuery() && Upper(g.objectType) in q.ChildTypes())
  }

  // A relevant grant stays relevant under inheritance exactly when the query names a
  // coordinate, or the type alone decides, or the two types do not clash.
  lemma InheritanceKeepsRelevance(
      g: Grant, q: ObjectQuery, grantee: string, granteeType: GranteeType, source: string)
    requires g.objectType != "" && Classify(g, q) != IRRELEVANT
    ensures Classify(Inherited(g, q, grantee, granteeType, source), q) != IRRELEVANT <==>
            || q.NamesSomething()
            || AcceptedByTypeAlone(g, q)
            || q.TypeUpper() == ""
            || !TypeClash(Upper(g.objectType), q)
    ensures Classify(Inherited(g, q, grantee, granteeType, source), q) == IMPLICIT_USAGE <==>
            Classify(g, q) == IMPLICIT_USAGE
  {
  }

  // The failing family is real: without coordinates a table grant answers a query for
  // views, and its inherited copy does not.
  lemma InheritanceLosesRelevance()
    ensures var q := ObjectQuery(None, None, None, Some("VIEW"));
            var g := Grant("analyst", ROLE, None, Some("sales"), None, "TABLE", "SELECT", false, "direct");
            && Classify(g, q) == PARENT_SCOPE
            && Classify(Inherited(g, q, "intern", ROLE, "analyst"), q) == IRRELEVANT
  {
    assert Upper("TABLE") == "TABLE" && Upper("VIEW") == "VIEW" && Upper("SELECT") == "SELECT";
  }

  // ---------------------------------------------------------------------------
  // Deduplication

  datatype GrantKey = GrantKey(
    grantee: string, granteeType: GranteeType, objectType: string,
    catalog: string, database: string, name: string, privilege: string)

  function KeyOfGrant(g: Grant): GrantKey {
    GrantKey(g.grantee, g.granteeType, g.objectType,
             OrEmpty(g.catalog), OrEmpty(g.database), OrEmpty(g.name), g.privilege)
  }

  const ROW_KEY := (g: Grant) => KeyOfGrant(g)

  // The same coordinate; an absent one and an empty one are the same.
  predicate SamePart(a: Option<string>, b: Option<string>) {
    a == b || (!Given(a) && !Given(b))
  }

  // The same privilege of the same grantee on the same object.
  predicate SameGrant(a: Grant, b: Grant) {
    && a.grantee == b.grantee && a.granteeType == b.granteeType && a.privilege == b.privilege
    && a.objectType == b.objectType && SamePart(a.catalog, b.catalog)
    && SamePart(a.database, b.database) && SamePart(a.name, b.name)
  }

  lemma SameKey(a: Grant, b: Grant)
    ensures SameGrant(a, b) <==> ROW_KEY(a) == ROW_KEY(b)
  {
  }

  // No grant in front of this one says the same.
  ghost predicate FirstOfGrant(results: seq<Grant>, i: int) {
    0 <= i < |results| && forall j :: 0 <= j < i ==> !SameGrant(results[j], results[i])
  }

  // Exactly the first of the grants that say the same, in order.
  lemma KeptGrants(results: seq<Grant>)
    ensures exists at :: PickedAt(results, at, Unique(results, ROW_KEY))
                         && forall i :: i in at <==> FirstOfGrant(results, i)
  {
    var at := UniqueFirst(results, ROW_KEY);
    forall i ensures FirstOfKey(results, ROW_KEY, i) <==> FirstOfGrant(results, i) {
      if 0 <= i < |results| {
        forall j | 0 <= j < i
          ensures SameGrant(results[j], results[i]) <==> ROW_KEY(results[j]) == ROW_KEY(results[i])
        {
          SameKey(results[j], results[i]);
        }
      }
    }
  }

  method Deduplicate(results: seq<Grant>) returns (unique: seq<Grant>)
    ensures unique == Unique(results, ROW_KEY)
    ensures exists at :: PickedAt(results, at, unique) && forall i :: i in at <==> FirstOfGrant(results, i)
  {
    var seen: set<GrantKey> := {};
    unique := [];
    for i := 0 to |results|
      invariant unique == Unique(results[..i], ROW_KEY)
      invariant seen == Keys(results[..i], ROW_KEY)
    {
      var key := KeyOfGrant(results[i]);
      assert results[..i + 1] == results[..i] + [results[i]];
      assert results[..i + 1][..i] == results[..i];
      KeysAppend(results[..i], results[i], ROW_KEY);
      if key !in seen {
        seen := seen + {key};
        unique := unique + [results[i]];
      }
    }
    assert results[..|results|] == results;
    KeptGrants(results);
  }

  // A grantee is listed after deduplication iff it was listed before.
  lemma DedupKeepsGrantees(results: seq<Grant>, name: string, t: GranteeType)
    ensures (exists g :: g in results && g.grantee == name && g.granteeType == t)
       <==> (exists g :: g in Unique(results, ROW_KEY) && g.grantee == name && g.granteeType == t)
  {
    UniqueKeeps(results, ROW_KEY);
    var u := Unique(results, ROW_KEY);
    if g :| g in results && g.grantee == name && g.granteeType == t {
      var i :| 0 <= i < |results| && results[i] == g;
      assert ROW_KEY(g) in Keys(results, ROW_KEY);
      var j :| 0 <= j < |u| && ROW_KEY(u[j]) == ROW_KEY(g);
      assert u[j] in u;
    }
  }
}
