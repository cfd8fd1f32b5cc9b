/**
  Which grants bear on a query, said by kinds of objects and rights instead of by the order
  of the branches of the classifier.
 */
module RelevanceLaws {
  import opened Text
  import opened GrantTypes
  import opened GrantClassifier

  // ---------------------------------------------------------------------------
  // Types

  const CONTENTS: set<string> := {"TABLE", "VIEW", "MATERIALIZED VIEW", "MV", "FUNCTION"}

  // Objects of type t are such objects, or lie in them.
  predicate Encloses(o: string, t: string) {
    || o == t
    || (o == "MATERIALIZED VIEW" && t == "MV")
    || (o in {"DATABASE", "CATALOG"} && t in CONTENTS)
    || (o == "CATALOG" && t == "DATABASE")
  }

  // The types that say which other types lie in them.
  predicate CatalogType(o: string) {
    o in {"TABLE", "VIEW", "MATERIALIZED VIEW", "FUNCTION", "DATABASE", "CATALOG"}
  }

  lemma ClashExact(o: string, q: ObjectQuery)
    ensures TypeClash(o, q) <==> CatalogType(o) && !Encloses(o, q.TypeUpper())
  {
  }

  // The types of the children that owe a USAGE to a queried database or catalog.
  lemma ChildrenExact(q: ObjectQuery, t: string)
    ensures t in q.ChildTypes() <==>
            && q.TypeUpper() in {"DATABASE", "CATALOG"} && t != q.TypeUpper() && t != "MV"
            && Encloses(q.TypeUpper(), t)
  {
  }

  // ---------------------------------------------------------------------------
  // Rights to create

  // The right to create objects of type t, held on the system.
  predicate CreatesOnSystem(priv: string, t: string) {
    || (t in {"RESOURCE GROUP", "RESOURCE", "STORAGE VOLUME", "WAREHOUSE", "GLOBAL FUNCTION"} && priv == "CREATE " + t)
    || (t == "CATALOG" && priv == "CREATE EXTERNAL CATALOG")
  }

  // The right to create objects of type t, held on a database.
  predicate CreatesInDatabase(priv: string, t: string) {
    t in {"TABLE", "VIEW", "MATERIALIZED VIEW", "FUNCTION", "PIPE"} && priv == "CREATE " + t
  }

  lemma SystemWords()
    ensures "CREATE " + "RESOURCE GROUP" == "CREATE RESOURCE GROUP"
    ensures "CREATE " + "RESOURCE" == "CREATE RESOURCE"
    ensures "CREATE " + "STORAGE VOLUME" == "CREATE STORAGE VOLUME"
    ensures "CREATE " + "WAREHOUSE" == "CREATE WAREHOUSE"
    ensures "CREATE " + "GLOBAL FUNCTION" == "CREATE GLOBAL FUNCTION"
  {
  }

  lemma DatabaseWords()
    ensures "CREATE " + "TABLE" == "CREATE TABLE"
    ensures "CREATE " + "VIEW" == "CREATE VIEW"
    ensures "CREATE " + "MATERIALIZED VIEW" == "CREATE MATERIALIZED VIEW"
    ensures "CREATE " + "FUNCTION" == "CREATE FUNCTION"
    ensures "CREATE " + "PIPE" == "CREATE PIPE"
  {
  }

  lemma SystemCreateExact(priv: string, q: ObjectQuery)
    ensures SystemCreateHit(priv, q) <==> CreatesOnSystem(priv, q.TypeUpper())
  {
    SystemWords();
  }

  lemma CreateExact(priv: string, t: string)
    ensures priv in DB_ONLY_PRIVS && priv in CREATE_TYPE_MAP && CREATE_TYPE_MAP[priv] == t <==>
            CreatesInDatabase(priv, t)
  {
    DatabaseWords();
  }

  // ---------------------------------------------------------------------------
  // Names

  // name is base, possibly with a parameter list.
  ghost predicate BaseOf(base: string, name: string) {
    '(' !in base && (name == base || (base < name && name[|base|] == '('))
  }

  // The two names agree in front of a parameter list.
  ghost predicate SameBase(a: string, b: string) {
    exists base :: BaseOf(base, a) && BaseOf(base, b)
  }

  lemma BaseIs(base: string, name: string)
    requires BaseOf(base, name)
    ensures NormalizeFnName(name) == base
  {
    if name == base {
      BeforeAll(name, '(');
    } else {
      assert name == base + ['('] + name[|base| + 1..];
      BeforeStops(base, '(', name[|base| + 1..]);
    }
  }

  lemma SameBaseExact(a: string, b: string)
    ensures SameBase(a, b) <==> NormalizeFnName(a) == NormalizeFnName(b)
  {
    if NormalizeFnName(a) == NormalizeFnName(b) {
      assert BaseOf(NormalizeFnName(a), a) && BaseOf(NormalizeFnName(b), b);
    }
    if base :| BaseOf(base, a) && BaseOf(base, b) {
      BaseIs(base, a);
      BaseIs(base, b);
    }
  }

  // ---------------------------------------------------------------------------
  // The laws

  // When one of the two sides is the system, both must be; the right to create objects of
  // the queried type is the exception.
  lemma SystemLaw(g: Grant, q: ObjectQuery)
    requires Upper(g.objectType) == "SYSTEM" || q.TypeUpper() == "SYSTEM"
    requires !CreatesOnSystem(Upper(g.privilege), q.TypeUpper())
    ensures Classify(g, q) != IRRELEVANT <==> Upper(g.objectType) == "SYSTEM" && q.TypeUpper() == "SYSTEM"
    ensures Classify(g, q) in {EXACT, IRRELEVANT}
  {
    SystemCreateExact(Upper(g.privilege), q);
  }

  // The right to create objects of the queried type, whatever it is held on.
  lemma SystemCreateLaw(g: Grant, q: ObjectQuery)
    requires CreatesOnSystem(Upper(g.privilege), q.TypeUpper())
    ensures Classify(g, q) == PARENT_SCOPE
  {
    SystemCreateExact(Upper(g.privilege), q);
  }

  // A right of the system matters for nothing else.
  lemma SystemRightLaw(g: Grant, q: ObjectQuery)
    requires Upper(g.privilege) in SYSTEM_ONLY_PRIVS && q.TypeUpper() != "SYSTEM"
    ensures Classify(g, q) != IRRELEVANT <==> CreatesOnSystem(Upper(g.privilege), q.TypeUpper())
  {
    SystemCreateExact(Upper(g.privilege), q);
  }

  // A grant on something outside the catalogs.
  predicate OutsideGrant(g: Grant, q: ObjectQuery) {
    && q.TypeUpper() != "SYSTEM" && Upper(g.objectType) != "SYSTEM"
    && Upper(g.objectType) in NON_OBJECT_TYPES && Upper(g.privilege) !in SYSTEM_ONLY_PRIVS
  }

  // It is relevant for the same type only, and for the same name where both sides give
  // one; it is exact when it names its object or no name is asked for.
  lemma OutsideLaw(g: Grant, q: ObjectQuery)
    requires OutsideGrant(g, q)
    ensures Classify(g, q) != IRRELEVANT <==>
            && Upper(g.objectType) == q.TypeUpper()
            && (Given(g.name) && Given(q.name) ==> SameBase(g.name.value, q.name.value))
    ensures Classify(g, q) == EXACT <==> Classify(g, q) != IRRELEVANT && (Given(g.name) || !Given(q.name))
    ensures Classify(g, q) != IMPLICIT_USAGE
  {
    assert SYSTEM_CREATE_MAP.Keys <= SYSTEM_ONLY_PRIVS;
    if Given(g.name) && Given(q.name) {
      SameBaseExact(g.name.value, q.name.value);
    }
  }

  // No coordinate is given differently on the two sides.
  predicate Compatible(g: Grant, q: ObjectQuery) {
    && (Given(g.catalog) && Given(q.catalog) ==> g.catalog.value == q.catalog.value)
    && (Given(g.database) && Given(q.database) ==> g.database.value == q.database.value)
    && (Given(g.name) && Given(q.name) ==> g.name.value == q.name.value)
  }

  // A grant on catalog objects, other than a right of the system.
  predicate CatalogGrant(g: Grant, q: ObjectQuery) {
    && q.TypeUpper() != "SYSTEM" && Upper(g.objectType) !in NON_OBJECT_TYPES
    && Upper(g.privilege) !in SYSTEM_ONLY_PRIVS
  }

  // A right on a database that a named object can only have got from its database.
  predicate DatabaseRight(g: Grant, q: ObjectQuery) {
    Given(q.name) && Upper(g.objectType) == "DATABASE" && Upper(g.privilege) in DB_ONLY_PRIVS
  }

  // A grant on something in the database or catalog that is queried as such.
  predicate ChildGrant(g: Grant, q: ObjectQuery) {
    && !Given(q.name) && q.TypeUpper() in {"DATABASE", "CATALOG"}
    && Upper(g.objectType) != q.TypeUpper() && Upper(g.objectType) != "MV"
    && Encloses(q.TypeUpper(), Upper(g.objectType))
  }

  // The grant says of which type its objects are, by naming one or by naming nothing at
  // all, or the query names its object.
  predicate TypeMatters(g: Grant, q: ObjectQuery) {
    Given(q.name) || Given(g.name) || (!Given(g.catalog) && !Given(g.database))
  }

  predicate TypesFit(g: Grant, q: ObjectQuery) {
    q.TypeUpper() == "" || !CatalogType(Upper(g.objectType)) || Encloses(Upper(g.objectType), q.TypeUpper())
  }

  // A right on databases is relevant for a named object when it is the right to create
  // it. Any other grant is relevant when it is compatible with the query and, unless it is
  // on a child of the queried scope, the types fit where they matter.
  lemma CatalogLaw(g: Grant, q: ObjectQuery)
    requires CatalogGrant(g, q)
    ensures Classify(g, q) != IRRELEVANT <==>
            if DatabaseRight(g, q) then CreatesInDatabase(Upper(g.privilege), q.TypeUpper())
            else Compatible(g, q) && (ChildGrant(g, q) || TypesFit(g, q) || !TypeMatters(g, q))
    ensures Classify(g, q) == IMPLICIT_USAGE <==> Compatible(g, q) && ChildGrant(g, q)
    ensures Classify(g, q) == EXACT <==>
            Classify(g, q) != IRRELEVANT && Given(g.name) && !ChildGrant(g, q) && !DatabaseRight(g, q)
  {
    assert SYSTEM_CREATE_MAP.Keys <= SYSTEM_ONLY_PRIVS;
    ClashExact(Upper(g.objectType), q);
    ChildrenExact(q, Upper(g.objectType));
    CreateExact(Upper(g.privilege), q.TypeUpper());
  }
}
