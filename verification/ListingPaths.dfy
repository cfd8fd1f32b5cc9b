/** What unquoted paths and names outside the catalogs read as. */
module ListingPaths {
  import opened Text
  import opened GrantTypes
  import opened GrantParser
  import opened GrantScanFacts
  import opened GrantRoundTrip
  import opened GrantReadsBack
  import opened ListingTargets

  // ---------------------------------------------------------------------------
  // Unquoted paths

  predicate PathChar(c: char) {
    IsWord(c) || c == '*'
  }

  // A part of an unquoted path: a name, or a star.
  predicate PathPart(x: string) {
    x != "" && forall i :: 0 <= i < |x| ==> PathChar(x[i])
  }

  predicate BarePathText(path: string) {
    path != "" && forall i :: 0 <= i < |path| ==> PathChar(path[i]) || path[i] == '.'
  }

  lemma {:induction false} PathTaken(path: string)
    requires forall i :: 0 <= i < |path| ==> PathChar(path[i]) || path[i] == '.'
    ensures TakePath(path) == path
  {
    if path != "" {
      PathTaken(path[1..]);
    }
  }

  lemma PathPlain(path: string)
    requires BarePathText(path)
    ensures Erase(Strip(path), '`') == path && Solid(path)
  {
    StripTrimmed(path);
    EraseAbsent(path, '`');
  }

  lemma BareTypeAndPath(t: string, path: string)
    requires WordText(t) && BarePathText(path)
    ensures TypeAndPath(t + " " + path) == Some((t, path))
  {
    var behind := " " + path;
    assert t + " " + path == t + behind;
    WordTaken(t, behind);
    PathPlain(path);
    assert behind[1..] == path;
    assert LStrip(behind) == path;
    PathRead(t + behind, t, behind, path);
  }

  lemma PathRead(on: string, t: string, behind: string, path: string)
    requires t != "" && TakeWord(on) == t && |t| <= |on| && on[|t|..] == behind
    requires StartsWithSpace(behind) && LStrip(behind) == path && BarePathText(path)
    ensures TypeAndPath(on) == Some((t, path))
  {
    assert path[0] != '`';
    assert QuotedPath(path).None?;
    PathTaken(path);
  }

  lemma BareClause(t: string, path: string)
    requires t in QUOTED_TYPES && BarePathText(path)
    ensures ParseOnClause(t + " " + path) == OnClause(t, path, None)
  {
    var on := t + " " + path;
    TypeWord(t);
    assert on[0] == t[0];
    NoAll(on);
    NoLeading(on);
    BareTypeAndPath(t, path);
    PathPlain(path);
  }

  lemma BareFunction(t: string, path: string)
    requires t == "FUNCTION" && BarePathText(path)
    ensures ParseOnClause(t + " " + path) == OnClause(t, path, None)
  {
    var on := t + " " + path;
    FunctionWord(t);
    assert on[0] == t[0] && on[..2] == t[..2];
    NoAll(on);
    FunctionLeads(on);
    BareTypeAndPath(t, path);
    PathPlain(path);
  }

  lemma BareMaterialized(t: string, path: string)
    requires t == "MATERIALIZED VIEW" && BarePathText(path)
    ensures ParseOnClause(t + " " + path) == OnClause(t, path, None)
  {
    PathPlain(path);
    MaterializedClause(t, path);
    StripTrimmed(path);
  }

  const PATH_TYPES: set<string> := {"TABLE", "VIEW", "MATERIALIZED VIEW", "FUNCTION", "DATABASE", "CATALOG"}

  lemma PathTarget(t: string, path: string)
    requires t in PATH_TYPES && BarePathText(path)
    ensures ParseTarget(t + " " + path) ==
            Target(t, ApplyScopeOverrides(t, path, SplitObjectPath(t, path), None))
  {
    if t == "FUNCTION" {
      BareFunction(t, path);
      NormalFunction(t);
    } else if t == "MATERIALIZED VIEW" {
      BareMaterialized(t, path);
      NormalMaterializedView(t);
    } else {
      BareClause(t, path);
      QuotedNormal(t);
    }
  }

  lemma QuotedNormal(t: string)
    requires t in QUOTED_TYPES
    ensures NormalizeObjectType(t) == t
  {
    if t == "TABLE" {
      NormalTable(t);
    } else if t == "VIEW" {
      NormalView(t);
    } else if t == "DATABASE" {
      NormalDatabase(t);
    } else {
      NormalCatalog(t);
    }
  }

  lemma NoDot(x: string)
    requires PathPart(x)
    ensures '.' !in x && Split(x, '.') == [x] && BarePathText(x)
  {
    BeforeAll(x, '.');
  }

  lemma TwoParts(a: string, b: string)
    requires PathPart(a) && PathPart(b)
    ensures Split(a + "." + b, '.') == [a, b] && BarePathText(a + "." + b)
  {
    NoDot(a);
    NoDot(b);
    assert a + "." + b == a + ['.'] + b;
    SplitAt(a, '.', b);
  }

  lemma ThreeNames(a: string, b: string, c: string)
    requires PathPart(a) && PathPart(b) && PathPart(c)
    ensures Split(a + "." + b + "." + c, '.') == [a, b, c] && BarePathText(a + "." + b + "." + c)
  {
    var more := b + "." + c;
    NoDot(a);
    TwoParts(b, c);
    ThreeText(a, b, c);
    SplitAt(a, '.', more);
    DottedBare(a, more);
  }

  lemma ThreeText(a: string, b: string, c: string)
    ensures a + "." + b + "." + c == a + ['.'] + (b + "." + c)
  {
  }

  lemma DottedBare(a: string, more: string)
    requires BarePathText(a) && BarePathText(more)
    ensures BarePathText(a + ['.'] + more)
  {
  }

  // Nothing for a star.
  function NoStar(x: string): Option<string> {
    if x == "*" then None else Some(x)
  }

  lemma OneAt(t: string, x: string)
    requires t in {"DATABASE", "CATALOG"} && x != "" && Split(x, '.') == [x]
    ensures ApplyScopeOverrides(t, x, SplitObjectPath(t, x), None) ==
            if t == "DATABASE" then Coordinates(None, NoStar(x), None) else Coordinates(NoStar(x), None, None)
  {
    assert SplitObjectPath(t, x) == Coordinates(NoStar(x), None, None);
  }

  // A single name is a database or a catalog, as the type says.
  lemma OneTarget(t: string, x: string)
    requires t in {"DATABASE", "CATALOG"} && PathPart(x)
    ensures ParseTarget(t + " " + x) ==
            Target(t, if t == "DATABASE" then Coordinates(None, NoStar(x), None)
                      else Coordinates(NoStar(x), None, None))
  {
    NoDot(x);
    PathTarget(t, x);
    OneAt(t, x);
  }

  // Two names are a database and an object in it; a star counts as a name there.
  lemma TwoTarget(t: string, a: string, b: string)
    requires t in LISTED_TYPES && PathPart(a) && PathPart(b)
    ensures ParseTarget(t + " " + (a + "." + b)) == Target(t, Coordinates(None, Some(a), Some(b)))
  {
    TwoParts(a, b);
    PathTarget(t, a + "." + b);
  }

  // What the two names come to.
  function ScopePair(a: string, b: string): Coordinates {
    if b == "*" then Coordinates(None, Some(a), None) else Coordinates(Some(a), Some(b), None)
  }

  lemma ScopePairAt(t: string, path: string, a: string, b: string)
    requires t == "DATABASE" && path != "" && a != "" && b != "" && Split(path, '.') == [a, b]
    ensures ApplyScopeOverrides(t, path, SplitObjectPath(t, path), None) == ScopePair(a, b)
  {
    assert SplitObjectPath(t, path) == Coordinates(Some(a), NoStar(b), None);
  }

  // Two names are a catalog and a database in it; with a star behind it the first name is
  // taken for the database.
  lemma ScopePairTarget(t: string, a: string, b: string)
    requires t == "DATABASE" && PathPart(a) && PathPart(b)
    ensures ParseTarget(t + " " + (a + "." + b)) == Target(t, ScopePair(a, b))
  {
    var path := a + "." + b;
    TwoParts(a, b);
    PathTarget(t, path);
    ScopePairAt(t, path, a, b);
  }

  lemma ThreeAt(t: string, path: string, a: string, b: string, c: string)
    requires t in LISTED_TYPES && path != "" && Split(path, '.') == [a, b, c]
    ensures ApplyScopeOverrides(t, path, SplitObjectPath(t, path), None) == Coordinates(NoStar(a), NoStar(b), NoStar(c))
  {
    assert SplitObjectPath(t, path) == Coordinates(NoStar(a), NoStar(b), NoStar(c));
  }

  // Three names are a catalog, a database and an object; a star stands for all.
  lemma ThreeTarget(t: string, a: string, b: string, c: string)
    requires t in LISTED_TYPES && PathPart(a) && PathPart(b) && PathPart(c)
    ensures ParseTarget(t + " " + (a + "." + b + "." + c)) == Target(t, Coordinates(NoStar(a), NoStar(b), NoStar(c)))
  {
    var path := a + "." + b + "." + c;
    ThreeNames(a, b, c);
    PathTarget(t, path);
    ThreeAt(t, path, a, b, c);
  }

  // ---------------------------------------------------------------------------
  // Outside the catalogs

  const OUTSIDE_KINDS: set<string> := {"STORAGE VOLUME", "GLOBAL FUNCTION", "RESOURCE GROUP"}

  function KindIndex(t: string): nat {
    if t == "STORAGE VOLUME" then 0 else if t == "GLOBAL FUNCTION" then 1 else 2
  }

  lemma KindUpper(t: string)
    requires t in OUTSIDE_KINDS
    ensures Upper(t) == t && t[0] in {'S', 'G', 'R'} && MULTI_WORD_TYPES[KindIndex(t)] == t
  {
    assert forall c :: c in t ==> 'A' <= c <= 'Z' || c == ' ';
    assert forall i :: 0 <= i < |t| ==> t[i] in t;
  }

  lemma KindLeads(t: string, on: string)
    requires t in OUTSIDE_KINDS && t <= on
    ensures LeadingType(on, MULTI_WORD_TYPES) == Some(t)
  {
    KindUpper(t);
    var i := KindIndex(t);
    assert on[0] == t[0] && on[..|t|] == t;
    forall k | 0 <= k < i ensures !StartsCI(on, MULTI_WORD_TYPES[k]) {
      OtherLetter(on, MULTI_WORD_TYPES[k]);
    }
    LeadingFrom(on, MULTI_WORD_TYPES, i);
    assert MULTI_WORD_TYPES[i..][0] == t;
  }

  lemma KindClause(t: string, behind: string)
    requires t in OUTSIDE_KINDS
    ensures ParseOnClause(t + behind) == OnClause(t, Erase(Strip(behind), '`'), None)
  {
    var on := t + behind;
    KindUpper(t);
    assert on[0] == t[0] && on[|t|..] == behind;
    NoAll(on);
    KindLeads(t, on);
  }

  lemma KindNormal(t: string)
    requires t in OUTSIDE_KINDS
    ensures NormalizeObjectType(t) == t && t in NAMED_SYSTEM_TYPES && t in NON_CATALOG_TYPES && t != "DATABASE"
  {
    if t == "STORAGE VOLUME" {
      StorageVolume(t);
    } else if t == "GLOBAL FUNCTION" {
      GlobalFunction(t);
    } else {
      ResourceGroup(t);
    }
  }

  lemma StorageVolume(t: string)
    requires t == "STORAGE VOLUME"
    ensures NormalizeObjectType(t) == t
  {
    assert 'I' in "GLOBAL FUNCTION" && 'I' in "MASKING" && 'I' !in t;
    assert 'C' in "ROW ACCESS" && 'C' !in t;
    NormalAt(t, 2);
  }

  lemma GlobalFunction(t: string)
    requires t == "GLOBAL FUNCTION"
    ensures NormalizeObjectType(t) == t
  {
    assert 'K' in "MASKING" && 'K' !in t;
    assert 'R' in "ROW ACCESS" && 'R' !in t;
    NormalAt(t, 1);
  }

  lemma ResourceGroup(t: string)
    requires t == "RESOURCE GROUP"
    ensures NormalizeObjectType(t) == t
  {
    assert 'B' in "GLOBAL FUNCTION" && 'B' !in t;
    assert 'T' in "STORAGE VOLUME" && 'T' !in t;
    assert 'K' in "MASKING" && 'K' !in t;
    assert 'A' in "ROW ACCESS" && 'A' !in t;
    NormalAt(t, 3);
  }

  lemma KindAt(t: string, x: string)
    requires t in NAMED_SYSTEM_TYPES && t != "DATABASE" && x != "" && Split(x, '.') == [x]
    ensures ApplyScopeOverrides(t, x, SplitObjectPath(t, x), None) == Coordinates(None, None, NoStar(x))
  {
    assert SplitObjectPath(t, x) == Coordinates(NoStar(x), None, None);
  }

  lemma ResolvesTo(t: string, path: string, at: Coordinates)
    requires NormalizeObjectType(t) == t
    requires ApplyScopeOverrides(t, path, SplitObjectPath(t, path), None) == at
    ensures Resolve(OnClause(t, path, None)) == Target(t, at)
  {
  }

  lemma KindPath(t: string, x: string)
    requires t in OUTSIDE_KINDS && Solid(x) && '`' !in x
    ensures ParseOnClause(t + " " + x) == OnClause(t, x, None)
  {
    KindClause(t, " " + x);
    assert t + " " + x == t + (" " + x);
    BlankBefore(x);
    EraseAbsent(x, '`');
  }

  // An object outside the catalogs has its name and nothing else.
  lemma KindTarget(t: string, x: string)
    requires t in OUTSIDE_KINDS && Solid(x) && '`' !in x && '.' !in x
    ensures ParseTarget(t + " " + x) == Target(t, Coordinates(None, None, NoStar(x)))
  {
    KindPath(t, x);
    KindNormal(t);
    BeforeAll(x, '.');
    KindAt(t, x);
    ResolvesTo(t, x, Coordinates(None, None, NoStar(x)));
  }

  lemma BlankBefore(x: string)
    requires Solid(x)
    ensures Strip(" " + x) == x
  {
    assert (" " + x)[1..] == x;
    assert LStrip(" " + x) == x;
    StripTrimmed(x);
  }

  lemma KindAlone(t: string)
    requires t in OUTSIDE_KINDS
    ensures ParseTarget(t).at.name == None
  {
    KindClause(t, "");
    assert t + "" == t;
    KindNormal(t);
  }

  lemma SystemTarget(t: string)
    requires t == "SYSTEM"
    ensures ParseTarget(t) == Target(t, Coordinates(None, None, None))
  {
    NoAll(t);
    SystemLeads(t);
    SystemWord(t);
    assert ParseOnClause(t) == OnClause(t, "", None);
    SystemNormal(t);
    NoPath(t);
  }

  lemma SystemLeads(t: string)
    requires t == "SYSTEM"
    ensures LeadingType(t, MULTI_WORD_TYPES).None?
  {
    forall k | 0 <= k < |MULTI_WORD_TYPES| ensures !StartsCI(t, MULTI_WORD_TYPES[k]) {
      assert |MULTI_WORD_TYPES[k]| > |t|;
    }
    LeadingFrom(t, MULTI_WORD_TYPES, |MULTI_WORD_TYPES|);
  }

  lemma SystemWord(t: string)
    requires t == "SYSTEM"
    ensures Upper(t) == t && TypeAndPath(t).None?
  {
    assert forall c :: c in t ==> 'A' <= c <= 'Z';
    CapitalsStay(t);
    WordTaken(t, "");
    assert t + "" == t;
  }

  lemma SystemNormal(t: string)
    requires t == "SYSTEM"
    ensures NormalizeObjectType(t) == t
  {
    forall k | 0 <= k < |TYPE_MAP| ensures !Contains(t, TYPE_MAP[k].0) {
      SystemMisses(t, k);
      MissesContains(t, TYPE_MAP[k].0);
    }
    NoKeyword(t, TYPE_MAP);
    assert 'K' in "MASKING" && 'K' !in t;
    MissesContains(t, "MASKING");
    MissesContains(t, "ROW ACCESS");
  }

  lemma SystemMisses(t: string, k: nat)
    requires t == "SYSTEM" && k < |TYPE_MAP|
    ensures Misses(t, TYPE_MAP[k].0)
  {
    assert 'A' in "TABLE" && 'A' !in t;
    assert 'V' in "VIEW" && 'V' !in t;
    assert 'U' in "USER" && 'U' !in t;
  }

  lemma {:induction false} NoKeyword(t: string, entries: seq<(string, string)>)
    requires forall k :: 0 <= k < |entries| ==> !Contains(t, entries[k].0)
    ensures FirstKeyword(t, entries) == t
  {
    if entries != [] {
      NoKeyword(t, entries[1..]);
    }
  }

  // ---------------------------------------------------------------------------
  // Types by the words they contain

  predicate StandsAt(s: string, k: string, i: int) {
    0 <= i <= |s| - |k| && s[i..i + |k|] == k
  }

  // k stands somewhere in s.
  lemma {:induction false} ContainsExact(s: string, k: string)
    ensures Contains(s, k) <==> exists i :: StandsAt(s, k, i)
  {
    if |k| <= |s| && s[..|k|] == k {
      assert StandsAt(s, k, 0);
    } else if |k| <= |s| && s != "" {
      ContainsExact(s[1..], k);
      assert s[0..0 + |k|] == s[..|k|];
      if i :| StandsAt(s[1..], k, i) {
        assert s[i + 1..i + 1 + |k|] == s[1..][i..i + |k|];
        assert StandsAt(s, k, i + 1);
      }
      if i :| StandsAt(s, k, i) {
        assert s[i..i + |k|] == s[1..][i - 1..i - 1 + |k|];
        assert StandsAt(s[1..], k, i - 1);
      }
    }
  }

  // A type that contains no known one, but masking or row access, is a policy.
  lemma PolicyNormal(t: string)
    requires forall k :: 0 <= k < |TYPE_MAP| ==> !Contains(t, TYPE_MAP[k].0)
    ensures NormalizeObjectType(t) == if Contains(t, "MASKING") || Contains(t, "ROW ACCESS") then "POLICY" else t
  {
    NoKeyword(t, TYPE_MAP);
  }

  // The other known types are their own normal form.
  lemma OtherTypes(t: string)
    requires t in {"WAREHOUSE", "RESOURCE", "USER", "FAILOVER GROUP"}
    ensures NormalizeObjectType(t) == t
  {
    if t == "WAREHOUSE" {
      Warehouse(t);
    } else if t == "RESOURCE" {
      Resource(t);
    } else if t == "USER" {
      assert 'V' in "VIEW" && 'V' !in t;
      NormalAt(t, 12);
    } else {
      FailoverGroup(t);
    }
  }

  lemma Warehouse(t: string)
    requires t == "WAREHOUSE"
    ensures NormalizeObjectType(t) == t
  {
    assert 'T' in "TABLE" && 'T' in "DATABASE" && 'T' in "FUNCTION" && 'T' in "CATALOG" && 'T' !in t;
    assert 'V' in "VIEW" && 'V' !in t;
    assert 'C' in "RESOURCE" && 'C' in "ROW ACCESS" && 'C' !in t;
    assert 'K' in "MASKING" && 'K' !in t;
    NormalAt(t, 11);
  }

  lemma Resource(t: string)
    requires t == "RESOURCE"
    ensures NormalizeObjectType(t) == t
  {
    assert 'T' in "TABLE" && 'T' in "DATABASE" && 'T' in "FUNCTION" && 'T' in "CATALOG" && 'T' !in t;
    assert 'V' in "VIEW" && 'V' !in t;
    assert 'K' in "MASKING" && 'K' !in t;
    NormalAt(t, 10);
  }

  lemma FailoverGroup(t: string)
    requires t == "FAILOVER GROUP"
    ensures NormalizeObjectType(t) == t
  {
    assert 'S' in "STORAGE VOLUME" && 'S' in "RESOURCE GROUP" && 'S' in "MASKING" && 'S' in "ROW ACCESS" && 'S' !in t;
    NormalAt(t, 4);
  }
}
