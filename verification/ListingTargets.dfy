/** What the target texts of listed statements read as. */
module ListingTargets {
  import opened Text
  import opened GrantTypes
  import opened GrantParser
  import opened GrantScanFacts
  import opened GrantRoundTrip

  // ---------------------------------------------------------------------------
  // Words

  // A text of \w characters.
  predicate WordText(w: string) {
    w != "" && forall c :: c in w ==> IsWord(c)
  }

  lemma WordTaken(w: string, after: string)
    requires WordText(w) && (after == "" || after[0] == ' ')
    ensures TakeWord(w + after) == w && (w + after)[|w|..] == after
  {
    TakeWordStops(w, after);
  }

  lemma WordSolid(w: string)
    requires WordText(w)
    ensures Solid(w)
  {
    assert forall i :: 0 <= i < |w| ==> w[i] in w;
  }

  // ---------------------------------------------------------------------------
  // ALL ...

  const LISTED_TYPES: set<string> := {"TABLE", "VIEW", "MATERIALIZED VIEW", "FUNCTION"}

  // A word, a blank and more behind it.
  lemma WordThen(s: string, w: string, next: string)
    requires s == w + " " + next && Upper(w) == w && next != "" && !IsSpace(next[0])
    ensures StartsCI(s, w) && StartsWithSpace(s[|w|..]) && LStrip(s[|w|..]) == next
  {
    assert s[..|w|] == w && s[|w|..] == " " + next;
    assert (" " + next)[1..] == next;
  }

  // `IN` and the scope behind it.
  lemma ScopeHead(s: string, scope: string)
    requires s == " IN " + scope && scope != "" && !IsSpace(scope[0])
    ensures StartsWithSpace(s) && StartsCI(LStrip(s), "IN")
    ensures StartsWithSpace(LStrip(s)[2..]) && LStrip(LStrip(s)[2..]) == scope
  {
    var w := "IN";
    var t := w + " " + scope;
    assert s[1..] == t && t[0] == 'I';
    assert LStrip(s) == t;
    assert Upper(w) == w;
    WordThen(t, w, scope);
  }

  lemma InDatabaseClause(db: string)
    requires Solid(db)
    ensures ScopeClause(" IN DATABASE " + db) == Some(Some(db))
  {
    var w := "DATABASE";
    var scope := w + " " + db;
    assert " IN DATABASE " + db == " IN " + scope;
    ScopeHead(" IN DATABASE " + db, scope);
    assert Upper(w) == w;
    OtherLetter(scope, "ALL");
    WordThen(scope, w, db);
    SolidTaken(db, "");
    assert db + "" == db;
  }

  lemma AllDatabasesClause()
    ensures ScopeClause(" IN ALL DATABASES") == Some(None)
  {
    assert " IN ALL DATABASES" == " IN " + ("ALL" + " " + "DATABASES");
    AllClause(" IN ALL DATABASES", "ALL" + " " + "DATABASES", "ALL", "DATABASES");
  }

  lemma AllClause(s: string, scope: string, w: string, more: string)
    requires s == " IN " + scope && scope == w + " " + more && w == "ALL" && more == "DATABASES"
    ensures ScopeClause(s) == Some(None)
  {
    ScopeHead(s, scope);
    CapitalsStay(w);
    CapitalsStay(more);
    assert more[..9] == more;
    WordThen(scope, w, more);
  }

  lemma CapitalsStay(w: string)
    requires forall c :: c in w ==> 'A' <= c <= 'Z'
    ensures Upper(w) == w
  {
    assert forall i :: 0 <= i < |w| ==> w[i] in w;
  }

  // `IN DATABASE` without a name behind it is no scope.
  lemma NoNameClause()
    ensures ScopeClause(" IN DATABASE").None?
  {
    var scope := "DATABASE";
    assert " IN DATABASE" == " IN " + scope;
    ScopeHead(" IN DATABASE", scope);
    OtherLetter(scope, "ALL");
    assert scope[8..] == "";
  }

  // A word without a scope in front of it is taken into the type.
  lemma WordInScope(taken: string, w: string, after: string)
    requires WordText(w) && (after == "" || after[0] == ' ')
    requires ScopeClause(" " + w + after).None?
    ensures TypeInScope(taken, " " + w + after) == TypeInScope(taken + " " + w, after)
  {
    var s, t := " " + w + after, w + after;
    WordTaken(w, after);
    BlankWord(w, after);
    TakenOn(taken, s, t, w, after);
  }

  lemma BlankWord(w: string, after: string)
    requires WordText(w)
    ensures var s, t := " " + w + after, w + after;
            StartsWithSpace(s) && LStrip(s) == t && s[..|s| - |t|] == " "
  {
    var s, t := " " + w + after, w + after;
    WordSolid(w);
    assert s[1..] == t && t[0] == w[0];
  }

  lemma TakenOn(taken: string, s: string, t: string, w: string, after: string)
    requires ScopeClause(s).None? && StartsWithSpace(s) && LStrip(s) == t && s[..|s| - |t|] == " "
    requires w != "" && TakeWord(t) == w && t[|w|..] == after
    ensures TypeInScope(taken, s) == TypeInScope(taken + " " + w, after)
  {
  }

  lemma NoScopeWord(w: string, after: string)
    requires WordText(w) && UpperChar(w[0]) != 'I'
    ensures ScopeClause(" " + w + after).None?
  {
    var s, t := " " + w + after, w + after;
    WordSolid(w);
    assert s[1..] == t && t[0] == w[0];
    assert LStrip(s) == t;
    OtherLetter(t, "IN");
  }

  // ALL and a first word.
  lemma AllWord(w: string, after: string)
    requires WordText(w) && (after == "" || after[0] == ' ')
    ensures var on := "ALL " + w + after;
            && StartsCI(on, "ALL") && StartsWithSpace(on[3..])
            && TakeWord(LStrip(on[3..])) == w && LStrip(on[3..])[|w|..] == after
  {
    var t := w + after;
    WordTaken(w, after);
    WordSolid(w);
    assert t[0] == w[0];
    AllJoined(w, after);
    AllThen("ALL " + w + after, "ALL", t);
  }

  lemma AllJoined(w: string, after: string)
    ensures "ALL " + w + after == "ALL" + " " + (w + after)
  {
  }

  lemma AllThen(on: string, all: string, t: string)
    requires all == "ALL" && on == all + " " + t && t != "" && !IsSpace(t[0])
    ensures StartsCI(on, "ALL") && StartsWithSpace(on[3..]) && LStrip(on[3..]) == t
  {
    CapitalsStay(all);
    WordThen(on, all, t);
  }

  lemma CapitalText(w: string)
    requires w in {"TABLES", "VIEWS", "FUNCTIONS", "MATERIALIZED", "DATABASES", "DATABASE", "IN"}
    ensures WordText(w)
  {
    assert forall c :: c in w ==> 'A' <= c <= 'Z';
  }

  lemma PluralWords()
    ensures WordText("TABLES") && WordText("VIEWS") && WordText("FUNCTIONS") && WordText("MATERIALIZED")
    ensures WordText("DATABASES") && WordText("DATABASE") && WordText("IN")
  {
    CapitalText("TABLES");
    CapitalText("VIEWS");
    CapitalText("FUNCTIONS");
    CapitalText("MATERIALIZED");
    CapitalText("DATABASES");
    CapitalText("DATABASE");
    CapitalText("IN");
  }

  lemma OneWordScoped(w: string, after: string)
    requires WordText(w) && (after == "" || after[0] == ' ')
    ensures AllInDatabase("ALL " + w + after) == TypeInScope(w, after)
  {
    AllWord(w, after);
  }

  lemma TwoWordsScoped(w: string, v: string, after: string)
    requires WordText(w) && WordText(v) && UpperChar(v[0]) != 'I' && (after == "" || after[0] == ' ')
    ensures AllInDatabase("ALL " + w + " " + v + after) == TypeInScope(w + " " + v, after)
  {
    var more := " " + v + after;
    assert "ALL " + w + " " + v + after == "ALL " + w + more;
    OneWordScoped(w, more);
    NoScopeWord(v, after);
    WordInScope(w, v, after);
  }

  // Behind ALL and a plural, the scope decides.
  lemma AllScoped(t: string, after: string)
    requires t in LISTED_TYPES && (after == "" || after[0] == ' ')
    ensures AllInDatabase("ALL " + t + "S" + after) == TypeInScope(t + "S", after)
  {
    PluralWords();
    if t == "MATERIALIZED VIEW" {
      var w, v := "MATERIALIZED", "VIEWS";
      assert w + " " + v == t + "S";
      TwoWordsScoped(w, v, after);
      SplitPlural(w, v, t, after);
    } else {
      assert t + "S" == "TABLES" || t + "S" == "VIEWS" || t + "S" == "FUNCTIONS";
      OneWordScoped(t + "S", after);
      assert "ALL " + t + "S" + after == "ALL " + (t + "S") + after;
    }
  }

  lemma SplitPlural(w: string, v: string, t: string, after: string)
    requires w + " " + v == t + "S"
    ensures "ALL " + t + "S" + after == "ALL " + w + " " + v + after
  {
    assert "ALL " + t + "S" + after == "ALL " + (t + "S") + after;
    assert "ALL " + w + " " + v + after == "ALL " + (w + " " + v) + after;
  }

  // ---------------------------------------------------------------------------
  // Types in the plural

  lemma NormalBy(x: string, t: string, i: nat)
    requires i < |TYPE_MAP| && TYPE_MAP[i] == (t, t) && Contains(x, t)
    requires forall k :: 0 <= k < i ==> Misses(x, TYPE_MAP[k].0)
    requires Misses(t, "MASKING") && Misses(t, "ROW ACCESS")
    ensures NormalizeObjectType(x) == t
  {
    forall k | 0 <= k < i ensures !Contains(x, TYPE_MAP[k].0) {
      MissesContains(x, TYPE_MAP[k].0);
    }
    MissesContains(t, "MASKING");
    MissesContains(t, "ROW ACCESS");
    FirstKeywordAt(x, i, 0);
    assert TYPE_MAP[0..] == TYPE_MAP;
  }

  lemma NormalTables(x: string, t: string)
    requires t == "TABLE" && x == "TABLES"
    ensures NormalizeObjectType(x) == t
  {
    assert x[..5] == t;
    NormalBy(x, t, 5);
  }

  lemma NormalViews(x: string, t: string)
    requires t == "VIEW" && x == "VIEWS"
    ensures NormalizeObjectType(x) == t
  {
    assert x[..4] == t;
    assert 'T' in "TABLE" && 'T' !in x;
    NormalBy(x, t, 7);
  }

  lemma NormalMaterializedViews(x: string, t: string)
    requires t == "MATERIALIZED VIEW" && x == "MATERIALIZED VIEWS"
    ensures NormalizeObjectType(x) == t
  {
    assert x[..17] == t;
    assert 'K' in "MASKING" && 'K' !in t;
    assert 'O' in "ROW ACCESS" && 'O' !in t;
    NormalBy(x, t, 0);
  }

  lemma NormalFunctions(x: string, t: string)
    requires t == "FUNCTION" && x == "FUNCTIONS"
    ensures NormalizeObjectType(x) == t
  {
    assert x[..8] == t;
    assert 'A' in "TABLE" && 'A' in "DATABASE" && 'A' !in x;
    assert 'V' in "VIEW" && 'V' !in x;
    assert 'K' in "MASKING" && 'K' !in t;
    NormalBy(x, t, 8);
  }

  lemma PluralNormal(t: string)
    requires t in LISTED_TYPES
    ensures NormalizeObjectType(t + "S") == t
  {
    if t == "TABLE" {
      NormalTables(t + "S", t);
    } else if t == "VIEW" {
      NormalViews(t + "S", t);
    } else if t == "FUNCTION" {
      NormalFunctions(t + "S", t);
    } else {
      NormalMaterializedViews(t + "S", t);
    }
  }

  lemma PluralUpper(t: string)
    requires t in LISTED_TYPES + {"DATABASE"}
    ensures Upper(t + "S") == t + "S" && DropS(t + "S") == t
  {
    NotLower(t);
    assert forall i :: 0 <= i < |t + "S"| ==> UpperChar((t + "S")[i]) == (t + "S")[i];
    DropOne(t);
  }

  lemma NotLower(t: string)
    requires t in LISTED_TYPES + {"DATABASE"}
    ensures t != "" && t[|t| - 1] != 'S' && forall i :: 0 <= i < |t| ==> UpperChar(t[i]) == t[i]
  {
    assert forall c :: c in t ==> 'A' <= c <= 'Z' || c == ' ';
    assert forall i :: 0 <= i < |t| ==> t[i] in t;
  }

  lemma DropOne(t: string)
    requires t != "" && t[|t| - 1] != 'S'
    ensures DropS(t + "S") == t
  {
    assert (t + "S")[..|t|] == t;
    assert DropS(t) == t;
  }

  // ---------------------------------------------------------------------------
  // What the clauses come to

  lemma NoPath(t: string)
    ensures Resolve(OnClause(t, "", None)).at == Coordinates(None, None, None)
  {
  }

  lemma ScopedTarget(t: string, after: string, found: Option<string>)
    requires t in LISTED_TYPES && after != "" && after[0] == ' ' && ScopeClause(after) == Some(found)
    requires found.Some? ==> found.value != "" && '`' !in found.value
    ensures ParseTarget("ALL " + t + "S" + after) == Target(t, Coordinates(None, found, None))
  {
    AllScoped(t, after);
    PluralUpper(t);
    PluralNormal(t);
    if found.Some? {
      EraseAbsent(found.value, '`');
    }
  }

  lemma ScopeNone(taken: string)
    ensures TypeInScope(taken, "").None?
  {
  }

  lemma AllSimpleFound(on: string)
    requires StartsCI(on, "ALL") && StartsWithSpace(on[3..]) && TakeWord(LStrip(on[3..])) != ""
    requires AllInDatabase(on).None?
    ensures ParseTarget(on).at == Coordinates(None, None, None)
    ensures AllSimple(on).Some? && ParseTarget(on) == Resolve(OnClause(DropS(Upper(AllSimple(on).value)), "", None))
  {
    NoPath(DropS(Upper(AllSimple(on).value)));
  }

  lemma AllStarts(t: string, after: string)
    requires t in LISTED_TYPES + {"DATABASE"} && (after == "" || after[0] == ' ')
    ensures var on := "ALL " + t + "S" + after;
            StartsCI(on, "ALL") && StartsWithSpace(on[3..]) && TakeWord(LStrip(on[3..])) != ""
  {
    PluralWords();
    if t == "MATERIALIZED VIEW" {
      assert "ALL " + t + "S" + after == "ALL " + "MATERIALIZED" + (" VIEWS" + after);
      AllWord("MATERIALIZED", " VIEWS" + after);
    } else {
      assert t + "S" == "TABLES" || t + "S" == "VIEWS" || t + "S" == "FUNCTIONS" || t + "S" == "DATABASES";
      assert "ALL " + t + "S" + after == "ALL " + (t + "S") + after;
      AllWord(t + "S", after);
    }
  }

  // ALL and a plural with nothing behind it.
  lemma AllOfType(t: string)
    requires t in LISTED_TYPES + {"DATABASE"}
    ensures ParseTarget("ALL " + t + "S") == Target(t, Coordinates(None, None, None))
  {
    var on := "ALL " + t + "S";
    assert on == on + "";
    AllStarts(t, "");
    PluralWords();
    ScopeNone(t + "S");
    AllNames(t);
    PluralUpper(t);
    AllSimpleFound(on);
    OwnNormal(t);
  }

  lemma OwnNormal(t: string)
    requires t in LISTED_TYPES + {"DATABASE"}
    ensures NormalizeObjectType(t) == t
  {
    if t == "DATABASE" {
      NormalDatabase(t);
    } else if t == "TABLE" {
      NormalTable(t);
    } else if t == "VIEW" {
      NormalView(t);
    } else if t == "FUNCTION" {
      NormalFunction(t);
    } else {
      NormalMaterializedView(t);
    }
  }

  // ALL and these words name them, in no scope.
  predicate NamesWhole(on: string, words: string) {
    AllSimple(on) == Some(words) && AllInDatabase(on).None?
  }

  lemma OneNamed(w: string)
    requires WordText(w)
    ensures NamesWhole("ALL " + w, w)
  {
    OneName(w);
    OneWordScoped(w, "");
    ScopeNone(w);
    assert "ALL " + w == "ALL " + w + "";
  }

  lemma TwoNamed(w: string, v: string)
    requires WordText(w) && WordText(v) && UpperChar(v[0]) != 'I'
    ensures NamesWhole("ALL " + w + " " + v, w + " " + v)
  {
    TwoNames(w, v);
    TwoWordsScoped(w, v, "");
    ScopeNone(w + " " + v);
    assert "ALL " + w + " " + v == "ALL " + w + " " + v + "";
  }

  lemma AllNames(t: string)
    requires t in LISTED_TYPES + {"DATABASE"}
    ensures NamesWhole("ALL " + t + "S", t + "S")
  {
    PluralWords();
    if t == "MATERIALIZED VIEW" {
      TwoNamed("MATERIALIZED", "VIEWS");
      TwoPlural("MATERIALIZED", "VIEWS", t);
    } else {
      assert t + "S" == "TABLES" || t + "S" == "VIEWS" || t + "S" == "FUNCTIONS" || t + "S" == "DATABASES";
      OneNamed(t + "S");
      assert "ALL " + t + "S" == "ALL " + (t + "S");
    }
  }

  lemma TwoPlural(w: string, v: string, t: string)
    requires w == "MATERIALIZED" && v == "VIEWS" && t == "MATERIALIZED VIEW"
    ensures w + " " + v == t + "S" && "ALL " + w + " " + v == "ALL " + t + "S"
  {
    assert w + " " + v == t + "S";
    assert "ALL " + w + " " + v == "ALL " + (w + " " + v);
    assert "ALL " + t + "S" == "ALL " + (t + "S");
  }

  lemma OneName(w: string)
    requires WordText(w)
    ensures AllSimple("ALL " + w) == Some(w)
  {
    AllWord(w, "");
    assert "ALL " + w + "" == "ALL " + w;
    assert w + "" == w;
  }

  lemma TwoNames(w: string, v: string)
    requires WordText(w) && WordText(v)
    ensures AllSimple("ALL " + w + " " + v) == Some(w + " " + v)
  {
    var more := " " + v;
    AllWord(w, more);
    assert "ALL " + w + " " + v == "ALL " + w + more;
    OneMoreWord(v);
    assert w + more == w + " " + v;
  }

  lemma OneMoreWord(v: string)
    requires WordText(v)
    ensures MoreWords(" " + v) == " " + v
  {
    var more := " " + v;
    WordTaken(v, "");
    WordSolid(v);
    assert v + "" == v && more[1..] == v && v[0] == more[1];
    assert LStrip(more) == v;
    assert v[|v|..] == "" && more[..1] == " ";
  }

  // A scope without a name reads as no scope at all.
  lemma NamelessScope(t: string)
    requires t in LISTED_TYPES
    ensures ParseTarget("ALL " + t + "S IN DATABASE").at == Coordinates(None, None, None)
  {
    var after, taken := " IN DATABASE", t + "S";
    var on := "ALL " + t + "S" + after;
    assert on == "ALL " + t + "S IN DATABASE";
    AllScoped(t, after);
    NamelessWords(taken, "IN", "DATABASE", after);
    AllStarts(t, after);
    AllSimpleFound(on);
  }

  lemma NamelessWords(taken: string, w: string, v: string, after: string)
    requires w == "IN" && v == "DATABASE" && after == " IN DATABASE"
    ensures TypeInScope(taken, after).None?
  {
    PluralWords();
    NoNameClause();
    assert after == " " + w + (" " + v + "");
    WordInScope(taken, w, " " + v + "");
    NoScopeWord(v, "");
    WordInScope(taken + " " + w, v, "");
    ScopeNone(taken + " " + w + " " + v);
  }
}
