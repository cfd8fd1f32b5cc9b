/** Where the target of a listed statement ends, and how the scanners read its words. */
module ListingScan {
  import opened Text
  import opened GrantTypes
  import opened GrantParser
  import opened GrantScanFacts
  import opened GrantRoundTrip

  // ---------------------------------------------------------------------------
  // The end of the target

  // A word that no mark can start with.
  predicate HeadWord(w: string) {
    Solid(w) && |w| > 1 && !(UpperChar(w[0]) == 'T' && UpperChar(w[1]) == 'O')
  }

  // Words with single blanks between and behind them; no blank but the last starts a mark.
  predicate Steady(h: string) {
    && '\n' !in h && (h != "" ==> h[|h| - 1] == ' ')
    && forall i :: 0 <= i < |h| - 1 && IsSpace(h[i]) ==>
         i + 2 < |h| && !IsSpace(h[i + 1]) && !(UpperChar(h[i + 1]) == 'T' && UpperChar(h[i + 2]) == 'O')
  }

  lemma SteadyWord(h: string, w: string)
    requires Steady(h) && HeadWord(w)
    ensures Steady(h + w + " ")
  {
    var s := h + w + " ";
    forall i | 0 <= i < |s| - 1 && IsSpace(s[i])
      ensures i + 2 < |s| && !IsSpace(s[i + 1]) && !(UpperChar(s[i + 1]) == 'T' && UpperChar(s[i + 2]) == 'O')
    {
      if i < |h| - 1 {
        assert s[i] == h[i] && s[i + 1] == h[i + 1] && s[i + 2] == h[i + 2];
      } else {
        assert i == |h| - 1;
        assert s[i + 1] == w[0] && s[i + 2] == w[1];
      }
    }
    SolidLine(w);
  }

  lemma SolidLine(x: string)
    requires Solid(x)
    ensures '\n' !in x
  {
  }

  lemma SteadyUnmarked(h: string, after: string, i: nat)
    requires Steady(h) && i < |h| - 1
    ensures !Mark((h + after)[i..], "TO")
  {
    var s := (h + after)[i..];
    assert s[0] == h[i];
    if IsSpace(h[i]) {
      assert s[1] == h[i + 1] && s[2] == h[i + 2];
      assert LStrip(s) == s[1..];
      var two := s[1..][..2];
      assert Upper(two)[0] == UpperChar(h[i + 1]) && Upper(two)[1] == UpperChar(h[i + 2]);
    }
  }

  // The last word is taken for the mark when it reads TO.
  lemma LastWordMark(name: string, rest: string)
    requires Solid(name)
    ensures Mark(" " + name + (" TO " + rest), "TO") <==> Upper(name) == "TO"
  {
    var t := name + (" TO " + rest);
    var s := " " + name + (" TO " + rest);
    assert s[1..] == t && t[0] == name[0];
    assert LStrip(s) == t;
    if |name| == 2 {
      assert t[..2] == name && t[2] == ' ';
    } else if |name| == 1 {
      assert t[1] == ' ' && Upper(t[..2])[1] == ' ';
    } else {
      assert t[2..][0] == name[2];
    }
  }

  // Positions in the last word.
  lemma WordUnmarked(h: string, name: string, after: string, i: nat)
    requires Solid(name) && |h| <= i < |h| + |name|
    ensures !Mark((h + name + after)[i..], "TO")
  {
    assert (h + name + after)[i] == name[i - |h|];
    NoMarkAt(h + name + after, i);
  }

  // The target ends behind its last word ...
  lemma WholeTarget(h: string, name: string, rest: string)
    requires Steady(h) && Solid(name) && (h == "" || Upper(name) != "TO")
    ensures CutAt(Tail(h + name, rest), |h + name|)
  {
    var after := " TO " + rest;
    var s, k := Tail(h + name, rest), |h + name|;
    assert s == h + name + after && s[k..] == after && s[..k] == h + name;
    MarkedTo(rest);
    SolidLine(name);
    forall i | 0 < i < k ensures !Mark(s[i..], "TO") {
      BeforeEnd(h, name, rest, i);
    }
  }

  lemma BeforeEnd(h: string, name: string, rest: string, i: nat)
    requires Steady(h) && Solid(name) && (h == "" || Upper(name) != "TO") && 0 < i < |h| + |name|
    ensures !Mark(Tail(h + name, rest)[i..], "TO")
  {
    var after := " TO " + rest;
    var s := Tail(h + name, rest);
    assert s == h + name + after && s == h + (name + after);
    if i < |h| - 1 {
      SteadyUnmarked(h, name + after, i);
    } else if i == |h| - 1 {
      assert s[i..] == " " + name + after;
      LastWordMark(name, rest);
    } else {
      WordUnmarked(h, name, after, i);
    }
  }

  // ... or in front of it when it is taken for the mark.
  lemma CutTarget(h: string, name: string, rest: string)
    requires Steady(h) && |h| > 1 && Solid(name) && Upper(name) == "TO"
    ensures CutAt(Tail(h + name, rest), |h| - 1)
  {
    var after := " TO " + rest;
    var s, k := Tail(h + name, rest), |h| - 1;
    assert s == h + (name + after) && s[..k] == h[..k];
    assert s[k..] == " " + name + after;
    LastWordMark(name, rest);
    forall i | 0 < i < k ensures !Mark(s[i..], "TO") {
      SteadyUnmarked(h, name + after, i);
    }
  }

  // ---------------------------------------------------------------------------
  // The statement

  // One grant for each privilege, with these coordinates.
  predicate OneEach(
      grants: seq<Grant>, grantee: string, granteeType: GranteeType, privs: seq<string>,
      objectType: string, catalog: Option<string>, database: Option<string>, name: Option<string>)
  {
    && |grants| == |privs|
    && forall i :: 0 <= i < |privs| ==>
         grants[i] == Grant(grantee, granteeType, catalog, database, name, objectType, privs[i], false, "direct")
  }

  // The statement, from a row with this catalog, reads as these.
  predicate ReadsEach(
      stmt: string, rowCatalog: string, grantee: string, granteeType: GranteeType, privs: seq<string>,
      objectType: string, catalog: Option<string>, database: Option<string>, name: Option<string>)
  {
    OneEach(FillAll(Grants(stmt, grantee, granteeType), rowCatalog), grantee, granteeType, privs,
                    objectType, catalog, database, name)
  }

  // The catalog of the row completes a grant on something in a catalog.
  function Completed(objectType: string, catalog: Option<string>, rowCatalog: string): Option<string> {
    if Given(catalog) || rowCatalog == "" || objectType in NON_CATALOG_TYPES then catalog else Some(rowCatalog)
  }

  predicate GoodList(privs: seq<string>) {
    privs != [] && forall i :: 0 <= i < |privs| ==> GoodPrivilege(privs[i])
  }

  // The grants on one target, completed from the row, field by field.
  lemma EachField(
      target: Target, rowCatalog: string, grantee: string, granteeType: GranteeType, privs: seq<string>, i: nat)
    requires i < |privs|
    ensures FillAll(EachOn(target, grantee, granteeType, privs), rowCatalog)[i] ==
            Grant(grantee, granteeType, Completed(target.objectType, target.at.catalog, rowCatalog),
                  target.at.database, target.at.name, target.objectType, privs[i], false, "direct")
  {
    assert EachOn(target, grantee, granteeType, privs)[i] == GrantOn(target, grantee, granteeType, privs[i]);
  }

  // The statement is read on whatever the text up to the cut reads as.
  lemma GrantsCut(privs: seq<string>, on: string, rest: string, k: nat, grantee: string, granteeType: GranteeType)
    requires GoodList(privs) && CutAt(Tail(on, rest), k) && on != "" && !IsSpace(on[0])
    ensures Grants(Printed(privs, on, rest), grantee, granteeType) ==
            EachOn(ParseTarget(Tail(on, rest)[..k]), grantee, granteeType, privs)
  {
    var s := Tail(on, rest);
    assert s[0] == on[0];
    LazyToCut(s, k);
    CutTrimmed(s, k);
    StatementReads(privs, on, rest, grantee, granteeType);
  }

  lemma ReadsCut(
      privs: seq<string>, on: string, rest: string, k: nat, rowCatalog: string, grantee: string,
      granteeType: GranteeType, t: string, c: Option<string>, d: Option<string>, n: Option<string>)
    requires GoodList(privs) && CutAt(Tail(on, rest), k) && on != "" && !IsSpace(on[0])
    ensures var target := ParseTarget(Tail(on, rest)[..k]);
            ReadsEach(Printed(privs, on, rest), rowCatalog, grantee, granteeType, privs, t, c, d, n) <==>
            && target.objectType == t && Completed(target.objectType, target.at.catalog, rowCatalog) == c
            && target.at.database == d && target.at.name == n
  {
    GrantsCut(privs, on, rest, k, grantee, granteeType);
    EachAlike(ParseTarget(Tail(on, rest)[..k]), rowCatalog, grantee, granteeType, privs, t, c, d, n);
  }

  lemma EachAlike(
      target: Target, rowCatalog: string, grantee: string, granteeType: GranteeType, privs: seq<string>,
      t: string, c: Option<string>, d: Option<string>, n: Option<string>)
    requires privs != []
    ensures OneEach(FillAll(EachOn(target, grantee, granteeType, privs), rowCatalog),
                            grantee, granteeType, privs, t, c, d, n)
            <==>
            && target.objectType == t && Completed(target.objectType, target.at.catalog, rowCatalog) == c
            && target.at.database == d && target.at.name == n
  {
    var each := FillAll(EachOn(target, grantee, granteeType, privs), rowCatalog);
    forall i | 0 <= i < |privs|
      ensures each[i] ==
              Grant(grantee, granteeType, Completed(target.objectType, target.at.catalog, rowCatalog),
                    target.at.database, target.at.name, target.objectType, privs[i], false, "direct")
    {
      EachField(target, rowCatalog, grantee, granteeType, privs, i);
    }
    assert each[0] == Grant(grantee, granteeType, Completed(target.objectType, target.at.catalog, rowCatalog),
                            target.at.database, target.at.name, target.objectType, privs[0], false, "direct");
  }
}
