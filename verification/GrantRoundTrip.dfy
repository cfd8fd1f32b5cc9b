/** Printing a grant request and reading the statement back. */
module GrantRoundTrip {
  import opened Text
  import opened GrantTypes
  import opened GrantSpec
  import opened SqlSafety
  import opened GrantParser
  import opened GrantScanFacts

  // ---------------------------------------------------------------------------
  // The statement

  function Printed(privs: seq<string>, target: string, rest: string): string {
    "GRANT " + Join(privs, ", ") + " ON " + target + " TO " + rest
  }

  // What the scanner sees behind ` ON `.
  function Tail(target: string, rest: string): string {
    target + " TO " + rest
  }

  lemma MarkHere(word: string, u: string)
    requires |word| == 2 && Upper(word) == word && !IsSpace(word[0])
    ensures var z := " " + word + " " + u; Mark(z, word) && BehindMark(z, word) == " " + u
  {
    var z := " " + word + " " + u;
    var t := word + (" " + u);
    assert z[1..] == t && LStrip(t) == t && LStrip(z) == t;
    assert t[..2] == word && t[2..] == " " + u;
  }

  lemma MarkedOn(z: string, u: string)
    requires z == " ON " + u && !StartsWithSpace(u)
    ensures Mark(z, "ON") && SpacedTo(BehindMark(z, "ON")) == LazyTo(u)
  {
    var word := "ON";
    assert Upper(word) == word;
    MarkHere(word, u);
    assert z == " " + word + " " + u;
    SpacedOnce(u);
  }

  lemma GrantMatch(text: string)
    requires !StartsWithSpace(text)
    ensures MatchGrantOn("GRANT " + text) == LazyOn(text)
  {
    var stmt, word := "GRANT " + text, "GRANT";
    assert Upper(word) == word;
    assert stmt[..5] == word && stmt[5..] == " " + text;
    SpacedOnOnce(text);
  }

  lemma SpacedOnOnce(u: string)
    requires !StartsWithSpace(u)
    ensures SpacedOn(" " + u) == LazyOn(u)
  {
    assert (" " + u)[1..] == u;
  }

  lemma PrintedGroups(privs: seq<string>, target: string, rest: string)
    requires Join(privs, ", ") != "" && !IsSpace(Join(privs, ", ")[0])
    requires target != "" && !IsSpace(target[0])
    ensures var z := " ON " + Tail(target, rest);
            && MatchGrantOn(Printed(privs, target, rest)) == LazyOn(Join(privs, ", ") + z)
            && Mark(z, "ON") && SpacedTo(BehindMark(z, "ON")) == LazyTo(Tail(target, rest))
  {
    var p, u := Join(privs, ", "), Tail(target, rest);
    MarkedOn(" ON " + u, u);
    GrantMatch(p + (" ON " + u));
    PrintedShape(privs, target, rest);
  }

  lemma PrintedShape(privs: seq<string>, target: string, rest: string)
    ensures Printed(privs, target, rest) == "GRANT " + (Join(privs, ", ") + (" ON " + Tail(target, rest)))
  {
  }

  lemma SpacedOnce(u: string)
    requires !StartsWithSpace(u)
    ensures SpacedTo(" " + u) == LazyTo(u)
  {
    assert (" " + u)[1..] == u;
  }

  // Behind a good list of privileges the scanner stops when the target can be read, and
  // otherwise finds nothing or runs on.
  lemma ListThenTarget(p: string, z: string)
    requires p != "" && Calm(p, 'O') && '\n' !in p
    requires |z| > 1 && z[..2] == " O" && Mark(z, "ON")
    ensures var found := SpacedTo(BehindMark(z, "ON"));
            var m := LazyOn(p + z);
            if found.Some? then m == Some((p, found.value)) else m.Some? ==> Weight(m.value.0) > Weight(p)
  {
    if SpacedTo(BehindMark(z, "ON")).Some? {
      LazyOnStops(p, z);
    } else if LazyOn(p + z).Some? {
      LazyOnPrefix(p + z);
      assert z[1] == z[..2][1];
      LazyOnRunsOn(p, z);
      Heavier(p, z, LazyOn(p + z).value.0);
    }
  }

  // The two groups of a printed statement: the privileges and the target when the target
  // text can be read, otherwise nothing or privileges that run on behind their list.
  lemma GroupsRead(privs: seq<string>, target: string, rest: string)
    requires privs != [] && forall i :: 0 <= i < |privs| ==> GoodPrivilege(privs[i])
    requires target != "" && !IsSpace(target[0])
    ensures var p := Join(privs, ", ");
            var found := LazyTo(Tail(target, rest));
            var m := MatchGrantOn(Printed(privs, target, rest));
            if found.Some? then m == Some((p, found.value)) && Strip(p) == p
            else m.Some? ==> Weight(m.value.0) > Weight(p)
  {
    var p := Join(privs, ", ");
    JoinGood(privs);
    StripTrimmed(p);
    PrintedGroups(privs, target, rest);
    OnText(Tail(target, rest));
    ListThenTarget(p, " ON " + Tail(target, rest));
  }

  lemma OnText(u: string)
    ensures var z := " ON " + u; |z| > 1 && z[..2] == " O"
  {
  }

  // Privileges listed in a heavier text are not these.
  lemma OtherPrivileges(privs: seq<string>, text: string, target: Target, grantee: string, granteeType: GranteeType)
    requires privs != [] && forall i :: 0 <= i < |privs| ==> Trimmed(privs[i]) && ',' !in privs[i]
    requires Weight(text) > Weight(Join(privs, ", "))
    ensures PrivsOf(GrantsOn(target, grantee, granteeType, Split(Strip(text), ','))) != privs
  {
    var p := Join(privs, ", ");
    WeightStrip(text);
    ListWeight(target, grantee, granteeType, Strip(text));
    ListWeight(target, grantee, granteeType, p);
    ListReadsBack(target, grantee, granteeType, "", privs);
    assert "" + p == p;
    assert PrivsOf(EachOn(target, grantee, granteeType, privs)) == privs;
  }

  // A printed statement reads as one grant per privilege on whatever its target text
  // reads as; if the target text cannot be read, the privileges do not come back.
  lemma StatementReads(
      privs: seq<string>, target: string, rest: string, grantee: string, granteeType: GranteeType)
    requires privs != [] && forall i :: 0 <= i < |privs| ==> GoodPrivilege(privs[i])
    requires target != "" && !IsSpace(target[0])
    ensures var found := LazyTo(Tail(target, rest));
            var grants := Grants(Printed(privs, target, rest), grantee, granteeType);
            if found.Some? then grants == EachOn(ParseTarget(Strip(found.value)), grantee, granteeType, privs)
            else PrivsOf(grants) != privs
  {
    GroupsRead(privs, target, rest);
    var m := MatchGrantOn(Printed(privs, target, rest));
    if m.Some? {
      var on := ParseTarget(Strip(m.value.1));
      if LazyTo(Tail(target, rest)).Some? {
        ListReadsBack(on, grantee, granteeType, "", privs);
        assert "" + Join(privs, ", ") == Join(privs, ", ");
      } else {
        OtherPrivileges(privs, m.value.0, on, grantee, granteeType);
      }
    }
  }

  lemma Heavier(p: string, z: string, g: string)
    requires |z| > 1 && z[..2] == " O" && g <= p + z && |g| >= |p| + 2
    ensures Weight(g) > Weight(p)
  {
    var more := g[|p| + 2..];
    assert g == p + (" O" + more) by {
      assert g == (p + z)[..|g|];
    }
    WeightConcat(p, " O" + more);
    WeightOfO(more);
  }

  lemma WeightOfO(more: string)
    ensures Weight(" O" + more) > 0
  {
    assert (" O" + more)[1..] == "O" + more && ("O" + more)[0] == 'O';
  }

  // ---------------------------------------------------------------------------
  // What the target text reads as

  function FillTarget(t: Target, catalog: string): Target {
    if catalog != "" && !Given(t.at.catalog) && t.objectType !in NON_CATALOG_TYPES then
      t.(at := t.at.(catalog := Some(catalog)))
    else t
  }

  // No backtick, dot or newline, and no white space around the word TO.
  ghost predicate Legible(x: string) {
    && '`' !in x && '.' !in x && '\n' !in x
    && forall j :: 0 <= j < |x| ==> !Mark(x[j..], "TO")
  }

  // Neither a backtick nor a dot.
  predicate Clean(x: string) {
    '`' !in x && '.' !in x
  }

  predicate CleanOption(o: Option<string>) {
    o.Some? ==> Clean(o.value)
  }

  lemma {:induction false} CleanSafe(x: string)
    requires '`' !in x
    ensures SafeIdentifier(x) == x
  {
    if x != "" {
      CleanSafe(x[1..]);
    }
  }

  lemma {:induction false} EraseGone(s: string, c: char)
    ensures c !in Erase(s, c)
  {
    if s != "" {
      EraseGone(s[1..], c);
    }
  }

  lemma {:induction false} SplitClean(s: string)
    requires '`' !in s
    ensures forall part :: part in Split(s, '.') ==> Clean(part)
    decreases |s|
  {
    var head := Before(s, '.');
    assert forall c :: c in head ==> c in s;
    if |head| < |s| {
      assert forall c :: c in s[|head| + 1..] ==> c in s;
      SplitClean(s[|head| + 1..]);
    }
  }

  // Coordinates read from a path never contain a backtick or a dot.
  lemma CoordinatesClean(objectType: string, path: string)
    requires '`' !in path && (objectType in OBJECT_SHAPE || path == "")
    ensures var at := ApplyScopeOverrides(objectType, path, SplitObjectPath(objectType, path), None);
            CleanOption(at.catalog) && CleanOption(at.database) && CleanOption(at.name)
  {
    if path != "" {
      SplitClean(path);
      PartsClean(objectType, path);
    }
  }

  lemma PartsClean(objectType: string, path: string)
    requires path != "" && objectType in OBJECT_SHAPE && '`' !in path
    requires forall part :: part in Split(path, '.') ==> Clean(part)
    ensures var at := ApplyScopeOverrides(objectType, path, SplitObjectPath(objectType, path), None);
            CleanOption(at.catalog) && CleanOption(at.database) && CleanOption(at.name)
  {
    var parts := Split(path, '.');
    assert forall i :: 0 <= i < |parts| ==> parts[i] in parts;
  }

  lemma OtherLetter(on: string, w: string)
    requires on != "" && w != "" && UpperChar(on[0]) != w[0]
    ensures !StartsCI(on, w)
  {
    if |w| <= |on| {
      assert Upper(on[..|w|])[0] == UpperChar(on[0]);
    }
  }

  lemma {:induction false} LeadingFrom(on: string, types: seq<string>, i: nat)
    requires i <= |types| && forall k :: 0 <= k < i ==> !StartsCI(on, types[k])
    ensures LeadingType(on, types) == LeadingType(on, types[i..])
    decreases i
  {
    if i == 0 {
      assert types[0..] == types;
    } else {
      assert !StartsCI(on, types[0]);
      forall k | 0 <= k < i - 1 ensures !StartsCI(on, types[1..][k]) {
        assert types[1..][k] == types[k + 1];
      }
      LeadingFrom(on, types[1..], i - 1);
      assert types[1..][i - 1..] == types[i..];
    }
  }

  // The one-word types whose path is read by the generic expression.
  const QUOTED_TYPES: set<string> := {"TABLE", "VIEW", "DATABASE", "CATALOG"}

  lemma NoAll(on: string)
    requires on != "" && UpperChar(on[0]) != 'A'
    ensures AllInDatabase(on).None? && AllSimple(on).None?
  {
    OtherLetter(on, "ALL");
  }

  lemma NoLeading(on: string)
    requires on != "" && UpperChar(on[0]) !in {'S', 'G', 'R', 'M', 'F'}
    ensures LeadingType(on, MULTI_WORD_TYPES).None?
  {
    forall k | 0 <= k < |MULTI_WORD_TYPES| ensures !StartsCI(on, MULTI_WORD_TYPES[k]) {
      OtherLetter(on, MULTI_WORD_TYPES[k]);
    }
    LeadingFrom(on, MULTI_WORD_TYPES, |MULTI_WORD_TYPES|);
  }

  lemma TypeWord(t: string)
    requires t in QUOTED_TYPES
    ensures t != "" && UpperChar(t[0]) !in {'A', 'S', 'G', 'R', 'M', 'F'}
    ensures Upper(t) == t && forall c :: c in t ==> IsWord(c)
  {
    assert forall c :: c in t ==> 'A' <= c <= 'Z';
    assert forall i :: 0 <= i < |t| ==> t[i] in t;
  }

  // `<type> <path>` with a quoted path.
  lemma GenericClause(t: string, w: string)
    requires t in QUOTED_TYPES && w != "" && w[0] == '`'
    ensures ParseOnClause(t + " " + w) ==
            if QuotedPath(w).Some? then OnClause(t, Erase(Strip(QuotedPath(w).value), '`'), None)
            else OnClause(Upper(t + " " + w), "", None)
  {
    var on := t + " " + w;
    TypeWord(t);
    assert on[0] == t[0];
    NoAll(on);
    NoLeading(on);
    GenericPath(t, w);
  }

  lemma GenericPath(t: string, w: string)
    requires t != "" && (forall c :: c in t ==> IsWord(c)) && w != "" && w[0] == '`'
    ensures TypeAndPath(t + " " + w) == if QuotedPath(w).Some? then Some((t, QuotedPath(w).value)) else None
  {
    var behind := " " + w;
    assert t + " " + w == t + behind;
    TakeWordStops(t, behind);
    BlankStripped(w);
    PathBehind(t + behind, t, behind, w);
  }

  lemma BlankStripped(w: string)
    requires w != "" && !IsSpace(w[0])
    ensures StartsWithSpace(" " + w) && LStrip(" " + w) == w
  {
    assert (" " + w)[1..] == w;
  }

  lemma PathBehind(on: string, t: string, behind: string, w: string)
    requires t != "" && on == t + behind && TakeWord(on) == t
    requires StartsWithSpace(behind) && LStrip(behind) == w && w != "" && w[0] == '`'
    ensures TypeAndPath(on) == if QuotedPath(w).Some? then Some((t, QuotedPath(w).value)) else None
  {
    assert on[|t|..] == behind;
    assert TakePath(w) == "";
  }

  // `MATERIALIZED VIEW <path>`: everything behind the two words is the path.
  lemma MaterializedClause(t: string, w: string)
    requires t == "MATERIALIZED VIEW" && Trimmed(w)
    ensures ParseOnClause(t + " " + w) == OnClause(t, Erase(w, '`'), None)
  {
    var on, behind := t + " " + w, " " + w;
    BehindType(t, w);
    assert on[0] == 'M';
    NoAll(on);
    MaterializedLeads(t, behind);
    StripTrimmed(w);
  }

  lemma BehindType(t: string, w: string)
    ensures t + " " + w == t + (" " + w) && (t + " " + w)[|t|..] == " " + w && (" " + w)[1..] == w
  {
  }

  lemma MaterializedLeads(t: string, behind: string)
    requires t == "MATERIALIZED VIEW"
    ensures LeadingType(t + behind, MULTI_WORD_TYPES) == Some(t)
  {
    var on := t + behind;
    forall k | 0 <= k < 3 ensures !StartsCI(on, MULTI_WORD_TYPES[k]) {
      OtherLetter(on, MULTI_WORD_TYPES[k]);
    }
    LeadingFrom(on, MULTI_WORD_TYPES, 3);
    assert forall c :: c in t ==> UpperChar(c) == c;
    assert forall i :: 0 <= i < |t| ==> t[i] in t;
    assert on[..|t|] == t && Upper(t) == t;
    assert MULTI_WORD_TYPES[3..][0] == t;
  }

  // ---------------------------------------------------------------------------
  // Where the target text is cut

  // A calm head is not cut.
  lemma HeadUncut(h: string, y: string, i: nat)
    requires Calm(h, 'T') && 0 < i < |h|
    ensures !Mark((h + y)[i..], "TO")
  {
    assert (h + y)[i..] == h[i..] + y;
    CalmSuffix(h, 'T', i);
    CalmNoMark(h[i..], y, "TO");
  }

  // A name in front of a backtick is cut only at a mark of its own.
  lemma NameCut(before: string, x: string, after: string, i: nat)
    requires |before| <= i < |before| + |x|
    ensures Mark((before + x + "`" + after)[i..], "TO") <==> Mark(x[i - |before|..], "TO")
  {
    var j := i - |before|;
    assert (before + x + "`" + after)[i..] == x[j..] + ['`'] + after;
    MarkStops(x[j..], '`', after, "TO");
  }

  lemma NoMarkAt(s: string, i: nat)
    requires i < |s| && !IsSpace(s[i])
    ensures !Mark(s[i..], "TO")
  {
  }

  // `TO ` ends a text that ends in no white space.
  lemma MarkedTo(rest: string)
    ensures Mark(" TO " + rest, "TO")
  {
    var word := "TO";
    assert Upper(word) == word;
    MarkHere(word, rest);
    assert " " + word + " " + rest == " TO " + rest;
  }

  ghost predicate Uncut(x: string) {
    '\n' !in x && forall j :: 0 <= j < |x| ==> !Mark(x[j..], "TO")
  }

  // The marks of a text with one quoted name are those of the name.
  lemma SingleMarks(h: string, x: string, after: string, i: nat)
    requires Calm(h, 'T') && 0 < i < |h| + |x| + 1
    ensures Mark((h + x + "`" + after)[i..], "TO") <==> |h| <= i < |h| + |x| && Mark(x[i - |h|..], "TO")
  {
    var s := h + x + "`" + after;
    if i < |h| {
      var y := x + "`" + after;
      assert s == h + y;
      HeadUncut(h, y, i);
    } else if i < |h| + |x| {
      NameCut(h, x, after, i);
    } else {
      NoMarkAt(s, i);
    }
  }

  // One quoted name: the text is read in full exactly when the name has no newline and no mark.
  lemma SingleCut(h: string, x: string, rest: string)
    requires h != "" && Calm(h, 'T') && '\n' !in h
    ensures var t := h + x + "`"; CutAt(Tail(t, rest), |t|) <==> Uncut(x)
  {
    var t := h + x + "`";
    var after := " TO " + rest;
    var s := Tail(t, rest);
    assert s == h + x + "`" + after;
    assert s[|t|..] == after && s[..|t|] == t;
    MarkedTo(rest);
    forall i | 0 < i < |t|
      ensures Mark(s[i..], "TO") <==> |h| <= i < |h| + |x| && Mark(x[i - |h|..], "TO")
    {
      SingleMarks(h, x, after, i);
    }
    assert forall c :: c in t <==> c in h || c in x || c == '`';
    if CutAt(s, |t|) {
      forall j | 0 <= j < |x| ensures !Mark(x[j..], "TO") {
        assert !Mark(s[|h| + j..], "TO");
      }
    }
  }

  // The marks of a text with two quoted names are those of the names.
  lemma PairMarks(h: string, a: string, b: string, after: string, i: nat)
    requires h != "" && Calm(h, 'T')
    requires 0 < i < |h| + |a| + 3 + |b| + 1
    ensures var s := h + a + "`.`" + b + "`" + after;
            var n := |h| + |a| + 3;
            Mark(s[i..], "TO") <==>
            || (|h| <= i < |h| + |a| && Mark(a[i - |h|..], "TO"))
            || (n <= i < n + |b| && Mark(b[i - n..], "TO"))
  {
    var s := h + a + "`.`" + b + "`" + after;
    var n := |h| + |a| + 3;
    if i < |h| {
      var y := a + "`.`" + b + "`" + after;
      assert s == h + y;
      HeadUncut(h, y, i);
    } else if i < |h| + |a| {
      assert s == h + a + "`" + (".`" + b + "`" + after);
      NameCut(h, a, ".`" + b + "`" + after, i);
    } else if n <= i < n + |b| {
      assert s == (h + a + "`.`") + b + "`" + after;
      NameCut(h + a + "`.`", b, after, i);
    } else {
      NoMarkAt(s, i);
    }
  }

  lemma PairText(h: string, a: string, b: string, rest: string)
    ensures var t, after := h + a + "`.`" + b + "`", " TO " + rest;
            var s := Tail(t, rest);
            && s == h + a + "`.`" + b + "`" + after && s[|t|..] == after && s[..|t|] == t
            && ('\n' !in h ==> ('\n' in t <==> '\n' in a || '\n' in b))
  {
    var t := h + a + "`.`" + b + "`";
    assert forall c :: c in t <==> c in h || c in a || c in b || c in {'`', '.'};
  }

  // No mark before the end, when the names have none; and the other way round.
  lemma PairUnmarked(h: string, a: string, b: string, after: string)
    requires h != "" && Calm(h, 'T')
    ensures var s, l := h + a + "`.`" + b + "`" + after, |h| + |a| + |b| + 4;
            (forall i :: 0 < i < l ==> !Mark(s[i..], "TO")) <==>
            (forall j :: 0 <= j < |a| ==> !Mark(a[j..], "TO")) && (forall j :: 0 <= j < |b| ==> !Mark(b[j..], "TO"))
  {
    var s, l := h + a + "`.`" + b + "`" + after, |h| + |a| + |b| + 4;
    var n := |h| + |a| + 3;
    forall i | 0 < i < l
      ensures Mark(s[i..], "TO") <==>
              || (|h| <= i < |h| + |a| && Mark(a[i - |h|..], "TO"))
              || (n <= i < n + |b| && Mark(b[i - n..], "TO"))
    {
      PairMarks(h, a, b, after, i);
    }
    if forall i :: 0 < i < l ==> !Mark(s[i..], "TO") {
      forall j | 0 <= j < |a| ensures !Mark(a[j..], "TO") {
        assert !Mark(s[|h| + j..], "TO");
      }
      forall j | 0 <= j < |b| ensures !Mark(b[j..], "TO") {
        assert !Mark(s[n + j..], "TO");
      }
    }
  }

  // Two quoted names.
  lemma PairCut(h: string, a: string, b: string, rest: string, t: string)
    requires h != "" && Calm(h, 'T') && '\n' !in h && t == h + a + "`.`" + b + "`"
    ensures CutAt(Tail(t, rest), |t|) <==> Uncut(a) && Uncut(b)
  {
    PairText(h, a, b, rest);
    PairUnmarked(h, a, b, " TO " + rest);
    MarkedTo(rest);
  }

  // The head of a text that is read at all is read in full.
  lemma HeadRead(h: string, y: string, k: nat)
    requires Calm(h, 'T') && CutAt(h + y, k) && 0 < |h| <= |h + y|
    ensures k >= |h| && h <= (h + y)[..k]
  {
    if k < |h| {
      HeadUncut(h, y, k);
    }
  }

  // ---------------------------------------------------------------------------
  // Quoted paths

  lemma QuotedShape(x: string, y: string)
    ensures var s := "`" + x + "`" + y;
            s != "" && s[0] == '`' && s[1..] == x + ['`'] + y && s[|x| + 2..] == y
  {
  }

  lemma QuotedSingle(x: string, y: string)
    requires x != "" && '`' !in x && (y == "" || y[0] != '.')
    ensures QuotedPath("`" + x + "`" + y) == Some("`" + x + "`")
  {
    QuotedShape(x, y);
    BeforeStops(x, '`', y);
    FirstQuoted("`" + x + "`" + y, x, y);
  }

  // A closed quotation with no dot behind it is the whole path.
  lemma FirstQuoted(s: string, x: string, y: string)
    requires x != "" && s != "" && s[0] == '`' && |s| == |x| + 2 + |y| && s[|x| + 2..] == y
    requires Before(s[1..], '`') == x && (y == "" || y[0] != '.')
    ensures QuotedPath(s) == Some("`" + x + "`")
  {
    if y != "" {
      assert y[..1] == [y[0]];
    }
  }

  lemma QuotedMore(x: string, y: string)
    requires x != "" && '`' !in x
    ensures var s := "`" + x + "`" + ("." + y);
            var more := QuotedPath(y);
            QuotedPath(s) == Some(if more.Some? then "`" + x + "`" + "." + more.value else "`" + x + "`")
  {
    var dotted := "." + y;
    QuotedShape(x, dotted);
    BeforeStops(x, '`', dotted);
    assert dotted[..1] == "." && dotted[1..] == y;
  }

  lemma QuotedOpen(x: string)
    requires '`' !in x
    ensures QuotedPath("`" + x).None?
  {
    assert ("`" + x)[1..] == x;
    BeforeAll(x, '`');
  }

  lemma EraseSingle(x: string)
    requires Clean(x) && x != ""
    ensures Erase(Strip("`" + x + "`"), '`') == x && Split(x, '.') == [x]
  {
    var s := "`" + x + "`";
    assert s[0] == '`' && s[|s| - 1] == '`';
    StripTrimmed(s);
    EraseConcat("`" + x, "`", '`');
    EraseConcat("`", x, '`');
    EraseAbsent(x, '`');
    EraseTick();
  }

  lemma EraseTick()
    ensures Erase("`", '`') == ""
  {
    assert "`"[1..] == "";
  }

  lemma EraseStep(x: string, y: string)
    requires '`' !in x
    ensures Erase(x + ("`" + y), '`') == x + Erase(y, '`')
  {
    EraseConcat(x, "`" + y, '`');
    EraseTickHead(y);
    EraseAbsent(x, '`');
  }

  lemma EraseTickHead(y: string)
    ensures Erase("`" + y, '`') == Erase(y, '`')
  {
    assert ("`" + y)[1..] == y;
  }

  lemma SplitPair(a: string, b: string)
    requires '.' !in a && '.' !in b
    ensures Split(a + "." + b, '.') == [a, b]
  {
    assert a + "." + b == a + ['.'] + b;
    SplitAt(a, '.', b);
    BeforeAll(b, '.');
  }

  lemma ErasePair(a: string, b: string)
    requires Clean(a) && Clean(b)
    ensures Erase("`" + a + "`.`" + b, '`') == a + "." + b
  {
    var tail := "." + ("`" + b);
    assert "`" + a + "`.`" + b == "" + ("`" + (a + ("`" + tail)));
    EraseStep("", a + ("`" + tail));
    EraseStep(a, tail);
    EraseStep(".", b);
    EraseAbsent(b, '`');
  }

  lemma ErasePairClosed(a: string, b: string)
    requires Clean(a) && Clean(b)
    ensures Erase("`" + a + "`.`" + b + "`", '`') == a + "." + b
  {
    ErasePair(a, b);
    EraseConcat("`" + a + "`.`" + b, "`", '`');
    EraseTick();
  }

  // ---------------------------------------------------------------------------
  // What each form of target reads as

  const NOWHERE := Coordinates(None, None, None)

  // A target of type t with this path.
  function TargetAt(t: string, path: string): Target {
    Target(t, ApplyScopeOverrides(t, path, SplitObjectPath(t, path), None))
  }

  // The target read from the type t followed by the text w, which starts with a backtick.
  function TargetOf(t: string, w: string): Target {
    if t == "MATERIALIZED VIEW" then TargetAt(t, Erase(w, '`'))
    else
      var path := QuotedPath(w);
      if path.Some? then TargetAt(t, Erase(Strip(path.value), '`'))
      else Target(NormalizeObjectType(Upper(t + " " + w)), NOWHERE)
  }

  predicate QuotedType(t: string) {
    t in OBJECT_SHAPE && t != "FUNCTION"
  }

  lemma ResolvePath(t: string, path: string)
    requires t in OBJECT_SHAPE
    ensures Resolve(OnClause(t, path, None)) == TargetAt(t, path)
  {
    NormalTypes(t);
  }

  lemma ResolveNothing(t: string)
    ensures Resolve(OnClause(t, "", None)) == Target(NormalizeObjectType(t), NOWHERE)
  {
  }

  lemma ParsesTo(t: string, w: string)
    requires QuotedType(t) && Trimmed(w) && w[0] == '`'
    ensures ParseTarget(t + " " + w) == TargetOf(t, w)
  {
    if t == "MATERIALIZED VIEW" {
      MaterializedClause(t, w);
      ResolvePath(t, Erase(w, '`'));
    } else {
      GenericClause(t, w);
      if QuotedPath(w).Some? {
        ResolvePath(t, Erase(Strip(QuotedPath(w).value), '`'));
      } else {
        ResolveNothing(Upper(t + " " + w));
      }
    }
  }

  // Whatever the text, no name that is read contains a backtick or a dot.
  lemma CleanTarget(t: string, w: string)
    requires QuotedType(t)
    ensures var at := TargetOf(t, w).at;
            CleanOption(at.catalog) && CleanOption(at.database) && CleanOption(at.name)
  {
    if t == "MATERIALIZED VIEW" || QuotedPath(w).Some? {
      var text := if t == "MATERIALIZED VIEW" then w else Strip(QuotedPath(w).value);
      EraseGone(text, '`');
      CoordinatesClean(t, Erase(text, '`'));
    }
  }

  function SingleAt(t: string, x: string): Coordinates {
    if x == "*" then NOWHERE
    else if t == "DATABASE" then Coordinates(None, Some(x), None)
    else Coordinates(Some(x), None, None)
  }

  // A path without a dot.
  lemma OnePart(t: string, a: string)
    requires '.' !in a
    ensures SplitObjectPath(t, a) == if a == "" || a == "*" then NOWHERE else Coordinates(Some(a), None, None)
  {
    BeforeAll(a, '.');
    assert Split(a, '.') == [a];
  }

  lemma SingleTarget(t: string, x: string)
    requires t in {"DATABASE", "CATALOG"} && Clean(x) && x != ""
    ensures TargetOf(t, "`" + x + "`") == Target(t, SingleAt(t, x))
  {
    SinglePath(x);
    ReadsTarget(t, "`" + x + "`", "`" + x + "`", x);
    SinglePlace(t, x);
  }

  lemma SinglePath(x: string)
    requires Clean(x) && x != ""
    ensures var w := "`" + x + "`"; QuotedPath(w) == Some(w) && Erase(Strip(w), '`') == x
  {
    QuotedSingle(x, "");
    assert "`" + x + "`" + "" == "`" + x + "`";
    EraseSingle(x);
  }

  lemma SinglePlace(t: string, x: string)
    requires t in {"DATABASE", "CATALOG"} && Clean(x) && x != ""
    ensures TargetAt(t, x) == Target(t, SingleAt(t, x))
  {
    OnePart(t, x);
  }

  lemma ReadsTarget(t: string, w: string, path: string, name: string)
    requires t != "MATERIALIZED VIEW" && QuotedPath(w) == Some(path) && Erase(Strip(path), '`') == name
    ensures TargetOf(t, w) == TargetAt(t, name)
  {
  }

  predicate PairType(t: string) {
    t in {"TABLE", "VIEW", "MATERIALIZED VIEW"}
  }

  lemma PairSplit(t: string, a: string, b: string)
    requires PairType(t) && Clean(a) && Clean(b)
    ensures TargetAt(t, a + "." + b) == Target(t, Coordinates(None, Some(a), Some(b)))
  {
    SplitPair(a, b);
  }

  lemma OneSplit(t: string, a: string)
    requires PairType(t) && Clean(a)
    ensures TargetAt(t, a).at.name.None?
  {
    OnePart(t, a);
  }

  lemma PairTarget(t: string, a: string, b: string)
    requires PairType(t) && Clean(a) && Clean(b) && a != "" && b != ""
    ensures TargetOf(t, "`" + a + "`.`" + b + "`") == Target(t, Coordinates(None, Some(a), Some(b)))
  {
    PairSplit(t, a, b);
    ErasePairClosed(a, b);
    if t != "MATERIALIZED VIEW" {
      QuotedPairPath(a, b);
      var w := "`" + a + "`.`" + b + "`";
      assert w[0] == '`' && w[|w| - 1] == '`';
      StripTrimmed(w);
    }
  }

  lemma QuotedPairPath(a: string, b: string)
    requires Clean(a) && Clean(b) && a != "" && b != ""
    ensures QuotedPath("`" + a + "`.`" + b + "`") == Some("`" + a + "`.`" + b + "`")
  {
    var y, first := "`" + b + "`", "`" + a + "`";
    QuotedSingle(b, "");
    assert y + "" == y;
    QuotedMore(a, y);
    PairClosed(a, b);
  }

  lemma PairClosed(a: string, b: string)
    ensures var y := "`" + b + "`";
            "`" + a + "`.`" + b + "`" == "`" + a + "`" + ("." + y) == "`" + a + "`" + "." + y
  {
  }

  lemma PairShape(a: string, x: string)
    ensures "`" + a + "`.`" + x == "`" + a + "`" + ("." + ("`" + x)) == "`" + a + "`" + "." + ("`" + x)
  {
  }

  // A pair cut inside its first name, or inside its second, does not read as the pair.
  lemma FirstCutTarget(t: string, x: string)
    requires PairType(t) && Clean(x)
    ensures TargetOf(t, "`" + x).at.name.None?
  {
    if t == "MATERIALIZED VIEW" {
      EraseStep("", x);
      assert "" + ("`" + x) == "`" + x;
      EraseAbsent(x, '`');
      OneSplit(t, x);
    } else {
      QuotedOpen(x);
    }
  }

  lemma SecondCutTarget(t: string, a: string, x: string, b: string)
    requires PairType(t) && Clean(a) && Clean(x) && a != "" && x != b
    ensures TargetOf(t, "`" + a + "`.`" + x).at.name != Some(b)
  {
    if t == "MATERIALIZED VIEW" {
      ErasePair(a, x);
      PairSplit(t, a, x);
    } else {
      QuotedOpen(x);
      QuotedMore(a, "`" + x);
      PairShape(a, x);
      EraseSingle(a);
      OneSplit(t, a);
    }
  }

  // ---------------------------------------------------------------------------
  // When a target comes back

  // What the printed target reads as, in a row with this catalog.
  function ReadsAs(target: string, rest: string, catalog: string): Option<Target> {
    var found := LazyTo(Tail(target, rest));
    if found.Some? then Some(FillTarget(ParseTarget(Strip(found.value)), catalog)) else None
  }

  // The part w of a printed target behind its type that the scanner reads.
  ghost predicate PartRead(t: string, y: string, rest: string, k: nat, w: string) {
    var s := Tail(t + " `" + y, rest);
    CutAt(s, k) && k >= |t| + 2 && w == s[|t| + 1..k]
  }

  lemma TailAppended(h: string, y: string, rest: string)
    ensures Tail(h + y, rest) == h + (y + " TO " + rest)
    ensures forall i :: 0 <= i < |y| ==> Tail(h + y, rest)[|h| + i] == y[i]
  {
  }

  lemma ReadPart(t: string, y: string, rest: string) returns (k: nat, w: string)
    requires QuotedType(t) && LazyTo(Tail(t + " `" + y, rest)).Some?
    ensures PartRead(t, y, rest, k, w)
  {
    var s := Tail(t + " `" + y, rest);
    HeadFacts(t);
    k := LazyToIsCut(s);
    TailAppended(t + " `", y, rest);
    HeadRead(t + " `", y + " TO " + rest, k);
    w := s[|t| + 1..k];
  }

  lemma SliceBehind(a: string, b: string, k: nat)
    requires |a| <= k <= |a + b|
    ensures (a + b)[..k] == a + (a + b)[|a|..k] && (a + b)[|a|..k] == b[..k - |a|]
  {
  }

  // The text behind the type and a blank.
  function Body(y: string, rest: string): string {
    "`" + y + " TO " + rest
  }

  lemma TailBody(t: string, y: string, rest: string)
    ensures Tail(t + " `" + y, rest) == t + " " + Body(y, rest)
  {
  }

  // The part is a prefix of that text.
  lemma PartIs(t: string, y: string, rest: string, k: nat, w: string)
    requires PartRead(t, y, rest, k, w)
    ensures k - |t| - 1 <= |Body(y, rest)| && w == Body(y, rest)[..k - |t| - 1]
    ensures Tail(t + " `" + y, rest)[..k] == t + " " + w
  {
    TailBody(t, y, rest);
    SliceBehind(t + " ", Body(y, rest), k);
  }

  lemma TrimmedEnd(head: string, w: string)
    requires Trimmed(head + w) && w != "" && !IsSpace(w[0])
    ensures Trimmed(w)
  {
    assert (head + w)[|head + w| - 1] == w[|w| - 1];
  }

  lemma CutAtSpace(s: string, k: nat)
    requires CutAt(s, k)
    ensures IsSpace(s[k])
  {
    assert s[k..][0] == s[k];
  }

  lemma PartShape(t: string, y: string, rest: string, k: nat, w: string)
    requires QuotedType(t) && PartRead(t, y, rest, k, w)
    ensures LazyTo(Tail(t + " `" + y, rest)) == Some(t + " " + w) && Strip(t + " " + w) == t + " " + w
    ensures Trimmed(w) && w[0] == '`' && IsSpace(Tail(t + " `" + y, rest)[k])
  {
    var s := Tail(t + " `" + y, rest);
    HeadFacts(t);
    TailBody(t, y, rest);
    assert s[0] == t[0];
    PartIs(t, y, rest, k, w);
    LazyToCut(s, k);
    CutTrimmed(s, k);
    TrimmedEnd(t + " ", w);
    CutAtSpace(s, k);
  }

  // What such a target reads as.
  lemma PartReads(t: string, y: string, rest: string, k: nat, w: string, catalog: string)
    requires QuotedType(t) && PartRead(t, y, rest, k, w)
    ensures ReadsAs(t + " `" + y, rest, catalog) == Some(FillTarget(TargetOf(t, w), catalog))
  {
    PartShape(t, y, rest, k, w);
    ParsesTo(t, w);
  }

  lemma HeadFacts(t: string)
    requires QuotedType(t)
    ensures Calm(t + " `", 'T') && '\n' !in t + " `" && t != "" && !IsSpace(t[0])
  {
    if t == "MATERIALIZED VIEW" {
      assert t == "MATERIALIZED" + " " + "VIEW";
      assert CapitalWord("MATERIALIZED") && CapitalWord("VIEW");
      TwoWordsCalm("MATERIALIZED", "VIEW");
    } else {
      assert CapitalWord(t);
      OneWordCalm(t);
    }
  }

  lemma OneWordCalm(t: string)
    requires CapitalWord(t)
    ensures Calm(t + " `", 'T') && '\n' !in t + " `" && !IsSpace(t[0])
  {
    forall i | 0 <= i < |t| ensures 'A' <= t[i] <= 'Z' {
      assert t[i] in t;
    }
  }

  lemma TwoWordsCalm(a: string, b: string)
    requires CapitalWord(a) && CapitalWord(b) && b[0] != 'T'
    ensures var t := a + " " + b; Calm(t + " `", 'T') && '\n' !in t + " `" && !IsSpace(t[0])
  {
    forall i | 0 <= i < |a| ensures 'A' <= a[i] <= 'Z' {
      assert a[i] in a;
    }
    forall i | 0 <= i < |b| ensures 'A' <= b[i] <= 'Z' {
      assert b[i] in b;
    }
    var s := a + " " + b + " `";
    var n := |a|;
    assert forall i :: 0 <= i < |s| ==>
      s[i] == if i < n then a[i] else if i == n then ' ' else if i < n + 1 + |b| then b[i - n - 1]
              else if i == n + 1 + |b| then ' ' else '`';
  }

  // ---------------------------------------------------------------------------
  // Exactly when each form comes back

  // The first mark is the only cut.
  lemma CutFirst(s: string, k: nat, l: nat)
    requires CutAt(s, k) && 0 < l < |s| && Mark(s[l..], "TO")
    ensures k <= l && (k == l <==> CutAt(s, l))
  {
  }

  // A printed target is cut at its end or before.
  lemma CutBefore(target: string, rest: string, k: nat)
    requires target != "" && CutAt(Tail(target, rest), k)
    ensures k <= |target| && (k == |target| <==> CutAt(Tail(target, rest), |target|))
  {
    var s := Tail(target, rest);
    assert s[|target|..] == " TO " + rest;
    MarkedTo(rest);
    CutFirst(s, k, |target|);
  }

  function SingleExpected(t: string, x: string, catalog: string): Target {
    if t == "DATABASE" then Target(t, Coordinates(Some(catalog), Some(x), None))
    else Target(t, Coordinates(Some(x), None, None))
  }

  // A part read short of a single name reads as nothing.
  lemma SingleShort(t: string, x: string, rest: string, k: nat, w: string)
    requires t in {"DATABASE", "CATALOG"} && Clean(x)
    requires PartRead(t, x + "`", rest, k, w) && k < |t| + |x| + 3
    ensures TargetOf(t, w).at == NOWHERE
  {
    var j := k - |t| - 2;
    PartIs(t, x + "`", rest, k, w);
    BodyPrefix(x, "`", rest, j);
    assert forall c :: c in x[..j] ==> c in x;
    QuotedOpen(x[..j]);
  }

  lemma BodyPrefix(x: string, more: string, rest: string, j: nat)
    requires j <= |x|
    ensures |Body(x + more, rest)| >= j + 1 && Body(x + more, rest)[..j + 1] == "`" + x[..j]
  {
  }

  lemma BodyWhole(y: string, rest: string)
    ensures |Body(y, rest)| >= |y| + 1 && Body(y, rest)[..|y| + 1] == "`" + y
  {
  }

  lemma SingleWhole(t: string, x: string, rest: string, k: nat, w: string)
    requires PartRead(t, x + "`", rest, k, w) && k == |t| + |x| + 3
    ensures w == "`" + x + "`"
  {
    PartIs(t, x + "`", rest, k, w);
    BodyWhole(x + "`", rest);
  }

  // A database or catalog comes back exactly when its name is legible and not a star.
  lemma SingleReadsBack(t: string, x: string, rest: string, catalog: string)
    requires t in {"DATABASE", "CATALOG"} && x != ""
    requires if t == "DATABASE" then catalog != "" else catalog == ""
    ensures ReadsAs(t + " " + Quoted(x), rest, catalog) == Some(SingleExpected(t, x, catalog)) <==>
            Legible(x) && x != "*"
  {
    var y := SafeIdentifier(x) + "`";
    assert t + " " + Quoted(x) == t + " `" + y;
    var s := Tail(t + " `" + y, rest);
    if LazyTo(s).Some? {
      var k, w := ReadPart(t, y, rest);
      PartReads(t, y, rest, k, w, catalog);
      CleanTarget(t, w);
      SingleVerdict(t, x, rest, catalog, k, w);
    } else {
      SingleUnread(t, x, rest);
    }
  }

  lemma SingleUnread(t: string, x: string, rest: string)
    requires QuotedType(t) && LazyTo(Tail(t + " `" + (SafeIdentifier(x) + "`"), rest)).None?
    ensures !Legible(x)
  {
    if Legible(x) {
      CleanSafe(x);
      SingleRead(t, x, rest);
    }
  }

  lemma SingleRead(t: string, x: string, rest: string)
    requires QuotedType(t)
    ensures Uncut(x) ==> LazyTo(Tail(t + " `" + (x + "`"), rest)).Some?
  {
    SingleUncut(t, x, rest);
    if Uncut(x) {
      LazyToCut(Tail(t + " `" + (x + "`"), rest), |t + " `" + (x + "`")|);
    }
  }

  lemma SingleUncut(t: string, x: string, rest: string)
    requires QuotedType(t)
    ensures var y := t + " `" + (x + "`");
            |y| == |t| + |x| + 3 && (CutAt(Tail(y, rest), |y|) <==> Uncut(x))
  {
    HeadFacts(t);
    SingleCut(t + " `", x, rest);
    assert t + " `" + x + "`" == t + " `" + (x + "`");
  }

  // The whole name is read exactly when nothing in it cuts the text.
  lemma SingleEnd(t: string, x: string, rest: string, k: nat, w: string)
    requires QuotedType(t) && PartRead(t, x + "`", rest, k, w)
    ensures k <= |t| + |x| + 3 && (k == |t| + |x| + 3 <==> Uncut(x))
  {
    SingleUncut(t, x, rest);
    CutBefore(t + " `" + (x + "`"), rest, k);
  }

  // Read in full, the name comes back unless it is a star; cut short, it does not.
  lemma SingleCleanVerdict(t: string, x: string, rest: string, catalog: string, k: nat, w: string)
    requires t in {"DATABASE", "CATALOG"} && x != "" && Clean(x)
    requires if t == "DATABASE" then catalog != "" else catalog == ""
    requires PartRead(t, x + "`", rest, k, w)
    ensures FillTarget(TargetOf(t, w), catalog) == SingleExpected(t, x, catalog) <==> Uncut(x) && x != "*"
  {
    SingleEnd(t, x, rest, k, w);
    if k < |t| + |x| + 3 {
      SingleShort(t, x, rest, k, w);
      SingleFilled(t, x, catalog, TargetOf(t, w));
    } else {
      SingleWholeTarget(t, x, rest, k, w);
      SingleFilled(t, x, catalog, TargetOf(t, w));
    }
  }

  lemma SingleWholeTarget(t: string, x: string, rest: string, k: nat, w: string)
    requires t in {"DATABASE", "CATALOG"} && x != "" && Clean(x)
    requires PartRead(t, x + "`", rest, k, w) && k == |t| + |x| + 3
    ensures TargetOf(t, w) == Target(t, SingleAt(t, x))
  {
    SingleWhole(t, x, rest, k, w);
    SingleTarget(t, x);
  }

  lemma SingleFilled(t: string, x: string, catalog: string, r: Target)
    requires t in {"DATABASE", "CATALOG"} && x != ""
    requires if t == "DATABASE" then catalog != "" else catalog == ""
    ensures r.at == NOWHERE ==> FillTarget(r, catalog) != SingleExpected(t, x, catalog)
    ensures r == Target(t, SingleAt(t, x)) ==>
              (FillTarget(r, catalog) == SingleExpected(t, x, catalog) <==> x != "*")
  {
  }

  lemma SingleVerdict(t: string, x: string, rest: string, catalog: string, k: nat, w: string)
    requires t in {"DATABASE", "CATALOG"} && x != ""
    requires if t == "DATABASE" then catalog != "" else catalog == ""
    requires PartRead(t, SafeIdentifier(x) + "`", rest, k, w)
    requires var at := TargetOf(t, w).at; CleanOption(at.catalog) && CleanOption(at.database)
    ensures FillTarget(TargetOf(t, w), catalog) == SingleExpected(t, x, catalog) <==> Legible(x) && x != "*"
  {
    if Clean(x) {
      CleanSafe(x);
      SingleCleanVerdict(t, x, rest, catalog, k, w);
    }
  }

  // ---------------------------------------------------------------------------

  function PairExpected(t: string, a: string, b: string, catalog: string): Target {
    Target(t, Coordinates(Some(catalog), Some(a), Some(b)))
  }

  lemma PairNames(a: string, b: string)
    ensures a + "`.`" + b + "`" == a + ("`.`" + b + "`") == (a + "`.`" + b) + "`"
    ensures forall j :: 0 <= j <= |b| ==> (a + "`.`" + b)[..|a| + 3 + j] == a + "`.`" + b[..j]
  {
  }

  // A pair is cut inside one of its names.
  lemma PairCutInside(h: string, a: string, b: string, rest: string, k: nat)
    requires h != "" && Calm(h, 'T') && CutAt(Tail(h + (a + "`.`" + b + "`"), rest), k)
    requires k < |h| + |a| + |b| + 4
    ensures |h| <= k < |h| + |a| || |h| + |a| + 3 <= k < |h| + |a| + 3 + |b|
  {
    HeadPair(h, a, b);
    PairText(h, a, b, rest);
    PairMarks(h, a, b, " TO " + rest, k);
  }

  // A pair read short ends inside one of its names.
  lemma PairShortShape(t: string, a: string, b: string, rest: string, k: nat, w: string)
    returns (first: bool, x: string)
    requires QuotedType(t) && Clean(a) && Clean(b)
    requires PartRead(t, a + "`.`" + b + "`", rest, k, w) && k < |t| + |a| + |b| + 6
    ensures Clean(x)
    ensures if first then w == "`" + x else w == "`" + a + "`.`" + x && |x| < |b|
  {
    HeadFacts(t);
    assert t + " `" + (a + "`.`" + b + "`") == (t + " `") + (a + "`.`" + b + "`");
    PairCutInside(t + " `", a, b, rest, k);
    PartIs(t, a + "`.`" + b + "`", rest, k, w);
    PairNames(a, b);
    first := k < |t| + 2 + |a|;
    if first {
      x := a[..k - |t| - 2];
      BodyPrefix(a, "`.`" + b + "`", rest, k - |t| - 2);
      CleanPrefix(a, k - |t| - 2);
    } else {
      var j := k - |t| - 5 - |a|;
      x := b[..j];
      BodyPrefix(a + "`.`" + b, "`", rest, |a| + 3 + j);
      CleanPrefix(b, j);
      PairOpen(a, x);
    }
  }

  lemma CleanPrefix(a: string, j: nat)
    requires Clean(a) && j <= |a|
    ensures Clean(a[..j])
  {
    assert forall c :: c in a[..j] ==> c in a;
  }

  lemma PairOpen(a: string, x: string)
    ensures "`" + (a + "`.`" + x) == "`" + a + "`.`" + x
  {
  }

  lemma PairShort(t: string, a: string, b: string, rest: string, k: nat, w: string)
    requires PairType(t) && Clean(a) && Clean(b) && a != "" && b != ""
    requires PartRead(t, a + "`.`" + b + "`", rest, k, w) && k < |t| + |a| + |b| + 6
    ensures TargetOf(t, w).at.name != Some(b)
  {
    var first, x := PairShortShape(t, a, b, rest, k, w);
    if first {
      FirstCutTarget(t, x);
    } else {
      SecondCutTarget(t, a, x, b);
    }
  }

  lemma PairWhole(t: string, a: string, b: string, rest: string, k: nat, w: string)
    requires PartRead(t, a + "`.`" + b + "`", rest, k, w) && k == |t| + |a| + |b| + 6
    ensures w == "`" + a + "`.`" + b + "`"
  {
    var y := a + "`.`" + b + "`";
    PartIs(t, y, rest, k, w);
    BodyWhole(y, rest);
    PairTicked(a, b);
  }

  lemma PairTicked(a: string, b: string)
    ensures "`" + (a + "`.`" + b + "`") == "`" + a + "`.`" + b + "`"
  {
  }

  lemma PairUncut(t: string, a: string, b: string, rest: string)
    requires QuotedType(t)
    ensures var y := t + " `" + (a + "`.`" + b + "`");
            |y| == |t| + |a| + |b| + 6 && (CutAt(Tail(y, rest), |y|) <==> Uncut(a) && Uncut(b))
  {
    HeadFacts(t);
    HeadPair(t + " `", a, b);
    PairCut(t + " `", a, b, rest, t + " `" + (a + "`.`" + b + "`"));
  }

  lemma HeadPair(h: string, a: string, b: string)
    ensures h + a + "`.`" + b + "`" == h + (a + "`.`" + b + "`")
    ensures |h + a + "`.`" + b + "`"| == |h| + |a| + |b| + 4
  {
  }

  lemma PairEnd(t: string, a: string, b: string, rest: string, k: nat, w: string)
    requires QuotedType(t) && PartRead(t, a + "`.`" + b + "`", rest, k, w)
    ensures k <= |t| + |a| + |b| + 6 && (k == |t| + |a| + |b| + 6 <==> Uncut(a) && Uncut(b))
  {
    PairUncut(t, a, b, rest);
    CutBefore(t + " `" + (a + "`.`" + b + "`"), rest, k);
  }

  lemma PairCleanVerdict(t: string, a: string, b: string, rest: string, catalog: string, k: nat, w: string)
    requires PairType(t) && a != "" && b != "" && catalog != "" && Clean(a) && Clean(b)
    requires PartRead(t, a + "`.`" + b + "`", rest, k, w)
    ensures FillTarget(TargetOf(t, w), catalog) == PairExpected(t, a, b, catalog) <==> Uncut(a) && Uncut(b)
  {
    PairEnd(t, a, b, rest, k, w);
    if k < |t| + |a| + |b| + 6 {
      PairShort(t, a, b, rest, k, w);
      PairMismatch(t, a, b, catalog, TargetOf(t, w));
    } else {
      PairWholeTarget(t, a, b, rest, k, w);
      PairFilled(t, a, b, catalog);
    }
  }

  lemma PairWholeTarget(t: string, a: string, b: string, rest: string, k: nat, w: string)
    requires PairType(t) && a != "" && b != "" && Clean(a) && Clean(b)
    requires PartRead(t, a + "`.`" + b + "`", rest, k, w) && k == |t| + |a| + |b| + 6
    ensures TargetOf(t, w) == Target(t, Coordinates(None, Some(a), Some(b)))
  {
    PairWhole(t, a, b, rest, k, w);
    PairTarget(t, a, b);
  }

  lemma PairMismatch(t: string, a: string, b: string, catalog: string, r: Target)
    requires r.at.name != Some(b)
    ensures FillTarget(r, catalog) != PairExpected(t, a, b, catalog)
  {
  }

  lemma PairFilled(t: string, a: string, b: string, catalog: string)
    requires PairType(t) && catalog != ""
    ensures FillTarget(Target(t, Coordinates(None, Some(a), Some(b))), catalog) == PairExpected(t, a, b, catalog)
  {
  }

  lemma PairVerdict(t: string, a: string, b: string, rest: string, catalog: string, k: nat, w: string)
    requires PairType(t) && a != "" && b != "" && catalog != ""
    requires PartRead(t, SafeIdentifier(a) + "`.`" + SafeIdentifier(b) + "`", rest, k, w)
    requires var at := TargetOf(t, w).at; CleanOption(at.database) && CleanOption(at.name)
    ensures FillTarget(TargetOf(t, w), catalog) == PairExpected(t, a, b, catalog) <==> Legible(a) && Legible(b)
  {
    if Clean(a) && Clean(b) {
      CleanSafe(a);
      CleanSafe(b);
      PairCleanVerdict(t, a, b, rest, catalog, k, w);
    }
  }

  lemma PairQuoted(t: string, a: string, b: string)
    ensures t + " " + ("`" + a + "`") + "." + ("`" + b + "`") == t + " `" + (a + "`.`" + b + "`")
  {
  }

  // A table, view or materialized view comes back exactly when both names are legible.
  lemma PairReadsBack(t: string, a: string, b: string, rest: string, catalog: string)
    requires PairType(t) && a != "" && b != "" && catalog != ""
    ensures ReadsAs(t + " " + Quoted(a) + "." + Quoted(b), rest, catalog) == Some(PairExpected(t, a, b, catalog)) <==>
            Legible(a) && Legible(b)
  {
    var y := SafeIdentifier(a) + "`.`" + SafeIdentifier(b) + "`";
    PairQuoted(t, SafeIdentifier(a), SafeIdentifier(b));
    var s := Tail(t + " `" + y, rest);
    if LazyTo(s).Some? {
      var k, w := ReadPart(t, y, rest);
      PartReads(t, y, rest, k, w, catalog);
      CleanTarget(t, w);
      PairVerdict(t, a, b, rest, catalog, k, w);
    } else {
      PairUnread(t, a, b, rest);
    }
  }

  lemma PairUnread(t: string, a: string, b: string, rest: string)
    requires PairType(t)
    requires LazyTo(Tail(t + " `" + (SafeIdentifier(a) + "`.`" + SafeIdentifier(b) + "`"), rest)).None?
    ensures !(Legible(a) && Legible(b))
  {
    if Legible(a) && Legible(b) {
      CleanSafe(a);
      CleanSafe(b);
      UncutRead(t, a, b, rest);
    }
  }

  lemma UncutRead(t: string, a: string, b: string, rest: string)
    requires QuotedType(t) && Uncut(a) && Uncut(b)
    ensures LazyTo(Tail(t + " `" + (a + "`.`" + b + "`"), rest)).Some?
  {
    PairUncut(t, a, b, rest);
    LazyToCut(Tail(t + " `" + (a + "`.`" + b + "`"), rest), |t| + |a| + |b| + 6);
  }
}
