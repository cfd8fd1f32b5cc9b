/** Which printed grant requests read back as themselves. */
module GrantReadsBack {
  import opened Text
  import opened GrantTypes
  import opened GrantWriter
  import opened GrantParser
  import opened GrantScanFacts
  import opened GrantRoundTrip

  // ---------------------------------------------------------------------------
  // Functions

  // Every newline in the signature comes at or behind white space around the word TO,
  // where the reader has already stopped.
  ghost predicate SignatureReadable(sig: string) {
    forall i :: 0 <= i < |sig| && sig[i] == '\n' ==> StoppedBy(sig, i)
  }

  ghost predicate StoppedBy(sig: string, i: int)
    requires 0 <= i < |sig|
  {
    exists j :: 0 <= j <= i && Mark(sig[j..], "TO")
  }

  function FunctionHead(db: string): string {
    "FUNCTION " + db + "."
  }

  // The plain database name in front of the signature is not cut.
  lemma DatabaseUncut(db: string, y: string, i: nat)
    requires PlainIdent(db) && 0 < i < |FunctionHead(db)|
    ensures !Mark((FunctionHead(db) + y)[i..], "TO")
  {
    var s := FunctionHead(db) + y;
    if i == 8 {
      var x := " " + db;
      assert s[8..] == x + ['.'] + y;
      MarkStops(x, '.', y, "TO");
      assert x[1..] == db && LStrip(x) == db;
      if |db| > 2 {
        assert db[2..][0] == db[2];
      }
    } else {
      assert s[i] == FunctionHead(db)[i];
      HeadSolid(db, i);
      NoMarkAt(s, i);
    }
  }

  lemma HeadSolid(db: string, i: nat)
    requires PlainIdent(db) && i < |FunctionHead(db)| && i != 8
    ensures !IsSpace(FunctionHead(db)[i])
  {
    var word := "FUNCTION";
    assert forall c :: c in word ==> !IsSpace(c);
    if i < 8 {
      assert FunctionHead(db)[i] == word[i] && word[i] in word;
    }
  }

  lemma SignatureMark(h: string, sig: string, rest: string, j: nat)
    requires sig != "" && sig[|sig| - 1] == ')' && j < |sig|
    ensures Mark(Tail(h + sig, rest)[|h| + j..], "TO") <==> Mark(sig[j..], "TO")
  {
    var x := sig[j..|sig| - 1];
    SignatureTail(h, sig, rest, j, x);
    MarkStops(x, ')', "", "TO");
    MarkStops(x, ')', " TO " + rest, "TO");
  }

  lemma SignatureTail(h: string, sig: string, rest: string, j: nat, x: string)
    requires sig != "" && sig[|sig| - 1] == ')' && j < |sig| && x == sig[j..|sig| - 1]
    ensures sig[j..] == x + [')'] + "" && Tail(h + sig, rest)[|h| + j..] == x + [')'] + (" TO " + rest)
  {
  }

  // The text is read exactly when the signature is readable.
  lemma FunctionCut(db: string, sig: string, rest: string)
    requires PlainIdent(db) && sig != "" && sig[|sig| - 1] == ')'
    ensures LazyTo(Tail(FunctionHead(db) + sig, rest)).Some? <==> SignatureReadable(sig)
  {
    var s := Tail(FunctionHead(db) + sig, rest);
    if LazyTo(s).Some? {
      var k := LazyToIsCut(s);
      CutReadable(db, sig, rest, k);
    }
    if SignatureReadable(sig) {
      var k := FirstMark(db, sig, rest);
      ReadableCut(db, sig, rest, k);
      LazyToCut(s, k);
    }
  }

  lemma CutBehindHead(db: string, y: string, k: nat)
    requires PlainIdent(db) && CutAt(FunctionHead(db) + y, k)
    ensures k >= |FunctionHead(db)|
  {
    if k < |FunctionHead(db)| {
      DatabaseUncut(db, y, k);
    }
  }

  lemma TakeHas(s: string, k: nat, p: nat)
    requires k <= |s| && p < |s|
    ensures p < k ==> s[p] in s[..k]
  {
    if p < k {
      assert s[..k][p] == s[p];
    }
  }

  lemma CutBeforeNewline(s: string, k: nat, p: nat)
    requires CutAt(s, k) && p < |s| && s[p] == '\n'
    ensures k <= p
  {
    TakeHas(s, k, p);
  }

  lemma CutReadable(db: string, sig: string, rest: string, k: nat)
    requires PlainIdent(db) && sig != "" && sig[|sig| - 1] == ')'
    requires CutAt(Tail(FunctionHead(db) + sig, rest), k)
    ensures SignatureReadable(sig)
  {
    TailAppended(FunctionHead(db), sig, rest);
    CutBehindHead(db, sig + " TO " + rest, k);
    forall i | 0 <= i < |sig| && sig[i] == '\n' ensures StoppedBy(sig, i) {
      CutStops(FunctionHead(db), sig, rest, k, i);
    }
  }

  lemma CutStops(h: string, sig: string, rest: string, k: nat, i: nat)
    requires sig != "" && sig[|sig| - 1] == ')' && i < |sig| && sig[i] == '\n'
    requires CutAt(Tail(h + sig, rest), k) && k >= |h|
    ensures StoppedBy(sig, i)
  {
    var n := |h|;
    TailAppended(h, sig, rest);
    CutBeforeNewline(Tail(h + sig, rest), k, n + i);
    CutMark(h, sig, rest, k - n);
    assert StoppedBy(sig, i);
  }

  lemma CutMark(h: string, sig: string, rest: string, j: nat)
    requires sig != "" && sig[|sig| - 1] == ')' && j < |sig| && CutAt(Tail(h + sig, rest), |h| + j)
    ensures Mark(sig[j..], "TO")
  {
    SignatureMark(h, sig, rest, j);
  }

  // The position of the first mark.
  lemma FirstMark(db: string, sig: string, rest: string) returns (k: nat)
    ensures var s := Tail(FunctionHead(db) + sig, rest);
            && 0 < k <= |FunctionHead(db) + sig| && Mark(s[k..], "TO")
            && forall i :: 0 < i < k ==> !Mark(s[i..], "TO")
  {
    var t := FunctionHead(db) + sig;
    var s := Tail(t, rest);
    assert s[|t|..] == " TO " + rest;
    MarkedTo(rest);
    k := 1;
    while !Mark(s[k..], "TO")
      invariant 0 < k <= |t|
      invariant forall i :: 0 < i < k ==> !Mark(s[i..], "TO")
      decreases |t| - k
    {
      k := k + 1;
    }
  }

  lemma ReadableCut(db: string, sig: string, rest: string, k: nat)
    requires PlainIdent(db) && sig != "" && sig[|sig| - 1] == ')' && SignatureReadable(sig)
    requires var s := Tail(FunctionHead(db) + sig, rest);
             && 0 < k <= |FunctionHead(db) + sig| && Mark(s[k..], "TO")
             && forall i :: 0 < i < k ==> !Mark(s[i..], "TO")
    ensures CutAt(Tail(FunctionHead(db) + sig, rest), k)
  {
    var h := FunctionHead(db);
    var s := Tail(h + sig, rest);
    var n := |h|;
    forall p | 0 <= p < k ensures s[p] != '\n' {
      if p < n {
        assert s[p] == h[p];
        if p != 8 {
          HeadSolid(db, p);
        }
      } else {
        assert s[p] == sig[p - n];
        forall j | 0 <= j <= p - n ensures !Mark(sig[j..], "TO") {
          SignatureMark(FunctionHead(db), sig, rest, j);
        }
        assert !StoppedBy(sig, p - n);
      }
    }
  }

  lemma {:induction false} TakePathStops(a: string, b: string)
    requires forall i :: 0 <= i < |a| ==> IsWord(a[i]) || a[i] == '.'
    requires b != "" && !IsWord(b[0]) && b[0] !in {'.', '*'}
    ensures TakePath(a + b) == a
  {
    if a == "" {
      assert a + b == b;
    } else {
      assert (a + b)[1..] == a[1..] + b;
      TakePathStops(a[1..], b);
    }
  }

  lemma FunctionWord(t: string)
    requires t == "FUNCTION"
    ensures Upper(t) == t && (forall c :: c in t ==> IsWord(c)) && t[..2] == "FU"
  {
    assert forall c :: c in t ==> 'A' <= c <= 'Z';
    assert forall i :: 0 <= i < |t| ==> t[i] in t;
  }

  // A type word and an unquoted path that ends at an opening parenthesis.
  lemma BarePath(t: string, path: string, y: string)
    requires t != "" && (forall c :: c in t ==> IsWord(c))
    requires path != "" && IsWord(path[0]) && forall i :: 0 <= i < |path| ==> IsWord(path[i]) || path[i] == '.'
    ensures TypeAndPath(t + " " + (path + "(" + y)) == Some((t, path))
  {
    var w := path + "(" + y;
    var on, behind := t + " " + w, " " + w;
    assert on == t + behind;
    TakeWordStops(t, behind);
    assert on[|t|..] == behind && behind[1..] == w;
    assert w[0] == path[0] && LStrip(behind) == w;
    assert w == path + ("(" + y);
    TakePathStops(path, "(" + y);
  }

  // FUNCTION db.base( and whatever follows.
  lemma FunctionClause(t: string, db: string, base: string, y: string)
    requires t == "FUNCTION" && PlainIdent(db) && PlainIdent(base)
    ensures ParseOnClause(t + " " + (db + "." + base + "(" + y)) == OnClause(t, db + "." + base, None)
  {
    var path := db + "." + base;
    var on := t + " " + (path + "(" + y);
    FunctionWord(t);
    assert on[0] == t[0] && on[..2] == t[..2];
    NoAll(on);
    FunctionLeads(on);
    BarePath(t, path, y);
    PathText(db, base);
  }

  lemma PathText(db: string, base: string)
    requires PlainIdent(db) && PlainIdent(base)
    ensures Erase(Strip(db + "." + base), '`') == db + "." + base
  {
    var path := db + "." + base;
    assert path[0] == db[0] && path[|path| - 1] == base[|base| - 1];
    StripTrimmed(path);
    EraseAbsent(path, '`');
  }

  predicate NoneStartsFu(types: seq<string>) {
    forall k :: 0 <= k < |types| ==> |types[k]| >= 2 && (types[k][0] == 'F' ==> types[k][1] == 'A')
  }

  lemma LeadingLetters()
    ensures NoneStartsFu(MULTI_WORD_TYPES)
  {
  }

  lemma FunctionLeads(on: string)
    requires |on| >= 2 && on[..2] == "FU"
    ensures LeadingType(on, MULTI_WORD_TYPES).None?
  {
    assert on[0] == on[..2][0] && on[1] == on[..2][1];
    LeadingLetters();
    NoneLeads(on, MULTI_WORD_TYPES);
  }

  lemma {:induction false} NoneLeads(on: string, types: seq<string>)
    requires |on| >= 2 && on[0] == 'F' && on[1] == 'U' && NoneStartsFu(types)
    ensures LeadingType(on, types).None?
  {
    if types != [] {
      NotFu(on, types[0]);
      NoneLeads(on, types[1..]);
    }
  }

  lemma NotFu(on: string, w: string)
    requires |on| >= 2 && on[0] == 'F' && on[1] == 'U'
    requires |w| >= 2 && (w[0] == 'F' ==> w[1] == 'A')
    ensures !StartsCI(on, w)
  {
    if w[0] == 'F' {
      SecondLetter(on, w);
    } else {
      OtherLetter(on, w);
    }
  }

  lemma SecondLetter(on: string, w: string)
    requires |on| >= 2 && |w| >= 2 && UpperChar(on[1]) != w[1]
    ensures !StartsCI(on, w)
  {
    if |w| <= |on| {
      assert Upper(on[..|w|])[1] == UpperChar(on[1]);
    }
  }

  lemma FunctionAt(t: string, db: string, base: string)
    requires t == "FUNCTION" && PlainIdent(db) && PlainIdent(base)
    ensures TargetAt(t, db + "." + base) == Target(t, Coordinates(None, Some(db), Some(base)))
  {
    SplitPair(db, base);
  }

  lemma FunctionOn(t: string, db: string, base: string, y: string)
    requires t == "FUNCTION" && PlainIdent(db) && PlainIdent(base)
    ensures ParseTarget(t + " " + (db + "." + base + "(" + y)) == Target(t, Coordinates(None, Some(db), Some(base)))
  {
    FunctionClause(t, db, base, y);
    ResolvePath(t, db + "." + base);
    FunctionAt(t, db, base);
  }

  lemma FunctionParse(db: string, base: string, y: string)
    requires PlainIdent(db) && PlainIdent(base)
    ensures ParseTarget(FunctionHead(db) + base + "(" + y) ==
            Target("FUNCTION", Coordinates(None, Some(db), Some(base)))
  {
    var t := "FUNCTION";
    FunctionText(t, db, base, y);
    FunctionOn(t, db, base, y);
  }

  lemma FunctionText(t: string, db: string, base: string, y: string)
    requires t == "FUNCTION"
    ensures FunctionHead(db) + base + "(" + y == t + " " + (db + "." + base + "(" + y)
  {
  }

  function FunctionExpected(db: string, sig: string, catalog: string): Target {
    Target("FUNCTION", Coordinates(Some(catalog), Some(db), Some(Before(sig, '('))))
  }

  lemma SignatureBase(sig: string)
    requires FunctionSignature(sig)
    ensures var base := Before(sig, '('); PlainIdent(base) && |base| < |sig| && sig == base + "(" + sig[|base| + 1..]
  {
  }

  // A text that is read beyond its head.
  lemma ReadBeyond(s: string, head: string, after: string, k: nat) returns (y: string)
    requires CutAt(s, k) && s == head + after && |head| <= k && !IsSpace(s[0])
    ensures Strip(s[..k]) == head + y
  {
    CutTrimmed(s, k);
    y := s[|head|..k];
    assert s[..k] == head + y;
  }

  // However much of the text is read, it contains the name.
  lemma FunctionPart(db: string, sig: string, rest: string) returns (y: string)
    requires PlainIdent(db) && FunctionSignature(sig)
    requires LazyTo(Tail(FunctionHead(db) + sig, rest)).Some?
    ensures Strip(LazyTo(Tail(FunctionHead(db) + sig, rest)).value) == FunctionHead(db) + Before(sig, '(') + "(" + y
  {
    SignatureBase(sig);
    var base := Before(sig, '(');
    y := NamedPart(db, base, sig[|base| + 1..], sig, rest);
  }

  lemma NamedText(h: string, base: string, types: string, rest: string)
    ensures Tail(h + (base + "(" + types), rest) == h + base + "(" + (types + " TO " + rest)
  {
  }

  lemma NamedPart(db: string, base: string, types: string, sig: string, rest: string) returns (y: string)
    requires PlainIdent(db) && PlainIdent(base) && sig == base + "(" + types
    requires LazyTo(Tail(FunctionHead(db) + sig, rest)).Some?
    ensures Strip(LazyTo(Tail(FunctionHead(db) + sig, rest)).value) == FunctionHead(db) + base + "(" + y
  {
    NamedText(FunctionHead(db), base, types, rest);
    y := NamedCut(db, base, types + " TO " + rest);
  }

  lemma NamedCut(db: string, base: string, after: string) returns (y: string)
    requires PlainIdent(db) && PlainIdent(base)
    requires LazyTo(FunctionHead(db) + base + "(" + after).Some?
    ensures Strip(LazyTo(FunctionHead(db) + base + "(" + after).value) == FunctionHead(db) + base + "(" + y
  {
    var head := FunctionHead(db) + base + "(";
    var s := head + after;
    var k := LazyToIsCut(s);
    assert s[0] == 'F';
    CutBehindName(db, base, after, k);
    y := ReadBeyond(s, head, after, k);
  }

  lemma NameSolid(h: string, base: string, after: string, k: nat)
    requires PlainIdent(base)
    ensures |h| <= k < |h| + |base| + 1 ==> !IsSpace((h + base + "(" + after)[k])
  {
    var s := h + base + "(" + after;
    if |h| <= k < |h| + |base| {
      assert s[k] == base[k - |h|];
    } else if k == |h| + |base| {
      assert s[k] == '(';
    }
  }

  lemma CutBehindName(db: string, base: string, after: string, k: nat)
    requires PlainIdent(db) && PlainIdent(base)
    requires CutAt(FunctionHead(db) + base + "(" + after, k)
    ensures k >= |FunctionHead(db) + base + "("|
  {
    var h := FunctionHead(db);
    NameAppended(h, base, after);
    CutBehindHead(db, base + "(" + after, k);
    NameSolid(h, base, after, k);
    CutAtSpace(h + base + "(" + after, k);
  }

  lemma NameAppended(h: string, base: string, after: string)
    ensures h + base + "(" + after == h + (base + "(" + after)
  {
  }

  lemma FunctionFilled(db: string, sig: string, catalog: string)
    requires catalog != ""
    ensures FillTarget(Target("FUNCTION", Coordinates(None, Some(db), Some(Before(sig, '(')))), catalog) ==
            FunctionExpected(db, sig, catalog)
  {
  }

  lemma FunctionReads(db: string, sig: string, rest: string, catalog: string)
    requires PlainIdent(db) && FunctionSignature(sig) && catalog != ""
    requires LazyTo(Tail(FunctionHead(db) + sig, rest)).Some?
    ensures ReadsAs(FunctionHead(db) + sig, rest, catalog) == Some(FunctionExpected(db, sig, catalog))
  {
    var y := FunctionPart(db, sig, rest);
    FunctionParse(db, Before(sig, '('), y);
    FunctionFilled(db, sig, catalog);
  }

  // A function comes back under its base name exactly when its signature is readable.
  lemma FunctionReadsBack(db: string, sig: string, rest: string, catalog: string)
    requires PlainIdent(db) && FunctionSignature(sig) && catalog != ""
    ensures ReadsAs(FunctionHead(db) + sig, rest, catalog) == Some(FunctionExpected(db, sig, catalog)) <==>
            SignatureReadable(sig)
  {
    SignatureEnd(sig);
    FunctionCut(db, sig, rest);
    if SignatureReadable(sig) {
      FunctionReads(db, sig, rest, catalog);
    }
  }
}
