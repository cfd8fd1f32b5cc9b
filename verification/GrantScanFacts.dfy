/** How the scanners read a printed GRANT statement: its privilege list, its marks, its types. */
module GrantScanFacts {
  import opened Text
  import opened GrantTypes
  import opened GrantSpec
  import opened GrantParser

  // ---------------------------------------------------------------------------
  // Privilege lists

  // Every space inside p is followed by a character that is no space and not the letter c.
  predicate Calm(p: string, c: char) {
    forall i :: 0 <= i < |p| && IsSpace(p[i]) ==>
      i + 1 < |p| && !IsSpace(p[i + 1]) && UpperChar(p[i + 1]) != c
  }

  predicate GoodPrivilege(p: string) {
    && Trimmed(p) && Calm(p, 'O') && UpperChar(p[0]) != 'O'
    && ',' !in p && '\n' !in p
  }

  // A word of capital letters that does not start with O.
  predicate CapitalWord(w: string) {
    w != "" && w[0] != 'O' && forall c :: c in w ==> 'A' <= c <= 'Z'
  }

  lemma WordIsGood(w: string)
    requires CapitalWord(w)
    ensures GoodPrivilege(w)
  {
    assert forall i :: 0 <= i < |w| ==> w[i] in w;
  }

  lemma PhraseIsGood(p: string, w: string)
    requires GoodPrivilege(p) && CapitalWord(w)
    ensures GoodPrivilege(p + " " + w)
  {
    var q := p + " " + w;
    forall i | 0 <= i < |w| ensures 'A' <= w[i] <= 'Z' {
      assert w[i] in w;
    }
    assert forall i :: 0 <= i < |q| ==> q[i] == if i < |p| then p[i] else if i == |p| then ' ' else w[i - |p| - 1];
  }

  lemma GoodWords(p: string)
    requires p in {"USAGE", "DROP", "ALL", "ALTER", "SELECT", "INSERT", "UPDATE", "DELETE", "EXPORT", "REFRESH"}
    ensures GoodPrivilege(p)
  {
    assert CapitalWord(p);
    WordIsGood(p);
  }

  lemma GoodCreate(p: string, w: string)
    requires CapitalWord(w) && p == "CREATE" + " " + w
    ensures GoodPrivilege(p)
  {
    WordIsGood("CREATE");
    PhraseIsGood("CREATE", w);
  }

  lemma GoodPhrases(p: string)
    requires p in {"CREATE DATABASE", "CREATE TABLE", "CREATE VIEW", "CREATE FUNCTION"}
    ensures GoodPrivilege(p)
  {
    var w := p[7..];
    assert CapitalWord(w) by {
      assert w == "DATABASE" || w == "TABLE" || w == "VIEW" || w == "FUNCTION";
    }
    assert p == "CREATE" + " " + w;
    GoodCreate(p, w);
  }

  lemma GoodLongPhrase()
    ensures GoodPrivilege("CREATE MATERIALIZED VIEW")
  {
    GoodCreate("CREATE MATERIALIZED", "MATERIALIZED");
    PhraseIsGood("CREATE MATERIALIZED", "VIEW");
    assert "CREATE MATERIALIZED VIEW" == "CREATE MATERIALIZED" + " " + "VIEW";
  }

  lemma AllowedIsGood(objectType: string, p: string)
    requires objectType in GRANTABLE_PRIVILEGES && p in GRANTABLE_PRIVILEGES[objectType]
    ensures GoodPrivilege(p)
  {
    if p in {"USAGE", "DROP", "ALL", "ALTER", "SELECT", "INSERT", "UPDATE", "DELETE", "EXPORT", "REFRESH"} {
      GoodWords(p);
    } else if p == "CREATE MATERIALIZED VIEW" {
      GoodLongPhrase();
    } else {
      GoodPhrases(p);
    }
  }

  // ---------------------------------------------------------------------------
  // Object types

  lemma {:induction false} Lacks(s: string, k: string, c: char)
    requires c in k && c !in s
    ensures !Contains(s, k)
  {
    if |k| <= |s| {
      assert s[..|k|] != k by {
        assert forall x :: x in s[..|k|] ==> x in s;
      }
      Lacks(s[1..], k, c);
    }
  }

  lemma {:induction false} FirstKeywordAt(t: string, i: nat, j: nat)
    requires j <= i < |TYPE_MAP| && Contains(t, TYPE_MAP[i].0)
    requires forall k :: j <= k < i ==> !Contains(t, TYPE_MAP[k].0)
    ensures FirstKeyword(t, TYPE_MAP[j..]) == TYPE_MAP[i].1
    decreases i - j
  {
    assert TYPE_MAP[j..][0] == TYPE_MAP[j] && TYPE_MAP[j..][1..] == TYPE_MAP[j + 1..];
    if j < i {
      FirstKeywordAt(t, i, j + 1);
    }
  }

  // k cannot occur in t: it is longer, or has a letter that t has not.
  ghost predicate Misses(t: string, k: string) {
    |k| > |t| || exists c :: c in k && c !in t
  }

  lemma MissesContains(t: string, k: string)
    requires Misses(t, k)
    ensures !Contains(t, k)
  {
    if |k| <= |t| {
      var c :| c in k && c !in t;
      Lacks(t, k, c);
    }
  }

  // The i-th normal name is the type itself, no earlier keyword occurs in it, and it is no policy.
  lemma NormalAt(t: string, i: nat)
    requires i < |TYPE_MAP| && TYPE_MAP[i] == (t, t) && t != ""
    requires forall k :: 0 <= k < i ==> Misses(t, TYPE_MAP[k].0)
    requires Misses(t, "MASKING") && Misses(t, "ROW ACCESS")
    ensures NormalizeObjectType(t) == t
  {
    assert t[..|t|] == t;
    forall k | 0 <= k < i ensures !Contains(t, TYPE_MAP[k].0) {
      MissesContains(t, TYPE_MAP[k].0);
    }
    MissesContains(t, "MASKING");
    MissesContains(t, "ROW ACCESS");
    FirstKeywordAt(t, i, 0);
    assert TYPE_MAP[0..] == TYPE_MAP;
  }

  lemma NormalTable(t: string)
    requires t == "TABLE"
    ensures NormalizeObjectType(t) == t
  {
    NormalAt(t, 5);
  }

  lemma NormalView(t: string)
    requires t == "VIEW"
    ensures NormalizeObjectType(t) == t
  {
    NormalAt(t, 7);
  }

  lemma NormalMaterializedView(t: string)
    requires t == "MATERIALIZED VIEW"
    ensures NormalizeObjectType(t) == t
  {
    assert 'K' in "MASKING" && 'K' !in t;
    assert 'O' in "ROW ACCESS" && 'O' !in t;
    NormalAt(t, 0);
  }

  lemma NormalDatabase(t: string)
    requires t == "DATABASE"
    ensures NormalizeObjectType(t) == t
  {
    assert 'L' in "TABLE" && 'L' !in t;
    assert 'K' in "MASKING" && 'K' !in t;
    NormalAt(t, 6);
  }

  lemma NormalFunction(t: string)
    requires t == "FUNCTION"
    ensures NormalizeObjectType(t) == t
  {
    assert 'A' in "TABLE" && 'A' in "DATABASE" && 'A' !in t;
    assert 'V' in "VIEW" && 'V' !in t;
    assert 'K' in "MASKING" && 'K' !in t;
    NormalAt(t, 8);
  }

  lemma NormalCatalog(t: string)
    requires t == "CATALOG"
    ensures NormalizeObjectType(t) == t
  {
    assert 'B' in "TABLE" && 'B' !in t;
    assert 'V' in "VIEW" && 'V' !in t;
    assert 'K' in "MASKING" && 'K' !in t;
    NormalAt(t, 9);
  }

  // The types that can be granted on are their own normal form.
  lemma NormalTypes(t: string)
    requires t in OBJECT_SHAPE
    ensures NormalizeObjectType(t) == t
  {
    if t == "TABLE" {
      NormalTable(t);
    } else if t == "VIEW" {
      NormalView(t);
    } else if t == "MATERIALIZED VIEW" {
      NormalMaterializedView(t);
    } else if t == "DATABASE" {
      NormalDatabase(t);
    } else if t == "FUNCTION" {
      NormalFunction(t);
    } else {
      NormalCatalog(t);
    }
  }

  // ---------------------------------------------------------------------------
  // Scanning

  // A character that is no part of the mark ends it: what follows does not matter.
  lemma MarkStops(x: string, c: char, y: string, word: string)
    requires |word| == 2 && !IsSpace(c) && UpperChar(c) !in word
    ensures Mark(x + [c] + y, word) <==> Mark(x, word)
  {
    var tail := [c] + y;
    assert x + [c] + y == x + tail;
    LStripConcat(x, tail);
    var t := LStrip(x);
    if t == "" {
      assert Upper(tail)[0] == UpperChar(c) && word[0] in word;
      if |tail| >= 2 {
        assert Upper(tail[..2])[0] == UpperChar(c);
      }
    } else {
      var whole := t + tail;
      if |t| >= 2 {
        assert whole[..2] == t[..2];
        if |t| > 2 {
          assert whole[2..][0] == t[2..][0];
        } else {
          assert whole[2..][0] == c;
        }
      } else {
        assert Upper(whole[..2])[1] == UpperChar(c) && word[1] in word;
      }
    }
  }

  // Nothing that starts inside a calm text is a mark.
  lemma CalmNoMark(v: string, z: string, word: string)
    requires v != "" && word != "" && Calm(v, word[0])
    ensures !Mark(v + z, word)
  {
    if IsSpace(v[0]) {
      var t := (v + z)[1..];
      assert t[0] == v[1];
      assert LStrip(v + z) == LStrip(t) == t;
      if |word| <= |t| {
        assert Upper(t[..|word|])[0] == UpperChar(v[1]);
      }
    } else {
      assert (v + z)[0] == v[0];
    }
  }

  lemma CalmSuffix(p: string, c: char, i: nat)
    requires Calm(p, c) && i <= |p|
    ensures Calm(p[i..], c)
  {
  }

  // The first mark of s behind its first character is at k, and no newline comes before it.
  ghost predicate CutAt(s: string, k: nat) {
    && 0 < k < |s| && Mark(s[k..], "TO") && '\n' !in s[..k]
    && forall i :: 0 < i < k ==> !Mark(s[i..], "TO")
  }

  lemma {:induction false} LazyToCut(s: string, k: nat)
    requires CutAt(s, k)
    ensures LazyTo(s) == Some(s[..k])
    decreases k
  {
    assert s[0] == s[..k][0];
    if k > 1 {
      var t := s[1..];
      assert !Mark(s[1..], "TO");
      assert t[k - 1..] == s[k..];
      assert forall c :: c in t[..k - 1] ==> c in s[..k];
      forall i | 0 < i < k - 1 ensures !Mark(t[i..], "TO") {
        assert t[i..] == s[i + 1..];
      }
      LazyToCut(t, k - 1);
      assert s[..k] == [s[0]] + t[..k - 1];
    } else {
      assert s[..1] == [s[0]];
    }
  }

  lemma {:induction false} LazyToIsCut(s: string) returns (k: nat)
    requires LazyTo(s).Some?
    ensures CutAt(s, k) && LazyTo(s) == Some(s[..k])
  {
    if Mark(s[1..], "TO") {
      k := 1;
      assert s[..1] == [s[0]];
    } else {
      var t := s[1..];
      var j := LazyToIsCut(t);
      k := j + 1;
      CutShift(s, t, j);
    }
  }

  // A text is cut one character later than the text behind its first character.
  lemma CutShift(s: string, t: string, j: nat)
    requires s != "" && s[0] != '\n' && t == s[1..] && CutAt(t, j) && !Mark(t, "TO")
    ensures CutAt(s, j + 1) && s[..j + 1] == [s[0]] + t[..j]
  {
    assert s[j + 1..] == t[j..];
    forall i | 0 < i < j + 1 ensures !Mark(s[i..], "TO") {
      assert i > 1 ==> s[i..] == t[i - 1..];
    }
  }

  lemma MarkExtends(c: char, s: string, word: string)
    ensures IsSpace(c) && Mark(s, word) ==> Mark([c] + s, word)
  {
    assert ([c] + s)[1..] == s;
  }

  // A text cut at its first mark ends just before white space, and not in white space.
  lemma CutTrimmed(s: string, k: nat)
    requires CutAt(s, k) && !IsSpace(s[0])
    ensures Trimmed(s[..k]) && Strip(s[..k]) == s[..k]
  {
    MarkExtends(s[k - 1], s[k..], "TO");
    assert [s[k - 1]] + s[k..] == s[k - 1..];
    assert s[..k][0] == s[0] && s[..k][k - 1] == s[k - 1];
    StripTrimmed(s[..k]);
  }

  lemma {:induction false} LazyOnPrefix(s: string)
    requires LazyOn(s).Some?
    ensures LazyOn(s).value.0 != "" && LazyOn(s).value.0 <= s
  {
    var here := if Mark(s[1..], "ON") then SpacedTo(BehindMark(s[1..], "ON")) else None;
    if here.None? {
      LazyOnPrefix(s[1..]);
      assert s == [s[0]] + s[1..];
    }
  }

  // The privileges end at the mark in front of z when what follows reads as a target ...
  lemma {:induction false} LazyOnStops(p: string, z: string)
    requires p != "" && '\n' !in p && Calm(p, 'O')
    requires Mark(z, "ON") && SpacedTo(BehindMark(z, "ON")).Some?
    ensures LazyOn(p + z) == Some((p, SpacedTo(BehindMark(z, "ON")).value))
  {
    var s := p + z;
    assert s[0] == p[0] && s[1..] == p[1..] + z;
    if |p| == 1 {
      assert s[1..] == z && p == [p[0]];
    } else {
      CalmSuffix(p, 'O', 1);
      CalmNoMark(p[1..], z, "ON");
      LazyOnStops(p[1..], z);
      assert p == [p[0]] + p[1..];
    }
  }

  // ... and otherwise run on well into it, if anything is found at all.
  lemma {:induction false} LazyOnRunsOn(p: string, z: string)
    requires p != "" && '\n' !in p && Calm(p, 'O')
    requires Mark(z, "ON") && SpacedTo(BehindMark(z, "ON")).None? && |z| > 1 && !IsSpace(z[1])
    requires LazyOn(p + z).Some?
    ensures |LazyOn(p + z).value.0| >= |p| + 2
  {
    var s := p + z;
    assert s[0] == p[0] && s[1..] == p[1..] + z;
    if |p| == 1 {
      assert s[1..] == z && !StartsWithSpace(z[1..]);
      LazyOnPrefix(z[1..]);
    } else {
      CalmSuffix(p, 'O', 1);
      CalmNoMark(p[1..], z, "ON");
      LazyOnRunsOn(p[1..], z);
    }
  }

  // ---------------------------------------------------------------------------
  // Lists of privileges read back

  function EachOn(target: Target, grantee: string, granteeType: GranteeType, privs: seq<string>): (r: seq<Grant>)
    ensures |r| == |privs|
    ensures forall i :: 0 <= i < |privs| ==> r[i] == GrantOn(target, grantee, granteeType, privs[i])
  {
    seq(|privs|, i requires 0 <= i < |privs| => GrantOn(target, grantee, granteeType, privs[i]))
  }

  function PrivsOf(grants: seq<Grant>): (r: seq<string>)
    ensures |r| == |grants| && forall i :: 0 <= i < |grants| ==> r[i] == grants[i].privilege
  {
    seq(|grants|, i requires 0 <= i < |grants| => grants[i].privilege)
  }

  lemma {:induction false} GrantsOnFirst(
      target: Target, grantee: string, granteeType: GranteeType, p: string, privs: seq<string>)
    ensures GrantsOn(target, grantee, granteeType, [p] + privs) ==
            GrantsOn(target, grantee, granteeType, [p]) + GrantsOn(target, grantee, granteeType, privs)
    decreases |privs|
  {
    if privs == [] {
      assert [p] + privs == [p];
    } else {
      var n := |privs| - 1;
      GrantsOnFirst(target, grantee, granteeType, p, privs[..n]);
      assert ([p] + privs)[..n + 1] == [p] + privs[..n];
    }
  }

  lemma GrantsOnOne(target: Target, grantee: string, granteeType: GranteeType, p: string)
    ensures GrantsOn(target, grantee, granteeType, [p]) ==
            if Strip(p) == "" then [] else [GrantOn(target, grantee, granteeType, Strip(p))]
  {
    assert [p][..0] == [];
  }

  lemma StripLead(lead: string, p: string)
    requires lead in {"", " "} && Trimmed(p)
    ensures Strip(lead + p) == p
  {
    if lead == "" {
      assert lead + p == p;
    } else {
      assert (lead + p)[1..] == p;
    }
  }

  lemma JoinStep(lead: string, privs: seq<string>)
    requires |privs| > 1
    ensures lead + Join(privs, ", ") == (lead + privs[0]) + [','] + (" " + Join(privs[1..], ", "))
  {
  }

  lemma EachOnFirst(target: Target, grantee: string, granteeType: GranteeType, privs: seq<string>)
    requires privs != []
    ensures EachOn(target, grantee, granteeType, privs) ==
            [GrantOn(target, grantee, granteeType, privs[0])] + EachOn(target, grantee, granteeType, privs[1..])
  {
  }

  lemma {:induction false} ListReadsBack(
      target: Target, grantee: string, granteeType: GranteeType, lead: string, privs: seq<string>)
    requires privs != [] && lead in {"", " "}
    requires forall i :: 0 <= i < |privs| ==> Trimmed(privs[i]) && ',' !in privs[i]
    ensures GrantsOn(target, grantee, granteeType, Split(lead + Join(privs, ", "), ',')) ==
            EachOn(target, grantee, granteeType, privs)
    decreases |privs|
  {
    var p := privs[0];
    StripLead(lead, p);
    GrantsOnOne(target, grantee, granteeType, lead + p);
    if |privs| == 1 {
      assert ',' !in lead + p;
      assert Split(lead + p, ',') == [lead + p];
    } else {
      var rest := Split(" " + Join(privs[1..], ", "), ',');
      JoinStep(lead, privs);
      SplitAt(lead + p, ',', " " + Join(privs[1..], ", "));
      ListReadsBack(target, grantee, granteeType, " ", privs[1..]);
      GrantsOnFirst(target, grantee, granteeType, lead + p, rest);
      EachOnFirst(target, grantee, granteeType, privs);
    }
  }

  // The printed list as a text: calm, on one line, trimmed.
  lemma {:induction false} JoinGood(privs: seq<string>)
    requires privs != [] && forall i :: 0 <= i < |privs| ==> GoodPrivilege(privs[i])
    ensures var p := Join(privs, ", ");
            Trimmed(p) && Calm(p, 'O') && UpperChar(p[0]) != 'O' && '\n' !in p
  {
    if |privs| > 1 {
      var a, b := privs[0], Join(privs[1..], ", ");
      JoinGood(privs[1..]);
      var p := a + ", " + b;
      var n := |a|;
      assert forall i :: 0 <= i < |p| ==>
        p[i] == if i < n then a[i] else if i == n then ',' else if i == n + 1 then ' ' else b[i - n - 2];
    }
  }

  // How many characters of s are neither white space nor commas.
  function Weight(s: string): nat {
    if s == "" then 0 else (if IsSpace(s[0]) || s[0] == ',' then 0 else 1) + Weight(s[1..])
  }

  function WeightOf(ps: seq<string>): nat {
    if ps == [] then 0 else Weight(ps[0]) + WeightOf(ps[1..])
  }

  lemma {:induction false} WeightConcat(a: string, b: string)
    ensures Weight(a + b) == Weight(a) + Weight(b)
  {
    if a == "" {
      assert a + b == b;
    } else {
      assert (a + b)[1..] == a[1..] + b;
      WeightConcat(a[1..], b);
    }
  }

  lemma {:induction false} WeightBlank(s: string)
    requires forall i :: 0 <= i < |s| ==> IsSpace(s[i])
    ensures Weight(s) == 0
  {
    if s != "" {
      WeightBlank(s[1..]);
    }
  }

  lemma {:induction false} WeightLStrip(s: string)
    ensures Weight(LStrip(s)) == Weight(s)
  {
    if StartsWithSpace(s) {
      WeightLStrip(s[1..]);
    }
  }

  lemma WeightStrip(s: string)
    ensures Weight(Strip(s)) == Weight(s)
  {
    var t := LStrip(s);
    var r := RStrip(t);
    WeightLStrip(s);
    assert t == r + t[|r|..];
    WeightConcat(r, t[|r|..]);
    WeightBlank(t[|r|..]);
  }

  lemma {:induction false} WeightOfConcat(a: seq<string>, b: seq<string>)
    ensures WeightOf(a + b) == WeightOf(a) + WeightOf(b)
  {
    if a == [] {
      assert a + b == b;
    } else {
      assert (a + b)[1..] == a[1..] + b;
      WeightOfConcat(a[1..], b);
    }
  }

  lemma OneWeight(target: Target, grantee: string, granteeType: GranteeType, p: string)
    ensures WeightOf(PrivsOf(GrantsOn(target, grantee, granteeType, [p]))) == Weight(p)
  {
    WeightStrip(p);
    GrantsOnOne(target, grantee, granteeType, p);
    var ps := PrivsOf(GrantsOn(target, grantee, granteeType, [p]));
    assert ps == if Strip(p) == "" then [] else [Strip(p)];
    if ps != [] {
      assert ps[1..] == [];
    }
  }

  lemma JoinWeights(a: seq<Grant>, b: seq<Grant>)
    ensures WeightOf(PrivsOf(a + b)) == WeightOf(PrivsOf(a)) + WeightOf(PrivsOf(b))
  {
    assert PrivsOf(a + b) == PrivsOf(a) + PrivsOf(b);
    WeightOfConcat(PrivsOf(a), PrivsOf(b));
  }

  lemma CommaWeight(s: string, head: string, rest: string)
    requires s == head + [','] + rest
    ensures Weight(s) == Weight(head) + Weight(rest)
  {
    WeightConcat(head + [','], rest);
    WeightConcat(head, [',']);
  }

  // Splitting at commas and stripping loses no weight.
  lemma {:induction false} ListWeight(target: Target, grantee: string, granteeType: GranteeType, s: string)
    ensures WeightOf(PrivsOf(GrantsOn(target, grantee, granteeType, Split(s, ',')))) == Weight(s)
    decreases |s|
  {
    var head := Before(s, ',');
    OneWeight(target, grantee, granteeType, head);
    if |head| < |s| {
      var rest := s[|head| + 1..];
      CommaWeight(s, head, rest);
      ListWeight(target, grantee, granteeType, rest);
      ConsWeight(target, grantee, granteeType, head, Split(rest, ','));
    } else {
      assert head == s;
    }
  }

  lemma ConsWeight(target: Target, grantee: string, granteeType: GranteeType, p: string, ps: seq<string>)
    ensures WeightOf(PrivsOf(GrantsOn(target, grantee, granteeType, [p] + ps))) ==
            WeightOf(PrivsOf(GrantsOn(target, grantee, granteeType, [p])))
            + WeightOf(PrivsOf(GrantsOn(target, grantee, granteeType, ps)))
  {
    GrantsOnFirst(target, grantee, granteeType, p, ps);
    JoinWeights(GrantsOn(target, grantee, granteeType, [p]), GrantsOn(target, grantee, granteeType, ps));
  }
}
