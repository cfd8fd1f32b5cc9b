/**
  What the expression for function signatures accepts, read with all its choices:
  Leaves...(s, t) says that the part of the expression can match a prefix of s and leave t.
  The scanner of GrantWriter, which never goes back on a choice, accepts the same texts.
 */
module SignatureLanguage {
  import opened Text
  import opened GrantTypes
  import opened GrantWriter

  // \s*
  predicate LeavesBlank(s: string, t: string) {
    s == t || (StartsWithSpace(s) && LeavesBlank(s[1..], t))
  }

  // \w+
  predicate LeavesWord(s: string, t: string) {
    s != "" && IsWord(s[0]) && (t == s[1..] || LeavesWord(s[1..], t))
  }

  // \d+
  predicate LeavesDigits(s: string, t: string) {
    s != "" && '0' <= s[0] <= '9' && (t == s[1..] || LeavesDigits(s[1..], t))
  }

  // [A-Za-z0-9_,<> ]*>
  predicate LeavesAngle(s: string, t: string) {
    && s != ""
    && ((s[0] == '>' && t == s[1..]) || (AngleChar(s[0]) && LeavesAngle(s[1..], t)))
  }

  // \s*\)
  predicate LeavesClose(s: string, t: string) {
    (HasPrefix(s, ")") && t == s[1..]) || (StartsWithSpace(s) && LeavesClose(s[1..], t))
  }

  // \s*\d+
  ghost predicate LeavesNumber(s: string, t: string) {
    exists b :: LeavesBlank(s, b) && LeavesDigits(b, t)
  }

  // \s*,\s*\d+
  ghost predicate LeavesNext(s: string, t: string) {
    exists b :: LeavesBlank(s, b) && HasPrefix(b, ",") && LeavesNumber(b[1..], t)
  }

  // \s*\d+(\s*,\s*\d+)?\s*\)
  ghost predicate LeavesSizes(s: string, t: string) {
    exists a, b :: LeavesNumber(s, a) && (b == a || LeavesNext(a, b)) && LeavesClose(b, t)
  }

  // \w+(<...>)?
  ghost predicate LeavesName(s: string, t: string) {
    exists w :: LeavesWord(s, w) && (t == w || (HasPrefix(w, "<") && LeavesAngle(w[1..], t)))
  }

  // One type.
  ghost predicate LeavesType(s: string, t: string) {
    exists a :: LeavesName(s, a) && (t == a || (HasPrefix(a, "(") && LeavesSizes(a[1..], t)))
  }

  // TYPE(\s*,\s*TYPE)*\s*\) and then the end, with n types behind the first.
  ghost predicate Types(s: string, n: nat)
    decreases n, 1
  {
    exists t :: LeavesType(s, t) && if n == 0 then LeavesClose(t, "") else MoreTypes(t, n)
  }

  ghost predicate MoreTypes(t: string, n: nat)
    requires n > 0
    decreases n, 0
  {
    exists b, c :: LeavesBlank(t, b) && HasPrefix(b, ",") && LeavesBlank(b[1..], c) && Types(c, n - 1)
  }

  // \w+\(\s*(TYPE(\s*,\s*TYPE)*)?\s*\) and then the end.
  ghost predicate Signature(s: string) {
    exists w, b ::
      && LeavesWord(s, w) && HasPrefix(w, "(") && LeavesBlank(w[1..], b)
      && (LeavesClose(b, "") || SomeTypes(b))
  }

  ghost predicate SomeTypes(s: string) {
    exists n: nat :: Types(s, n)
  }

  // ---------------------------------------------------------------------------
  // Parts with one way to match

  lemma {:induction false} BlankIs(s: string, t: string)
    requires !StartsWithSpace(t)
    ensures LeavesBlank(s, t) <==> t == LStrip(s)
    decreases |s|
  {
    if StartsWithSpace(s) {
      BlankIs(s[1..], t);
    }
  }

  lemma {:induction false} CloseIs(s: string, t: string)
    ensures LeavesClose(s, t) <==> HasPrefix(LStrip(s), ")") && t == LStrip(s)[1..]
    decreases |s|
  {
    if StartsWithSpace(s) {
      CloseIs(s[1..], t);
    }
  }

  predicate StartsWithWord(s: string) {
    s != "" && IsWord(s[0])
  }

  predicate StartsWithDigit(s: string) {
    s != "" && '0' <= s[0] <= '9'
  }

  lemma {:induction false} WordIs(s: string, t: string)
    requires !StartsWithWord(t)
    ensures LeavesWord(s, t) <==> AfterWord(s) == Some(t)
  {
    if StartsWithWord(s) {
      assert TakeWord(s) == [s[0]] + TakeWord(s[1..]);
      assert s[|TakeWord(s)|..] == s[1..][|TakeWord(s[1..])|..];
      WordIs(s[1..], t);
    }
  }

  lemma {:induction false} DigitsAre(s: string, t: string)
    requires !StartsWithDigit(t)
    ensures LeavesDigits(s, t) <==> t == AfterDigits(s) && |t| < |s|
  {
    if StartsWithDigit(s) {
      DigitsAre(s[1..], t);
    }
  }

  lemma NumberIs(s: string, t: string)
    requires !StartsWithDigit(t)
    ensures LeavesNumber(s, t) <==> t == AfterDigits(LStrip(s)) && |t| < |LStrip(s)|
  {
    DigitsAre(LStrip(s), t);
    BlankIs(s, LStrip(s));
    forall b | LeavesBlank(s, b) && LeavesDigits(b, t) ensures b == LStrip(s) {
      BlankIs(s, b);
    }
  }

  lemma NextIs(s: string, t: string)
    requires !StartsWithDigit(t)
    ensures LeavesNext(s, t) <==>
            var rest := LStrip(s);
            HasPrefix(rest, ",") && t == AfterDigits(LStrip(rest[1..])) && |t| < |LStrip(rest[1..])|
  {
    var rest := LStrip(s);
    BlankIs(s, rest);
    if HasPrefix(rest, ",") {
      NumberIs(rest[1..], t);
    }
    forall b | LeavesBlank(s, b) && HasPrefix(b, ",") ensures b == rest {
      BlankIs(s, b);
    }
  }

  // What may follow a part: white space, or one of the characters that end it.
  predicate Follows(s: string, c: char) {
    s != "" && (IsSpace(s[0]) || s[0] == c)
  }

  lemma CloseFollows(s: string, t: string)
    requires LeavesClose(s, t)
    ensures Follows(s, ')')
  {
  }

  lemma NextFollows(s: string, t: string)
    requires LeavesNext(s, t)
    ensures Follows(s, ',')
  {
    var b :| LeavesBlank(s, b) && HasPrefix(b, ",") && LeavesNumber(b[1..], t);
  }

  lemma DigitsLeaveNone(s: string)
    ensures !StartsWithDigit(AfterDigits(s))
  {
  }

  lemma SizesFound(s: string, t: string)
    requires LeavesSizes(s, t)
    ensures AfterSizes(s) == Some(t)
  {
    var a, b :| LeavesNumber(s, a) && (b == a || LeavesNext(a, b)) && LeavesClose(b, t);
    CloseFollows(b, t);
    CloseIs(b, t);
    if b != a {
      NextFollows(a, b);
      NextIs(a, b);
    }
    NumberIs(s, a);
  }

  lemma SizesLeft(s: string, t: string)
    requires AfterSizes(s) == Some(t)
    ensures LeavesSizes(s, t)
  {
    var a := AfterDigits(LStrip(s));
    DigitsLeaveNone(LStrip(s));
    NumberIs(s, a);
    if HasPrefix(LStrip(a), ")") {
      CloseIs(a, t);
    } else {
      var second := LStrip(LStrip(a)[1..]);
      var b := AfterDigits(second);
      DigitsLeaveNone(second);
      NextIs(a, b);
      CloseIs(b, t);
    }
  }

  // ---------------------------------------------------------------------------
  // The part with several ways to match

  lemma {:induction false} AngleLeft(s: string, t: string)
    requires AfterAngle(s) == Some(t)
    ensures LeavesAngle(s, t)
  {
    if AfterAngle(s[1..]).Some? {
      AngleLeft(s[1..], t);
    }
  }

  // The scanner leaves the end of the last possible match.
  lemma {:induction false} AngleFound(s: string, t: string)
    requires LeavesAngle(s, t)
    ensures AfterAngle(s) == if AfterAngle(t).Some? then AfterAngle(t) else Some(t)
  {
    if !(s[0] == '>' && t == s[1..]) {
      AngleFound(s[1..], t);
    }
  }

  lemma {:induction false} AngleOverBlank(s: string, r: string)
    requires AfterAngle(s) == Some(r)
    ensures AfterAngle(LStrip(s)) == Some(r)
    decreases |s|
  {
    if StartsWithSpace(s) {
      AngleOverBlank(s[1..], r);
    }
  }

  lemma {:induction false} AngleOverWord(s: string, t: string, r: string)
    requires AfterAngle(s) == Some(r) && AfterWord(s) == Some(t)
    ensures AfterAngle(t) == Some(r)
    decreases |s|
  {
    assert AfterAngle(s[1..]) == Some(r);
    assert TakeWord(s) == [s[0]] + TakeWord(s[1..]);
    if StartsWithWord(s[1..]) {
      assert s[|TakeWord(s)|..] == s[1..][|TakeWord(s[1..])|..];
      AngleOverWord(s[1..], t, r);
    } else {
      assert TakeWord(s[1..]) == "";
    }
  }

  // The scanner goes on from here to the end of the list of types.
  predicate Continues(r: string) {
    var t := if HasPrefix(r, "(") then AfterSizes(r[1..]) else Some(r);
    t.Some? && EndsList(t.value)
  }

  predicate EndsList(t: string) {
    var rest := LStrip(t);
    rest == ")" || (HasPrefix(rest, ",") && TypesThenEnd(LStrip(rest[1..])))
  }

  lemma ListOverAngle(t: string, r: string)
    requires EndsList(t) && AfterAngle(t) == Some(r)
    ensures var rest := LStrip(t);
            HasPrefix(rest, ",") && TypesThenEnd(LStrip(rest[1..])) && AfterAngle(LStrip(rest[1..])) == Some(r)
  {
    AngleOverBlank(t, r);
    AngleOverComma(LStrip(t), r);
    AngleOverBlank(LStrip(t)[1..], r);
  }

  lemma AngleOverComma(s: string, r: string)
    requires AfterAngle(s) == Some(r) && (s == ")" || HasPrefix(s, ","))
    ensures HasPrefix(s, ",") && AfterAngle(s[1..]) == Some(r)
  {
  }

  // A list that the scanner accepts is also accepted from behind the last '>' of its
  // leading run of angle characters: the type that this '>' closes ends there anyway.
  lemma {:induction false} FromLastAngle(s: string, r: string)
    requires TypesThenEnd(s) && AfterAngle(s) == Some(r)
    ensures Continues(r)
    decreases |s|
  {
    var w := AfterWord(s).value;
    AngleOverWord(s, w, r);
    if HasPrefix(w, "<") {
      assert AfterAngle(w) == AfterAngle(w[1..]);
    } else {
      assert !HasPrefix(w, "(");
      ListOverAngle(w, r);
      FromLastAngle(LStrip(LStrip(w)[1..]), r);
    }
  }

  // ---------------------------------------------------------------------------
  // Lists of types

  // What can follow a type.
  predicate Ending(t: string) {
    Follows(t, ')') || Follows(t, ',')
  }

  lemma TypesStart(s: string)
    requires TypesThenEnd(s)
    ensures StartsWithWord(s)
  {
  }

  lemma NextList(t: string, b: string, c: string)
    requires LeavesBlank(t, b) && HasPrefix(b, ",") && LeavesBlank(b[1..], c) && StartsWithWord(c)
    ensures HasPrefix(LStrip(t), ",") && c == LStrip(LStrip(t)[1..]) && Ending(t)
  {
    BlankIs(t, b);
    BlankIs(b[1..], c);
    StripFollows(t, ',');
  }

  lemma MoreFound(t: string, c: string)
    requires HasPrefix(LStrip(t), ",") && c == LStrip(LStrip(t)[1..]) && TypesThenEnd(c)
    ensures EndsList(t)
  {
  }

  lemma StripFollows(t: string, c: char)
    requires HasPrefix(LStrip(t), [c])
    ensures Follows(t, c)
  {
    StartsWith(LStrip(t), c);
  }

  lemma CloseFound(t: string)
    requires LeavesClose(t, "")
    ensures EndsList(t) && Ending(t)
  {
    CloseIs(t, "");
    CloseFollows(t, "");
  }

  lemma PlainContinues(a: string)
    requires EndsList(a) && Ending(a)
    ensures Continues(a)
  {
    NoParen(a);
  }

  lemma NoParen(a: string)
    requires Ending(a)
    ensures !HasPrefix(a, "(")
  {
    StartsWith(a, '(');
  }

  lemma StartsWith(s: string, c: char)
    ensures HasPrefix(s, [c]) ==> s != "" && s[0] == c
  {
    if HasPrefix(s, [c]) {
      assert s[..1][0] == s[0];
    }
  }

  lemma SizesContinue(a: string, t: string)
    requires EndsList(t) && HasPrefix(a, "(") && LeavesSizes(a[1..], t)
    ensures Continues(a)
  {
    SizesFound(a[1..], t);
  }

  lemma NoAngleInSizes(a: string)
    requires HasPrefix(a, "(")
    ensures AfterAngle(a).None?
  {
  }

  lemma LastAngleContinues(a: string, r: string)
    requires Continues(a) && AfterAngle(a) == Some(r)
    ensures Continues(r)
  {
    if HasPrefix(a, "(") {
      NoAngleInSizes(a);
    } else {
      ListOverAngle(a, r);
      FromLastAngle(LStrip(LStrip(a)[1..]), r);
    }
  }

  lemma AngleContinues(w: string, a: string)
    requires LeavesAngle(w, a) && Continues(a)
    ensures AfterAngle(w).Some? && Continues(AfterAngle(w).value)
  {
    AngleFound(w, a);
    if AfterAngle(a).Some? {
      LastAngleContinues(a, AfterAngle(a).value);
    }
  }

  lemma NameFound(s: string, a: string)
    requires LeavesName(s, a) && Continues(a) && (Ending(a) || HasPrefix(a, "("))
    ensures TypesThenEnd(s)
  {
    var w :| LeavesWord(s, w) && (a == w || (HasPrefix(w, "<") && LeavesAngle(w[1..], a)));
    WordIs(s, w);
    if a == w {
      ListFrom(s, w, a);
    } else {
      AngleContinues(w[1..], a);
      ListFrom(s, w, AfterAngle(w[1..]).value);
    }
  }

  lemma ListFrom(s: string, w: string, r: string)
    requires AfterWord(s) == Some(w) && Continues(r)
    requires if HasPrefix(w, "<") then AfterAngle(w[1..]) == Some(r) else r == w
    ensures TypesThenEnd(s)
  {
  }

  lemma TypeFound(s: string, t: string)
    requires LeavesType(s, t) && EndsList(t) && Ending(t)
    ensures TypesThenEnd(s)
  {
    var a :| LeavesName(s, a) && (t == a || (HasPrefix(a, "(") && LeavesSizes(a[1..], t)));
    if t == a {
      PlainContinues(a);
    } else {
      SizesContinue(a, t);
    }
    NameFound(s, a);
  }

  lemma FirstType(s: string, n: nat) returns (t: string)
    requires Types(s, n)
    ensures LeavesType(s, t) && (n == 0 ==> LeavesClose(t, "")) && (n > 0 ==> MoreTypes(t, n))
  {
    t :| LeavesType(s, t) && if n == 0 then LeavesClose(t, "") else MoreTypes(t, n);
  }

  lemma NextType(t: string, n: nat) returns (b: string, c: string)
    requires n > 0 && MoreTypes(t, n)
    ensures LeavesBlank(t, b) && HasPrefix(b, ",") && LeavesBlank(b[1..], c) && Types(c, n - 1)
  {
    b, c :| LeavesBlank(t, b) && HasPrefix(b, ",") && LeavesBlank(b[1..], c) && Types(c, n - 1);
  }

  lemma {:induction false} TypesFound(s: string, n: nat)
    requires Types(s, n)
    ensures TypesThenEnd(s)
    decreases n
  {
    var t := FirstType(s, n);
    if n == 0 {
      CloseFound(t);
    } else {
      var b, c := NextType(t, n);
      TypesFound(c, n - 1);
      TypesStart(c);
      NextList(t, b, c);
      MoreFound(t, c);
    }
    TypeFound(s, t);
  }

  lemma TypeLeft(s: string)
    requires AfterType(s).Some?
    ensures LeavesType(s, AfterType(s).value)
  {
    var w := AfterWord(s).value;
    WordIs(s, w);
    var a := if HasPrefix(w, "<") then AfterAngle(w[1..]).value else w;
    if HasPrefix(w, "<") {
      AngleLeft(w[1..], a);
    }
    assert LeavesName(s, a);
    if HasPrefix(a, "(") {
      SizesLeft(a[1..], AfterType(s).value);
    }
  }

  lemma LastLeft(s: string, t: string)
    requires LeavesType(s, t) && LStrip(t) == ")"
    ensures SomeTypes(s)
  {
    CloseIs(t, "");
    assert Types(s, 0);
  }

  lemma MoreLeft(s: string, t: string)
    requires LeavesType(s, t) && HasPrefix(LStrip(t), ",") && SomeTypes(LStrip(LStrip(t)[1..]))
    ensures SomeTypes(s)
  {
    var n: nat :| Types(LStrip(LStrip(t)[1..]), n);
    BlankIs(t, LStrip(t));
    BlankIs(LStrip(t)[1..], LStrip(LStrip(t)[1..]));
    assert MoreTypes(t, n + 1);
    assert Types(s, n + 1);
  }

  lemma {:induction false} TypesLeft(s: string)
    requires TypesThenEnd(s)
    ensures SomeTypes(s)
    decreases |s|
  {
    TypeLeft(s);
    var t := AfterType(s).value;
    if LStrip(t) == ")" {
      LastLeft(s, t);
    } else {
      TypesLeft(LStrip(LStrip(t)[1..]));
      MoreLeft(s, t);
    }
  }

  // ---------------------------------------------------------------------------
  // Signatures

  lemma BaseLeft(s: string, w: string)
    requires HasPrefix(w, "(") && PlainIdent(Before(s, '(')) && w == s[|Before(s, '(')|..]
    ensures LeavesWord(s, w)
  {
    var base := Before(s, '(');
    assert s == base + w;
    TakeWordStops(base, w);
    WordIs(s, w);
  }

  lemma BaseFound(s: string, w: string)
    requires HasPrefix(w, "(") && LeavesWord(s, w)
    ensures PlainIdent(Before(s, '(')) && w == s[|Before(s, '(')|..]
  {
    WordIs(s, w);
    var word := TakeWord(s);
    WordThenParen(s, word, w);
  }

  lemma WordThenParen(s: string, word: string, w: string)
    requires HasPrefix(w, "(") && s == word + w && '(' !in word
    ensures Before(s, '(') == word
  {
    assert s == word + "(" + w[1..];
    BeforeStops(word, '(', w[1..]);
  }

  lemma {:induction false} BlankThenClose(s: string, t: string)
    requires LeavesBlank(s, t)
    ensures LStrip(s) == LStrip(t)
    decreases |s|
  {
    if s != t {
      BlankThenClose(s[1..], t);
    }
  }

  // The scanner accepts exactly what the expression accepts.
  lemma SignatureExact(s: string)
    ensures FunctionSignature(s) <==> Signature(s)
  {
    if FunctionSignature(s) {
      SignatureLeft(s);
    }
    if w, b :| LeavesWord(s, w) && HasPrefix(w, "(") && LeavesBlank(w[1..], b)
               && (LeavesClose(b, "") || SomeTypes(b))
    {
      SignatureFound(s, w, b);
    }
  }

  lemma SignatureLeft(s: string)
    requires FunctionSignature(s)
    ensures Signature(s)
  {
    var w := s[|Before(s, '(')|..];
    var b := LStrip(w[1..]);
    BaseLeft(s, w);
    BlankIs(w[1..], b);
    CloseIs(b, "");
    if b != ")" {
      TypesLeft(b);
    }
  }

  lemma SignatureFound(s: string, w: string, b: string)
    requires LeavesWord(s, w) && HasPrefix(w, "(") && LeavesBlank(w[1..], b)
    requires LeavesClose(b, "") || SomeTypes(b)
    ensures FunctionSignature(s)
  {
    BaseFound(s, w);
    BlankThenClose(w[1..], b);
    if LeavesClose(b, "") {
      CloseIs(b, "");
    } else {
      var n: nat :| Types(b, n);
      TypesFound(b, n);
      TypesStart(b);
    }
  }
}
