/** ASCII string helpers with the meaning of the Python methods and regex classes they model. */
module Text {

  function UpperChar(c: char): char {
    if 'a' <= c <= 'z' then (c as int - 32) as char else c
  }

  function Upper(s: string): (r: string)
    ensures |r| == |s| && forall i :: 0 <= i < |s| ==> r[i] == UpperChar(s[i])
  {
    seq(|s|, i requires 0 <= i < |s| => UpperChar(s[i]))
  }

  // Letters become capitals ...
  lemma UpperLetters(s: string)
    requires s == "abcdefghijklmnopqrstuvwxyz"
    ensures Upper(s) == "ABCDEFGHIJKLMNOPQRSTUVWXYZ"
  {
  }

  // ... and everything else stays.
  lemma UpperOthers(c: char)
    ensures c in "abcdefghijklmnopqrstuvwxyz" || UpperChar(c) == c
  {
    var letters := "abcdefghijklmnopqrstuvwxyz";
    if 'a' <= c <= 'z' {
      assert letters[c as int - 'a' as int] == c;
    }
  }

  // The ASCII characters that \s and str.split() treat as white space.
  predicate IsSpace(c: char) {
    c == ' ' || '\t' <= c <= '\r' || '\U{1c}' <= c <= '\U{1f}'
  }

  // \w
  predicate IsWord(c: char) {
    'a' <= c <= 'z' || 'A' <= c <= 'Z' || '0' <= c <= '9' || c == '_'
  }

  // s up to its first c, or all of s.
  function Before(s: string, c: char): (r: string)
    ensures r <= s && c !in r
    ensures |r| < |s| ==> s[|r|] == c
    ensures c in s <==> |r| < |s|
  {
    if s == "" || s[0] == c then "" else [s[0]] + Before(s[1..], c)
  }

  predicate StartsWithSpace(s: string) {
    s != "" && IsSpace(s[0])
  }

  // s without leading white space.
  function LStrip(s: string): (r: string)
    ensures r == "" || !IsSpace(r[0])
    ensures |r| <= |s| && (StartsWithSpace(s) ==> |r| < |s|)
    ensures !StartsWithSpace(s) ==> r == s
  {
    if StartsWithSpace(s) then LStrip(s[1..]) else s
  }

  // s without trailing white space.
  function RStrip(s: string): (r: string)
    ensures r <= s
    ensures forall i :: |r| <= i < |s| ==> IsSpace(s[i])
    ensures s != "" && !IsSpace(s[|s| - 1]) ==> r == s
  {
    if s != "" && IsSpace(s[|s| - 1]) then RStrip(s[..|s| - 1]) else s
  }

  function Strip(s: string): string {
    RStrip(LStrip(s))
  }

  // A string that stripping leaves alone.
  predicate Trimmed(s: string) {
    s != "" && !IsSpace(s[0]) && !IsSpace(s[|s| - 1])
  }

  lemma StripTrimmed(s: string)
    requires Trimmed(s)
    ensures Strip(s) == s
  {
  }

  // s starts with w up to case; w is written in upper case.
  predicate StartsCI(s: string, w: string) {
    |w| <= |s| && Upper(s[..|w|]) == w
  }

  predicate HasPrefix(s: string, p: string) {
    |p| <= |s| && s[..|p|] == p
  }

  // `k in s`
  predicate Contains(s: string, k: string) {
    |k| <= |s| && (s[..|k|] == k || (s != "" && Contains(s[1..], k)))
  }

  // s.split(c)
  function Split(s: string, c: char): (r: seq<string>)
    ensures r != []
    decreases |s|
  {
    var head := Before(s, c);
    if |head| == |s| then [s] else [head] + Split(s[|head| + 1..], c)
  }

  // sep.join(parts)
  function Join(parts: seq<string>, sep: string): string {
    if parts == [] then ""
    else if |parts| == 1 then parts[0]
    else parts[0] + sep + Join(parts[1..], sep)
  }

  // s.replace(c, "")
  function Erase(s: string, c: char): string {
    if s == "" then "" else (if s[0] == c then "" else [s[0]]) + Erase(s[1..], c)
  }

  // The longest prefix of \w characters.
  function TakeWord(s: string): (r: string)
    ensures r <= s && forall c :: c in r ==> IsWord(c)
    ensures |r| < |s| ==> !IsWord(s[|r|])
  {
    if s != "" && IsWord(s[0]) then [s[0]] + TakeWord(s[1..]) else ""
  }

  // The longest prefix without white space.
  function TakeSolid(s: string): (r: string)
    ensures r <= s
  {
    if s != "" && !IsSpace(s[0]) then [s[0]] + TakeSolid(s[1..]) else ""
  }

  // s.split() on white space.
  function Words(s: string): seq<string>
    decreases |s|
  {
    var t := LStrip(s);
    if t == "" then []
    else
      var w := TakeSolid(t);
      assert |w| > 0;
      [w] + Words(t[|w|..])
  }

  // A text without white space.
  predicate Solid(x: string) {
    x != "" && forall i :: 0 <= i < |x| ==> !IsSpace(x[i])
  }

  predicate Blank(s: string) {
    forall i :: 0 <= i < |s| ==> IsSpace(s[i])
  }

  // ---------------------------------------------------------------------------
  // Facts about the helpers

  lemma {:induction false} SolidTaken(a: string, b: string)
    requires forall i :: 0 <= i < |a| ==> !IsSpace(a[i])
    requires b == "" || IsSpace(b[0])
    ensures TakeSolid(a + b) == a
  {
    if a == "" {
      assert a + b == b;
    } else {
      assert (a + b)[1..] == a[1..] + b;
      SolidTaken(a[1..], b);
    }
  }

  lemma {:induction false} BlankStrips(lead: string, s: string)
    requires Blank(lead)
    ensures LStrip(lead + s) == LStrip(s)
  {
    if lead == "" {
      assert lead + s == s;
    } else {
      assert (lead + s)[1..] == lead[1..] + s;
      BlankStrips(lead[1..], s);
    }
  }

  lemma {:induction false} BlankEnds(s: string, trail: string)
    requires Blank(trail) && s != "" && !IsSpace(s[|s| - 1])
    ensures RStrip(s + trail) == s
    decreases |trail|
  {
    if trail == "" {
      assert s + trail == s;
    } else {
      assert (s + trail)[..|s + trail| - 1] == s + trail[..|trail| - 1];
      BlankEnds(s, trail[..|trail| - 1]);
    }
  }

  // Stripping takes exactly the white space at both ends.
  lemma StripMeaning(lead: string, s: string, trail: string)
    requires Blank(lead) && Blank(trail) && Trimmed(s)
    ensures Strip(lead + s + trail) == s
  {
    assert lead + s + trail == lead + (s + trail);
    BlankStrips(lead, s + trail);
    assert (s + trail)[0] == s[0];
    BlankEnds(s, trail);
  }

  // The first word of a text, and the words behind it.
  lemma WordsFirst(lead: string, w: string, rest: string)
    requires Blank(lead) && Solid(w) && (rest == "" || IsSpace(rest[0]))
    ensures Words(lead + w + rest) == [w] + Words(rest)
  {
    assert lead + w + rest == lead + (w + rest);
    BlankStrips(lead, w + rest);
    assert (w + rest)[0] == w[0];
    SolidTaken(w, rest);
    assert (w + rest)[|w|..] == rest;
  }

  lemma WordsNone(s: string)
    requires Blank(s)
    ensures Words(s) == []
  {
    BlankStrips(s, "");
    assert s + "" == s;
  }

  lemma {:induction false} BeforeStops(a: string, c: char, rest: string)
    requires c !in a
    ensures Before(a + [c] + rest, c) == a
  {
    if a == "" {
      assert (a + [c] + rest)[0] == c;
    } else {
      assert (a + [c] + rest)[1..] == a[1..] + [c] + rest;
      BeforeStops(a[1..], c, rest);
    }
  }

  lemma BeforeAll(a: string, c: char)
    requires c !in a
    ensures Before(a, c) == a
  {
  }

  lemma SplitAt(a: string, c: char, rest: string)
    requires c !in a
    ensures Split(a + [c] + rest, c) == [a] + Split(rest, c)
  {
    BeforeStops(a, c, rest);
    assert (a + [c] + rest)[|a| + 1..] == rest;
  }

  lemma {:induction false} EraseConcat(a: string, b: string, c: char)
    ensures Erase(a + b, c) == Erase(a, c) + Erase(b, c)
  {
    if a == "" {
      assert a + b == b;
    } else {
      assert (a + b)[1..] == a[1..] + b;
      EraseConcat(a[1..], b, c);
    }
  }

  lemma {:induction false} EraseAbsent(a: string, c: char)
    requires c !in a
    ensures Erase(a, c) == a
  {
    if a != "" {
      EraseAbsent(a[1..], c);
    }
  }

  lemma {:induction false} LStripConcat(a: string, b: string)
    ensures LStrip(a + b) == if LStrip(a) == "" then LStrip(b) else LStrip(a) + b
  {
    if a == "" {
      assert a + b == b;
    } else {
      assert (a + b)[1..] == a[1..] + b;
      if IsSpace(a[0]) {
        LStripConcat(a[1..], b);
      }
    }
  }

  lemma {:induction false} TakeWordStops(a: string, b: string)
    requires forall c :: c in a ==> IsWord(c)
    requires b == "" || !IsWord(b[0])
    ensures TakeWord(a + b) == a
  {
    if a == "" {
      assert a + b == b;
    } else {
      assert (a + b)[1..] == a[1..] + b;
      TakeWordStops(a[1..], b);
    }
  }
}
