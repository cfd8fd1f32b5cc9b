/** Quoting of identifiers inside backticks. */
module SqlSafety {
  import opened GrantTypes

  // Every backtick doubled.
  function SafeIdentifier(v: string): string {
    if v == "" then "" else (if v[0] == '`' then "``" else [v[0]]) + SafeIdentifier(v[1..])
  }

  function Quoted(v: string): string {
    "`" + SafeIdentifier(v) + "`"
  }

  // How SQL reads a quoted identifier whose opening backtick has been consumed: a pair of
  // backticks stands for one, a single one closes. Returns the value and the rest.
  function ReadQuotedBody(s: string): Option<(string, string)> {
    if s == "" then None
    else if s[0] != '`' then Prepend(s[0], ReadQuotedBody(s[1..]))
    else if |s| > 1 && s[1] == '`' then Prepend('`', ReadQuotedBody(s[2..]))
    else Some(("", s[1..]))
  }

  function Prepend(c: char, r: Option<(string, string)>): Option<(string, string)> {
    if r.Some? then Some(([c] + r.value.0, r.value.1)) else None
  }

  function ReadQuoted(s: string): Option<(string, string)> {
    if s != "" && s[0] == '`' then ReadQuotedBody(s[1..]) else None
  }

  lemma {:induction false} ReadBody(v: string, rest: string)
    requires rest == "" || rest[0] != '`'
    ensures ReadQuotedBody(SafeIdentifier(v) + "`" + rest) == Some((v, rest))
  {
    var s := SafeIdentifier(v) + "`" + rest;
    if v == "" {
      assert s == "`" + rest;
    } else {
      ReadBody(v[1..], rest);
      if v[0] == '`' {
        assert s[2..] == SafeIdentifier(v[1..]) + "`" + rest;
      } else {
        assert s[1..] == SafeIdentifier(v[1..]) + "`" + rest;
      }
      assert v == [v[0]] + v[1..];
    }
  }

  lemma {:induction false} ReadLeavesLess(s: string)
    ensures ReadQuotedBody(s).Some? ==> |ReadQuotedBody(s).value.1| < |s|
  {
    if s != "" && s[0] != '`' {
      ReadLeavesLess(s[1..]);
    } else if |s| > 1 && s[1] == '`' {
      ReadLeavesLess(s[2..]);
    }
  }

  lemma {:induction false} ReadTooFar(v: string, rest: string)
    requires rest != "" && rest[0] == '`'
    ensures var r := ReadQuotedBody(SafeIdentifier(v) + "`" + rest); r.Some? ==> |r.value.1| < |rest|
  {
    var s := SafeIdentifier(v) + "`" + rest;
    if v == "" {
      assert s == "`" + rest;
      assert s[2..] == rest[1..];
      ReadLeavesLess(rest[1..]);
    } else {
      ReadTooFar(v[1..], rest);
      if v[0] == '`' {
        assert s[2..] == SafeIdentifier(v[1..]) + "`" + rest;
      } else {
        assert s[1..] == SafeIdentifier(v[1..]) + "`" + rest;
      }
    }
  }

  // Whatever the name, reading it back gives the name and exactly the text behind it,
  // if and only if that text does not itself start with a backtick.
  lemma QuotingReadsBack(v: string, rest: string)
    ensures ReadQuoted(Quoted(v) + rest) == Some((v, rest)) <==> (rest == "" || rest[0] != '`')
  {
    assert (Quoted(v) + rest)[1..] == SafeIdentifier(v) + "`" + rest;
    if rest == "" || rest[0] != '`' {
      ReadBody(v, rest);
    } else {
      ReadTooFar(v, rest);
    }
  }

  // Two names are quoted alike only when they are equal.
  lemma QuotingInjective(v: string, w: string)
    requires Quoted(v) == Quoted(w)
    ensures v == w
  {
    QuotingReadsBack(v, "");
    QuotingReadsBack(w, "");
    assert Quoted(v) + "" == Quoted(v) && Quoted(w) + "" == Quoted(w);
  }

  // `A`.`B` reads back as the pair, whatever the two names contain.
  lemma QuotedPairReadsBack(a: string, b: string, rest: string)
    requires rest == "" || rest[0] != '`'
    ensures var first := ReadQuoted(Quoted(a) + "." + Quoted(b) + rest);
            && first.Some? && first.value.0 == a && first.value.1 != ""
            && first.value.1[0] == '.' && ReadQuoted(first.value.1[1..]) == Some((b, rest))
  {
    var tail := "." + Quoted(b) + rest;
    assert Quoted(a) + "." + Quoted(b) + rest == Quoted(a) + tail;
    QuotingReadsBack(a, tail);
    assert tail[1..] == Quoted(b) + rest;
    QuotingReadsBack(b, rest);
  }
}
