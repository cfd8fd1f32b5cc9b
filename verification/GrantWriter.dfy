/** Printing of GRANT and REVOKE statements from structured requests. */
module GrantWriter {
  import opened Text
  import opened GrantTypes
  import opened GrantSpec
  import opened SqlSafety

  datatype Action = GRANT | REVOKE
  datatype Kind = PRIVILEGE | ASSIGNMENT

  datatype GranteeRef = GranteeRef(name: string, granteeType: GranteeType)

  datatype ObjectRef = ObjectRef(
    objectType: string, catalog: Option<string>, database: Option<string>, name: Option<string>)

  datatype GrantRequest = GrantRequest(
    action: Action,
    kind: Kind,
    grantee: GranteeRef,
    target: Option<ObjectRef>,
    privileges: seq<string>,
    role: Option<string>,
    withGrantOption: bool)

  // ---------------------------------------------------------------------------
  // Grantees

  predicate IsAlnum(c: char) {
    'a' <= c <= 'z' || 'A' <= c <= 'Z' || '0' <= c <= '9'
  }

  // [A-Za-z0-9_.-]+
  predicate UserPart(s: string) {
    s != "" && forall i :: 0 <= i < |s| ==> IsAlnum(s[i]) || s[i] in {'_', '.', '-'}
  }

  // [A-Za-z0-9_.%-]+
  predicate HostPart(s: string) {
    s != "" && forall i :: 0 <= i < |s| ==> IsAlnum(s[i]) || s[i] in {'_', '.', '%', '-'}
  }

  // [A-Za-z0-9_]+
  predicate PlainIdent(s: string) {
    s != "" && forall i :: 0 <= i < |s| ==> IsWord(s[i])
  }

  // '([^']+)'@'([^']+)'
  function QuotedIdentity(s: string): Option<(string, string)> {
    if s == "" || s[0] != '\'' then None
    else
      var user := Before(s[1..], '\'');
      WithHost(user, QuotedHost(s[1 + |user|..]))
  }

  function WithHost(user: string, host: Option<string>): Option<(string, string)> {
    if user == "" || host.None? then None else Some((user, host.value))
  }

  // '@'([^']+)'
  function QuotedHost(s: string): Option<string> {
    if !HasPrefix(s, "'@'") then None
    else
      var host := Before(s[3..], '\'');
      if host == "" || s[3 + |host|..] != "'" then None else Some(host)
  }

  function IdentityParts(s: string): (string, string) {
    var quoted := QuotedIdentity(s);
    if quoted.Some? then quoted.value
    else
      var user := Before(s, '@');
      if |user| < |s| then (user, s[|user| + 1..]) else (s, "%")
  }

  // 'alice', 'alice@%' and the quoted 'alice'@'%' form.
  function ParseUserIdentity(raw: string): Result<(string, string)> {
    var (user, host) := IdentityParts(Strip(raw));
    if !UserPart(user) then Err(BadUser(user))
    else if !HostPart(host) then Err(BadHost(host))
    else Ok((user, host))
  }

  function RenderIdentity(user: string, host: string): string {
    "'" + user + "'@'" + host + "'"
  }

  function FormatGrantee(g: GranteeRef): Result<string> {
    if g.granteeType == USER then
      var (user, host) :- ParseUserIdentity(g.name);
      Ok("USER " + RenderIdentity(user, host))
    else if UserPart(g.name) then Ok("ROLE `" + g.name + "`")
    else Err(BadRole(g.name))
  }

  // ---------------------------------------------------------------------------
  // Function signatures: name(type, type, ...)

  // What is left of a text ends as the text does.
  predicate SameEnd(r: string, s: string) {
    r != "" ==> s != "" && r[|r| - 1] == s[|s| - 1]
  }

  lemma {:induction false} StrippedEnd(s: string)
    ensures SameEnd(LStrip(s), s)
  {
    if StartsWithSpace(s) {
      StrippedEnd(s[1..]);
    }
  }

  // s behind a non-empty run of \w characters.
  function AfterWord(s: string): (r: Option<string>)
    ensures r.Some? ==> |r.value| < |s| && SameEnd(r.value, s)
  {
    var w := TakeWord(s);
    if w == "" then None else Some(s[|w|..])
  }

  predicate AngleChar(c: char) {
    IsWord(c) || c in {',', '<', '>', ' '}
  }

  // s behind the last '>' of its leading run of angle characters. An earlier '>' leaves
  // the same set of signatures, because later ones can only close a later type.
  function AfterAngle(s: string): (r: Option<string>)
    ensures r.Some? ==> |r.value| < |s| && SameEnd(r.value, s)
  {
    if s == "" || !AngleChar(s[0]) then None
    else
      var later := AfterAngle(s[1..]);
      if later.Some? then later else if s[0] == '>' then Some(s[1..]) else None
  }

  function AfterDigits(s: string): (r: string)
    ensures |r| <= |s| && SameEnd(r, s)
  {
    if s != "" && '0' <= s[0] <= '9' then AfterDigits(s[1..]) else s
  }

  // s behind `\s*\d+(\s*,\s*\d+)?\s*\)`.
  function AfterSizes(s: string): (r: Option<string>)
    ensures r.Some? ==> |r.value| < |s| && SameEnd(r.value, s)
  {
    var first := LStrip(s);
    var rest := LStrip(AfterDigits(first));
    StrippedEnd(s);
    StrippedEnd(AfterDigits(first));
    if |AfterDigits(first)| == |first| then None
    else if HasPrefix(rest, ")") then Some(rest[1..])
    else if !HasPrefix(rest, ",") then None
    else
      var second := LStrip(rest[1..]);
      var tail := LStrip(AfterDigits(second));
      StrippedEnd(rest[1..]);
      StrippedEnd(AfterDigits(second));
      if |AfterDigits(second)| < |second| && HasPrefix(tail, ")") then Some(tail[1..]) else None
  }

  // s behind one type: a word, then optionally <...>, then optionally (n) or (n, n).
  function AfterType(s: string): (r: Option<string>)
    ensures r.Some? ==> |r.value| < |s| && SameEnd(r.value, s)
  {
    var word := AfterWord(s);
    if word.None? then None
    else
      var angle := if HasPrefix(word.value, "<") then AfterAngle(word.value[1..]) else word;
      if angle.None? then None
      else if HasPrefix(angle.value, "(") then AfterSizes(angle.value[1..])
      else angle
  }

  // `TYPE(\s*,\s*TYPE)*\s*\)` and then the end.
  predicate TypesThenEnd(s: string)
    decreases |s|
  {
    var after := AfterType(s);
    after.Some? &&
    var rest := LStrip(after.value);
    rest == ")" || (HasPrefix(rest, ",") && TypesThenEnd(LStrip(rest[1..])))
  }

  lemma SameEndOn(r: string, m: string, s: string)
    requires SameEnd(r, m) && SameEnd(m, s)
    ensures SameEnd(r, s)
  {
  }

  lemma {:induction false} TypesEnd(s: string)
    requires TypesThenEnd(s)
    ensures SameEnd(")", s)
    decreases |s|
  {
    var after := AfterType(s).value;
    StrippedEnd(after);
    SameEndOn(LStrip(after), after, s);
    if LStrip(after) != ")" {
      TypesEnd(LStrip(LStrip(after)[1..]));
      NextEnd(LStrip(after));
      SameEndOn(")", LStrip(after), s);
    }
  }

  lemma NextEnd(s: string)
    requires s != "" && SameEnd(")", LStrip(s[1..]))
    ensures SameEnd(")", s)
  {
    StrippedEnd(s[1..]);
    SameEndOn(")", LStrip(s[1..]), s[1..]);
    SameEndOn(")", s[1..], s);
  }

  lemma SignatureEnd(s: string)
    requires FunctionSignature(s)
    ensures SameEnd(")", s)
  {
    var next := s[|Before(s, '(')| + 1..];
    if LStrip(next) != ")" {
      TypesEnd(LStrip(next));
    }
    StrippedEnd(next);
    SameEndOn(")", LStrip(next), next);
    SameEndOn(")", next, s);
  }

  predicate FunctionSignature(s: string) {
    var base := Before(s, '(');
    && PlainIdent(base) && |base| < |s|
    && var inside := LStrip(s[|base| + 1..]);
       (inside == ")" || TypesThenEnd(inside))
  }

  // ---------------------------------------------------------------------------
  // Statements

  function FormatObject(o: ObjectRef): Result<string> {
    if o.objectType == "CATALOG" then Ok("CATALOG " + Quoted(OrEmpty(o.catalog)))
    else if o.objectType == "DATABASE" then Ok("DATABASE " + Quoted(OrEmpty(o.database)))
    else if o.objectType == "FUNCTION" then
      if !PlainIdent(OrEmpty(o.database)) then Err(BadFunctionDatabase(OrEmpty(o.database)))
      else if !FunctionSignature(OrEmpty(o.name)) then Err(BadSignature(OrEmpty(o.name)))
      else Ok("FUNCTION " + OrEmpty(o.database) + "." + OrEmpty(o.name))
    else Ok(o.objectType + " " + Quoted(OrEmpty(o.database)) + "." + Quoted(OrEmpty(o.name)))
  }

  datatype Built = Built(statements: seq<string>, warnings: seq<string>)

  function BuildAssignment(req: GrantRequest, grantee: string): Result<Built> {
    if !Given(req.role) then Err(NoRole)
    else if req.target.Some? || req.privileges != [] then Err(RoleTakesNoObject)
    else if req.withGrantOption then Err(RoleTakesNoOption)
    else if !UserPart(req.role.value) then Err(BadRole(req.role.value))
    else
      var role := "`" + req.role.value + "`";
      Ok(Built([if req.action == GRANT then "GRANT " + role + " TO " + grantee
                else "REVOKE " + role + " FROM " + grantee], []))
  }

  function PrintStatement(req: GrantRequest, privileges: seq<string>, target: string, grantee: string): string {
    if req.action == GRANT then
      "GRANT " + Join(privileges, ", ") + " ON " + target + " TO " + grantee
      + if req.withGrantOption then " WITH GRANT OPTION" else ""
    else "REVOKE " + Join(privileges, ", ") + " ON " + target + " FROM " + grantee
  }

  const SIGNATURE_WARNING :=
    "Function grants require the signature to exactly match the definition (e.g. (INT,INT))."

  // The statement sequence for a request, or the first validation error.
  function BuildStatements(req: GrantRequest): Result<Built> {
    var grantee :- FormatGrantee(req.grantee);
    if req.kind == ASSIGNMENT then BuildAssignment(req, grantee)
    else if req.target.None? then Err(NoObject)
    else if req.action == REVOKE && req.withGrantOption then Err(RevokeTakesNoOption)
    else
      var o := req.target.value;
      var _ :- ValidateObjectShape(o.objectType, o.catalog, o.database, o.name);
      var privileges :- CheckedPrivileges(o.objectType, req.privileges);
      var target :- FormatObject(o);
      // Names of three parts are not accepted, so the catalog is pinned first.
      var pin := if o.objectType != "CATALOG" then ["SET CATALOG " + Quoted(OrEmpty(o.catalog))] else [];
      Ok(Built(pin + [PrintStatement(req, privileges, target, grantee)],
               if o.objectType == "FUNCTION" then [SIGNATURE_WARNING] else []))
  }

  // ---------------------------------------------------------------------------
  // Identities read back

  lemma QuotedReadsBack(user: string, host: string)
    requires user != "" && host != "" && '\'' !in user && '\'' !in host
    ensures QuotedIdentity(RenderIdentity(user, host)) == Some((user, host))
  {
    RenderShape(user, host);
    QuotedHostRead(host);
    BeforeStops(user, '\'', "@'" + host + "'");
    QuotedUserRead(RenderIdentity(user, host), user, QuotedHost("'@'" + (host + "'")));
  }

  lemma QuotedUserRead(s: string, user: string, host: Option<string>)
    requires s != "" && s[0] == '\'' && Before(s[1..], '\'') == user && QuotedHost(s[1 + |user|..]) == host
    ensures QuotedIdentity(s) == WithHost(user, host)
  {
  }

  lemma QuotedHostRead(host: string)
    requires host != "" && '\'' !in host
    ensures QuotedHost("'@'" + (host + "'")) == Some(host)
  {
    TailShape(host);
    BeforeStops(host, '\'', "");
  }

  lemma RenderShape(user: string, host: string)
    ensures var s := RenderIdentity(user, host);
            && s != "" && s[0] == '\'' && s[1..] == user + ['\''] + ("@'" + host + "'")
            && s[1 + |user|..] == "'@'" + (host + "'")
  {
  }

  lemma TailShape(host: string)
    ensures var t := "'@'" + (host + "'");
            HasPrefix(t, "'@'") && t[3..] == host + ['\''] + "" && t[3 + |host|..] == "'"
  {
  }

  // The rendered form of every accepted identity is accepted again and means the same
  // pair, whichever of the three spellings was given.
  lemma IdentityReadsBack(raw: string)
    requires ParseUserIdentity(raw).Ok?
    ensures var (user, host) := ParseUserIdentity(raw).value;
            ParseUserIdentity(RenderIdentity(user, host)) == Ok((user, host))
  {
    var (user, host) := ParseUserIdentity(raw).value;
    var s := RenderIdentity(user, host);
    assert s[0] == '\'' && s[|s| - 1] == '\'';
    StripTrimmed(s);
    QuotedReadsBack(user, host);
  }

  // So two accepted identities are rendered alike only when they mean the same pair.
  lemma RenderingInjective(r1: string, r2: string)
    requires ParseUserIdentity(r1).Ok? && ParseUserIdentity(r2).Ok?
    requires var (u1, h1) := ParseUserIdentity(r1).value;
             var (u2, h2) := ParseUserIdentity(r2).value;
             RenderIdentity(u1, h1) == RenderIdentity(u2, h2)
    ensures ParseUserIdentity(r1) == ParseUserIdentity(r2)
  {
    IdentityReadsBack(r1);
    IdentityReadsBack(r2);
  }
}
