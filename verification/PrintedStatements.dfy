/**
  What the printed statements of a request say, piece by piece: which requests are printed
  at all, to whom, on what, and what a revocation shares with its grant.
 */
module PrintedStatements {
  import opened Text
  import opened GrantTypes
  import opened GrantSpec
  import opened SqlSafety
  import opened GrantWriter

  // ---------------------------------------------------------------------------
  // Grantees

  // The three spellings of an identity.
  predicate Spells(s: string, user: string, host: string) {
    || (s == user && host == "%")
    || s == user + "@" + host
    || s == "'" + user + "'@'" + host + "'"
  }

  predicate Identifies(raw: string, user: string, host: string) {
    UserPart(user) && HostPart(host) && Spells(Strip(raw), user, host)
  }

  lemma QuotedSpelling(s: string, user: string, host: string)
    requires UserPart(user) && HostPart(host) && s == "'" + user + "'@'" + host + "'"
    ensures IdentityParts(s) == (user, host)
  {
    assert s == RenderIdentity(user, host);
    NoMark(user, host, '\'');
    QuotedReadsBack(user, host);
  }

  lemma NoMark(user: string, host: string, c: char)
    requires UserPart(user) && HostPart(host) && c in {'\'', '@'}
    ensures c !in user && c !in host
  {
  }

  lemma PlainSpelling(s: string, user: string, host: string)
    requires UserPart(user) && HostPart(host)
    requires (s == user && host == "%") || s == user + "@" + host
    ensures IdentityParts(s) == (user, host)
  {
    NoMark(user, host, '\'');
    NoMark(user, host, '@');
    assert s[0] == user[0] && user[0] in user;
    assert QuotedIdentity(s).None?;
    if s == user {
      BeforeAll(s, '@');
    } else {
      assert s == user + ['@'] + host;
      BeforeStops(user, '@', host);
    }
  }

  lemma QuotedText(s: string)
    requires QuotedIdentity(s).Some?
    ensures var (user, host) := QuotedIdentity(s).value; s == "'" + user + "'@'" + host + "'"
  {
    var user := Before(s[1..], '\'');
    HostText(s[1 + |user|..]);
    UserText(s, user, QuotedHost(s[1 + |user|..]).value);
  }

  lemma UserText(s: string, user: string, host: string)
    requires s != "" && s[0] == '\'' && user <= s[1..] && s[1 + |user|..] == "'@'" + host + "'"
    ensures s == "'" + user + "'@'" + host + "'"
  {
    assert s == s[..1] + user + s[1 + |user|..];
    ConcatFour("'" + user, "'@'", host, "'");
  }

  lemma ConcatFour(a: string, b: string, c: string, d: string)
    ensures a + (b + c + d) == a + b + c + d
  {
  }

  lemma HostText(s: string)
    requires QuotedHost(s).Some?
    ensures s == "'@'" + QuotedHost(s).value + "'"
  {
    var host := Before(s[3..], '\'');
    assert s == s[..3] + (host + s[3 + |host|..]);
  }

  // An identity is accepted exactly when it is spelled in one of the three ways, and stands
  // for the user and the host it spells.
  lemma IdentityExact(raw: string, user: string, host: string)
    ensures ParseUserIdentity(raw) == Ok((user, host)) <==> Identifies(raw, user, host)
  {
    var s := Strip(raw);
    if Identifies(raw, user, host) {
      if s == "'" + user + "'@'" + host + "'" {
        QuotedSpelling(s, user, host);
      } else {
        PlainSpelling(s, user, host);
      }
    }
    if ParseUserIdentity(raw) == Ok((user, host)) {
      if QuotedIdentity(s).Some? {
        QuotedText(s);
      } else {
        PlainText(s, user, host);
      }
    }
  }

  lemma PlainText(s: string, user: string, host: string)
    requires QuotedIdentity(s).None? && IdentityParts(s) == (user, host)
    ensures (s == user && host == "%") || s == user + "@" + host
  {
    var before := Before(s, '@');
    if |before| < |s| {
      assert s == before + (['@'] + s[|before| + 1..]);
    }
  }

  // The identity in its quoted spelling.
  ghost predicate NamesUser(raw: string, text: string) {
    exists user, host :: Identifies(raw, user, host) && text == RenderIdentity(user, host)
  }

  // The text names this grantee.
  ghost predicate NamesGrantee(g: GranteeRef, text: string) {
    if g.granteeType == USER then exists t :: text == "USER " + t && NamesUser(g.name, t)
    else UserPart(g.name) && text == "ROLE `" + g.name + "`"
  }

  ghost predicate KnownUser(raw: string) {
    exists user, host :: Identifies(raw, user, host)
  }

  ghost predicate KnownGrantee(g: GranteeRef) {
    if g.granteeType == USER then KnownUser(g.name) else UserPart(g.name)
  }

  lemma UserKnown(raw: string)
    ensures ParseUserIdentity(raw).Ok? <==> KnownUser(raw)
  {
    if ParseUserIdentity(raw).Ok? {
      var (user, host) := ParseUserIdentity(raw).value;
      IdentityExact(raw, user, host);
    }
    if user, host :| Identifies(raw, user, host) {
      IdentityExact(raw, user, host);
    }
  }

  lemma UserRendered(raw: string, user: string, host: string)
    requires ParseUserIdentity(raw) == Ok((user, host))
    ensures NamesUser(raw, RenderIdentity(user, host))
  {
    IdentityExact(raw, user, host);
  }

  lemma GranteePrinted(g: GranteeRef)
    ensures FormatGrantee(g).Ok? <==> KnownGrantee(g)
    ensures FormatGrantee(g).Ok? ==> NamesGrantee(g, FormatGrantee(g).value)
  {
    if g.granteeType == USER {
      UserKnown(g.name);
      if ParseUserIdentity(g.name).Ok? {
        var (user, host) := ParseUserIdentity(g.name).value;
        UserRendered(g.name, user, host);
      }
    }
  }

  // Whatever text stands for a user parses to the identity requested.
  lemma UserReads(raw: string, text: string)
    requires NamesUser(raw, text)
    ensures ParseUserIdentity(text) == ParseUserIdentity(raw) && ParseUserIdentity(raw).Ok?
  {
    var user, host :| Identifies(raw, user, host) && text == RenderIdentity(user, host);
    IdentityExact(raw, user, host);
    IdentityReadsBack(raw);
  }

  // What stands for a user parses to the identity requested, and what stands for a role
  // reads back as its name.
  lemma GranteeReads(g: GranteeRef, text: string)
    requires NamesGrantee(g, text)
    ensures g.granteeType == USER ==>
              exists t :: text == "USER " + t && ParseUserIdentity(t) == ParseUserIdentity(g.name)
    ensures g.granteeType == ROLE ==> exists t :: text == "ROLE " + t && ReadQuoted(t) == Some((g.name, ""))
  {
    if g.granteeType == USER {
      var t :| text == "USER " + t && NamesUser(g.name, t);
      UserReads(g.name, t);
    } else {
      RoleReads(g.name);
      var t := "`" + g.name + "`";
      assert text == "ROLE " + t;
    }
  }

  lemma RoleReads(role: string)
    requires UserPart(role)
    ensures ReadQuoted("`" + role + "`") == Some((role, ""))
  {
    PlainIsSafe(role);
    assert Quoted(role) + "" == "`" + role + "`";
    QuotingReadsBack(role, "");
  }

  lemma {:induction false} PlainIsSafe(v: string)
    requires '`' !in v
    ensures SafeIdentifier(v) == v
  {
    if v != "" {
      PlainIsSafe(v[1..]);
    }
  }

  // ---------------------------------------------------------------------------
  // Objects

  const OBJECT_TYPES: set<string> := {"CATALOG", "DATABASE", "TABLE", "VIEW", "MATERIALIZED VIEW", "FUNCTION"}

  // The catalog is always named, the database below a catalog, the name below a database.
  predicate Placed(o: ObjectRef) {
    && o.objectType in OBJECT_TYPES && Given(o.catalog)
    && (Given(o.database) <==> o.objectType != "CATALOG")
    && (Given(o.name) <==> o.objectType !in {"CATALOG", "DATABASE"})
  }

  // The text reads back as this name, to its end.
  predicate NamesOne(text: string, name: string) {
    ReadQuoted(text) == Some((name, ""))
  }

  // The text reads back as these two names with a dot between them, to its end.
  predicate NamesTwo(text: string, database: string, name: string) {
    var first := ReadQuoted(text);
    && first.Some? && first.value.0 == database && first.value.1 != "" && first.value.1[0] == '.'
    && NamesOne(first.value.1[1..], name)
  }

  ghost predicate NamesObject(o: ObjectRef, text: string) {
    if o.objectType == "CATALOG" then exists t :: text == "CATALOG " + t && NamesOne(t, OrEmpty(o.catalog))
    else if o.objectType == "DATABASE" then exists t :: text == "DATABASE " + t && NamesOne(t, OrEmpty(o.database))
    else if o.objectType == "FUNCTION" then text == "FUNCTION " + OrEmpty(o.database) + "." + OrEmpty(o.name)
    else exists t :: text == o.objectType + " " + t && NamesTwo(t, OrEmpty(o.database), OrEmpty(o.name))
  }

  lemma QuotedNames(name: string)
    ensures NamesOne(Quoted(name), name)
  {
    assert Quoted(name) + "" == Quoted(name);
    QuotingReadsBack(name, "");
  }

  lemma QuotedNamesTwo(database: string, name: string)
    ensures NamesTwo(Quoted(database) + "." + Quoted(name), database, name)
  {
    assert Quoted(database) + "." + Quoted(name) + "" == Quoted(database) + "." + Quoted(name);
    QuotedPairReadsBack(database, name, "");
  }

  // A function has to be written in a form that needs no quoting.
  predicate Writable(o: ObjectRef) {
    o.objectType == "FUNCTION" ==> PlainIdent(OrEmpty(o.database)) && FunctionSignature(OrEmpty(o.name))
  }

  lemma ObjectPrinted(o: ObjectRef)
    ensures FormatObject(o).Ok? <==> Writable(o)
    ensures FormatObject(o).Ok? ==> NamesObject(o, FormatObject(o).value)
  {
    QuotedNames(OrEmpty(o.catalog));
    QuotedNames(OrEmpty(o.database));
    QuotedNamesTwo(OrEmpty(o.database), OrEmpty(o.name));
    if o.objectType !in {"CATALOG", "DATABASE", "FUNCTION"} {
      var pair := Quoted(OrEmpty(o.database)) + "." + Quoted(OrEmpty(o.name));
      assert FormatObject(o).value == o.objectType + " " + pair;
    }
  }

  lemma ShapeExact(o: ObjectRef)
    ensures ValidateObjectShape(o.objectType, o.catalog, o.database, o.name).Ok? <==> Placed(o)
  {
  }

  // ---------------------------------------------------------------------------
  // Requests

  // The privileges that the statement names: those requested, each once.
  ghost predicate PrivilegeList(req: GrantRequest, privs: seq<string>) {
    && privs != [] && NoneTwice(privs)
    && forall p :: p in privs <==> exists r :: r in req.privileges && p == Normal(r)
  }

  ghost predicate NoneTwice(privs: seq<string>) {
    forall i, j :: 0 <= i < j < |privs| ==> privs[i] != privs[j]
  }

  ghost predicate PrivilegeRequest(req: GrantRequest) {
    && req.target.Some? && Placed(req.target.value) && Writable(req.target.value)
    && req.privileges != []
    && (forall p :: p in req.privileges ==> Normal(p) in GRANTABLE_PRIVILEGES[req.target.value.objectType])
    && !(req.action == REVOKE && req.withGrantOption)
  }

  predicate AssignmentRequest(req: GrantRequest) {
    && Given(req.role) && UserPart(req.role.value)
    && req.target.None? && req.privileges == [] && !req.withGrantOption
  }

  // The requests that are printed.
  ghost predicate Printable(req: GrantRequest) {
    KnownGrantee(req.grantee) && if req.kind == ASSIGNMENT then AssignmentRequest(req) else PrivilegeRequest(req)
  }

  // The statement gives the list on the target to the grantee, or takes it from it.
  predicate Says(req: GrantRequest, stmt: string, privs: seq<string>, target: string, who: string) {
    var list := Join(privs, ", ");
    if req.action == REVOKE then stmt == "REVOKE " + list + " ON " + target + " FROM " + who
    else if req.withGrantOption then stmt == "GRANT " + list + " ON " + target + " TO " + who + " WITH GRANT OPTION"
    else stmt == "GRANT " + list + " ON " + target + " TO " + who
  }

  predicate Assigns(req: GrantRequest, stmt: string, role: string, who: string) {
    if req.action == REVOKE then stmt == "REVOKE `" + role + "` FROM " + who
    else stmt == "GRANT `" + role + "` TO " + who
  }

  // The catalog is made current first, except for a grant on a catalog itself.
  ghost predicate Pinned(o: ObjectRef, statements: seq<string>, stmt: string) {
    if o.objectType == "CATALOG" then statements == [stmt]
    else exists t :: statements == ["SET CATALOG " + t, stmt] && NamesOne(t, OrEmpty(o.catalog))
  }

  ghost predicate PrintsPrivileges(req: GrantRequest, built: Built)
    requires req.target.Some?
  {
    exists stmt, privs, target, who ::
      && Says(req, stmt, privs, target, who) && PrivilegeList(req, privs)
      && NamesObject(req.target.value, target) && NamesGrantee(req.grantee, who)
      && Pinned(req.target.value, built.statements, stmt)
  }

  ghost predicate PrintsAssignment(req: GrantRequest, built: Built)
    requires req.role.Some?
  {
    exists stmt, who :: Assigns(req, stmt, req.role.value, who) && NamesGrantee(req.grantee, who)
                        && built.statements == [stmt]
  }

  lemma ListPrinted(req: GrantRequest, t: string)
    requires CheckedPrivileges(t, req.privileges).Ok?
    ensures PrivilegeList(req, CheckedPrivileges(t, req.privileges).value)
  {
    var privs := CheckedPrivileges(t, req.privileges).value;
    CheckedMeaning(t, req.privileges);
    forall p | p in privs ensures exists r :: r in req.privileges && p == Normal(r) {
      CheckedRequested(t, req.privileges, p);
    }
  }

  lemma AcceptedPrivileges(req: GrantRequest)
    requires req.kind == PRIVILEGE && KnownGrantee(req.grantee)
    ensures BuildStatements(req).Ok? <==> PrivilegeRequest(req)
  {
    GranteePrinted(req.grantee);
    if req.target.Some? {
      var o := req.target.value;
      ShapeExact(o);
      CheckedMeaning(o.objectType, req.privileges);
      ObjectPrinted(o);
    }
  }

  // Exactly these requests are printed.
  lemma PrintableExact(req: GrantRequest)
    ensures BuildStatements(req).Ok? <==> Printable(req)
  {
    GranteePrinted(req.grantee);
    if req.kind == PRIVILEGE && KnownGrantee(req.grantee) {
      AcceptedPrivileges(req);
    }
  }

  lemma StatementSays(req: GrantRequest, privs: seq<string>, target: string, who: string)
    ensures Says(req, PrintStatement(req, privs, target, who), privs, target, who)
  {
    if req.action == GRANT && !req.withGrantOption {
      var stmt := "GRANT " + Join(privs, ", ") + " ON " + target + " TO " + who;
      assert stmt + "" == stmt;
    }
  }

  lemma PrivilegesPrinted(req: GrantRequest)
    requires req.kind == PRIVILEGE && BuildStatements(req).Ok?
    ensures PrintsPrivileges(req, BuildStatements(req).value)
  {
    var o := req.target.value;
    var privs, target := CheckedPrivileges(o.objectType, req.privileges).value, FormatObject(o).value;
    var who := FormatGrantee(req.grantee).value;
    GranteePrinted(req.grantee);
    ListPrinted(req, o.objectType);
    ObjectPrinted(o);
    StatementSays(req, privs, target, who);
    PinPrinted(o, PrintStatement(req, privs, target, who));
  }

  lemma PinPrinted(o: ObjectRef, stmt: string)
    ensures var pin := if o.objectType != "CATALOG" then ["SET CATALOG " + Quoted(OrEmpty(o.catalog))] else [];
            Pinned(o, pin + [stmt], stmt)
  {
    QuotedNames(OrEmpty(o.catalog));
    if o.objectType != "CATALOG" {
      var t := Quoted(OrEmpty(o.catalog));
      assert ["SET CATALOG " + t] + [stmt] == ["SET CATALOG " + t, stmt];
    }
  }

  // The statements of every request that is printed name what was requested: the
  // privileges, the object, the catalog that is made current, and the grantee, with
  // nothing but the grant option behind it.
  lemma PrintedSays(req: GrantRequest)
    requires BuildStatements(req).Ok?
    ensures if req.kind == ASSIGNMENT then req.role.Some? && PrintsAssignment(req, BuildStatements(req).value)
            else req.target.Some? && PrintsPrivileges(req, BuildStatements(req).value)
  {
    if req.kind == ASSIGNMENT {
      GranteePrinted(req.grantee);
      AssignmentText(req, FormatGrantee(req.grantee).value);
    } else {
      PrivilegesPrinted(req);
    }
  }

  lemma AssignmentText(req: GrantRequest, who: string)
    requires req.kind == ASSIGNMENT && FormatGrantee(req.grantee) == Ok(who) && BuildStatements(req).Ok?
    ensures req.role.Some? && |BuildStatements(req).value.statements| == 1
    ensures Assigns(req, BuildStatements(req).value.statements[0], req.role.value, who)
  {
    var role := req.role.value;
    assert "GRANT " + ("`" + role + "`") + " TO " + who == "GRANT `" + role + "` TO " + who;
    assert "REVOKE " + ("`" + role + "`") + " FROM " + who == "REVOKE `" + role + "` FROM " + who;
  }

  // The last statements give and take the same list on the same target.
  ghost predicate SameTerms(
      grant: GrantRequest, given: string, req: GrantRequest, taken: string, privs: seq<string>, target: string,
      who: string)
    requires req.target.Some?
  {
    && Says(grant, given, privs, target, who) && Says(req, taken, privs, target, who)
    && PrivilegeList(req, privs) && NamesObject(req.target.value, target) && NamesGrantee(req.grantee, who)
  }

  ghost predicate MirrorOf(grant: GrantRequest, given: string, req: GrantRequest, taken: string)
    requires req.target.Some?
  {
    exists privs, target, who :: SameTerms(grant, given, req, taken, privs, target, who)
  }

  lemma BuiltStatements(req: GrantRequest)
    requires req.kind == PRIVILEGE && BuildStatements(req).Ok?
    ensures var o := req.target.value;
            var pin := if o.objectType != "CATALOG" then ["SET CATALOG " + Quoted(OrEmpty(o.catalog))] else [];
            BuildStatements(req).value.statements ==
            pin + [PrintStatement(req, CheckedPrivileges(o.objectType, req.privileges).value,
                                  FormatObject(o).value, FormatGrantee(req.grantee).value)]
  {
  }

  // A revocation takes the same list on the same target from the same grantee as the grant
  // without the option gives, under the same catalog.
  lemma RevokeMirrors(req: GrantRequest)
    requires req.kind == PRIVILEGE && req.action == REVOKE && BuildStatements(req).Ok?
    ensures req.target.Some? && BuildStatements(req.(action := GRANT)).Ok?
    ensures var given := BuildStatements(req.(action := GRANT)).value.statements;
            var taken := BuildStatements(req).value.statements;
            && |given| == |taken| > 0 && given[..|given| - 1] == taken[..|taken| - 1]
            && MirrorOf(req.(action := GRANT), given[|given| - 1], req, taken[|taken| - 1])
  {
    var grant := req.(action := GRANT);
    var o := req.target.value;
    var privs, target := CheckedPrivileges(o.objectType, req.privileges).value, FormatObject(o).value;
    var who := FormatGrantee(req.grantee).value;
    BuiltStatements(req);
    BuiltStatements(grant);
    MirrorPieces(req, privs, target, who);
    LastOf(BuildStatements(req).value.statements, BuildStatements(grant).value.statements, o,
           PrintStatement(req, privs, target, who), PrintStatement(grant, privs, target, who));
  }

  lemma LastOf(taken: seq<string>, given: seq<string>, o: ObjectRef, t: string, g: string)
    requires var pin := if o.objectType != "CATALOG" then ["SET CATALOG " + Quoted(OrEmpty(o.catalog))] else [];
             taken == pin + [t] && given == pin + [g]
    ensures |given| == |taken| > 0 && given[..|given| - 1] == taken[..|taken| - 1]
    ensures given[|given| - 1] == g && taken[|taken| - 1] == t
  {
  }

  lemma MirrorPieces(req: GrantRequest, privs: seq<string>, target: string, who: string)
    requires req.kind == PRIVILEGE && req.action == REVOKE && BuildStatements(req).Ok?
    requires CheckedPrivileges(req.target.value.objectType, req.privileges) == Ok(privs)
    requires FormatObject(req.target.value) == Ok(target) && FormatGrantee(req.grantee) == Ok(who)
    ensures var grant := req.(action := GRANT);
            MirrorOf(grant, PrintStatement(grant, privs, target, who), req, PrintStatement(req, privs, target, who))
  {
    GranteePrinted(req.grantee);
    ListPrinted(req, req.target.value.objectType);
    ObjectPrinted(req.target.value);
    var grant := req.(action := GRANT);
    StatementSays(req, privs, target, who);
    StatementSays(grant, privs, target, who);
    assert SameTerms(grant, PrintStatement(grant, privs, target, who), req, PrintStatement(req, privs, target, who),
                    privs, target, who);
  }
}
