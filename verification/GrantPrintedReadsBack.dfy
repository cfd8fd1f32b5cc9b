/** The statements printed for a request, read back as a whole. */
module GrantPrintedReadsBack {
  import opened Text
  import opened GrantTypes
  import opened FirstSeen
  import opened GrantSpec
  import opened SqlSafety
  import opened GrantWriter
  import opened GrantParser
  import opened GrantScanFacts
  import opened GrantRoundTrip
  import opened GrantReadsBack
  import opened ListingScan

  // ---------------------------------------------------------------------------
  // What is expected

  function Present(o: Option<string>): Option<string> {
    if Given(o) then o else None
  }

  // The requested type, catalog, database and name; of a function the name before its types.
  function ExpectedTarget(o: ObjectRef): Target {
    Target(o.objectType, Coordinates(Present(o.catalog), Present(o.database),
      if o.objectType == "FUNCTION" then Some(Before(OrEmpty(o.name), '(')) else Present(o.name)))
  }

  // The row of a catalog grant needs no catalog of its own.
  function ExpectedCatalog(o: ObjectRef): string {
    if o.objectType == "CATALOG" then "" else OrEmpty(o.catalog)
  }

  // The condition on the names of the request.
  ghost predicate Readable(o: ObjectRef) {
    if o.objectType == "CATALOG" then Legible(OrEmpty(o.catalog)) && OrEmpty(o.catalog) != "*"
    else if o.objectType == "DATABASE" then Legible(OrEmpty(o.database)) && OrEmpty(o.database) != "*"
    else if o.objectType == "FUNCTION" then SignatureReadable(OrEmpty(o.name))
    else Legible(OrEmpty(o.database)) && Legible(OrEmpty(o.name))
  }

  predicate GoodShape(o: ObjectRef) {
    ValidateObjectShape(o.objectType, o.catalog, o.database, o.name).Ok?
  }

  // ---------------------------------------------------------------------------
  // The target

  lemma SingleReads(o: ObjectRef, target: string, rest: string)
    requires GoodShape(o) && o.objectType in {"CATALOG", "DATABASE"} && FormatObject(o) == Ok(target)
    ensures ReadsAs(target, rest, ExpectedCatalog(o)) == Some(ExpectedTarget(o)) <==> Readable(o)
    ensures target != "" && !IsSpace(target[0])
  {
    var t := o.objectType;
    var x := if t == "CATALOG" then o.catalog.value else o.database.value;
    assert target == t + " " + Quoted(x);
    SingleReadsBack(t, x, rest, ExpectedCatalog(o));
    assert SingleExpected(t, x, ExpectedCatalog(o)) == ExpectedTarget(o);
  }

  lemma PairReads(o: ObjectRef, target: string, rest: string)
    requires GoodShape(o) && PairType(o.objectType) && FormatObject(o) == Ok(target)
    ensures ReadsAs(target, rest, ExpectedCatalog(o)) == Some(ExpectedTarget(o)) <==> Readable(o)
    ensures target != "" && !IsSpace(target[0])
  {
    var t := o.objectType;
    PairReadsBack(t, o.database.value, o.name.value, rest, ExpectedCatalog(o));
    HeadFacts(t);
    assert target[0] == t[0];
  }

  lemma CallReads(o: ObjectRef, target: string, rest: string)
    requires GoodShape(o) && o.objectType == "FUNCTION" && FormatObject(o) == Ok(target)
    ensures ReadsAs(target, rest, ExpectedCatalog(o)) == Some(ExpectedTarget(o)) <==> Readable(o)
    ensures target != "" && !IsSpace(target[0])
  {
    var db, sig := o.database.value, o.name.value;
    assert target == FunctionHead(db) + sig;
    FunctionReadsBack(db, sig, rest, ExpectedCatalog(o));
  }

  // The printed target reads as the requested one exactly when the names are readable.
  lemma TargetReads(o: ObjectRef, target: string, rest: string)
    requires GoodShape(o) && FormatObject(o) == Ok(target)
    ensures ReadsAs(target, rest, ExpectedCatalog(o)) == Some(ExpectedTarget(o)) <==> Readable(o)
    ensures target != "" && !IsSpace(target[0])
  {
    if o.objectType in {"CATALOG", "DATABASE"} {
      SingleReads(o, target, rest);
    } else if o.objectType == "FUNCTION" {
      CallReads(o, target, rest);
    } else {
      PairReads(o, target, rest);
    }
  }

  // ---------------------------------------------------------------------------
  // The grants

  lemma FillEach(target: Target, grantee: string, granteeType: GranteeType, privs: seq<string>, catalog: string)
    ensures FillAll(EachOn(target, grantee, granteeType, privs), catalog) ==
            EachOn(FillTarget(target, catalog), grantee, granteeType, privs)
  {
  }

  lemma EachOnInjective(t1: Target, t2: Target, grantee: string, granteeType: GranteeType, privs: seq<string>)
    requires privs != [] && EachOn(t1, grantee, granteeType, privs) == EachOn(t2, grantee, granteeType, privs)
    ensures t1 == t2
  {
    assert EachOn(t1, grantee, granteeType, privs)[0] == GrantOn(t1, grantee, granteeType, privs[0]);
    assert EachOn(t2, grantee, granteeType, privs)[0] == GrantOn(t2, grantee, granteeType, privs[0]);
  }

  lemma FillKeepsPrivs(grants: seq<Grant>, catalog: string)
    ensures PrivsOf(FillAll(grants, catalog)) == PrivsOf(grants)
  {
  }

  lemma EachPrivs(target: Target, grantee: string, granteeType: GranteeType, privs: seq<string>)
    ensures PrivsOf(EachOn(target, grantee, granteeType, privs)) == privs
  {
  }

  // The grants of a printed statement are the expected ones exactly when its target is.
  lemma GrantsVerdict(
      privs: seq<string>, target: string, rest: string, expected: Target,
      grantee: string, granteeType: GranteeType, catalog: string)
    requires privs != [] && forall i :: 0 <= i < |privs| ==> GoodPrivilege(privs[i])
    requires target != "" && !IsSpace(target[0])
    ensures ReadsAs(target, rest, catalog) == Some(expected) <==>
            (FillAll(Grants(Printed(privs, target, rest), grantee, granteeType), catalog) ==
             EachOn(expected, grantee, granteeType, privs))
  {
    var grants := Grants(Printed(privs, target, rest), grantee, granteeType);
    StatementReads(privs, target, rest, grantee, granteeType);
    var found := LazyTo(Tail(target, rest));
    if found.Some? {
      ReadVerdict(ParseTarget(Strip(found.value)), expected, grantee, granteeType, privs, catalog);
    } else {
      FillKeepsPrivs(grants, catalog);
      EachPrivs(expected, grantee, granteeType, privs);
    }
  }

  lemma ReadVerdict(
      t: Target, expected: Target, grantee: string, granteeType: GranteeType, privs: seq<string>, catalog: string)
    requires privs != []
    ensures FillAll(EachOn(t, grantee, granteeType, privs), catalog) == EachOn(expected, grantee, granteeType, privs)
            <==> FillTarget(t, catalog) == expected
  {
    FillEach(t, grantee, granteeType, privs, catalog);
    if EachOn(FillTarget(t, catalog), grantee, granteeType, privs) == EachOn(expected, grantee, granteeType, privs) {
      EachOnInjective(FillTarget(t, catalog), expected, grantee, granteeType, privs);
    }
  }

  // ---------------------------------------------------------------------------
  // Requests

  // A privilege grant that is printed.
  predicate PrintedGrant(req: GrantRequest) {
    req.kind == PRIVILEGE && req.action == GRANT && BuildStatements(req).Ok?
  }

  function Requested(req: GrantRequest): seq<string>
    requires PrintedGrant(req)
  {
    CheckedPrivileges(req.target.value.objectType, req.privileges).value
  }

  // The GRANT statement comes last, behind a pinned catalog.
  function GrantStatement(req: GrantRequest): string
    requires PrintedGrant(req)
  {
    var statements := BuildStatements(req).value.statements;
    statements[|statements| - 1]
  }

  // The grants that the request stands for.
  function ExpectedGrants(req: GrantRequest, grantee: string, granteeType: GranteeType): seq<Grant>
    requires PrintedGrant(req)
  {
    EachOn(ExpectedTarget(req.target.value), grantee, granteeType, Requested(req))
  }

  lemma StatementText(req: GrantRequest) returns (target: string, rest: string)
    requires PrintedGrant(req)
    ensures GoodShape(req.target.value) && FormatObject(req.target.value) == Ok(target)
    ensures GrantStatement(req) == Printed(Requested(req), target, rest)
  {
    target := FormatObject(req.target.value).value;
    var grantee := FormatGrantee(req.grantee).value;
    rest := grantee + if req.withGrantOption then " WITH GRANT OPTION" else "";
    PrintedText(req, Requested(req), target, grantee);
  }

  lemma PrintedText(req: GrantRequest, privs: seq<string>, target: string, grantee: string)
    requires req.action == GRANT
    ensures PrintStatement(req, privs, target, grantee) ==
            Printed(privs, target, grantee + if req.withGrantOption then " WITH GRANT OPTION" else "")
  {
    var head := "GRANT " + Join(privs, ", ") + " ON " + target + " TO ";
    ConcatAssociates(head, grantee, if req.withGrantOption then " WITH GRANT OPTION" else "");
  }

  lemma RequestedGood(req: GrantRequest)
    requires PrintedGrant(req)
    ensures Requested(req) != []
    ensures forall i :: 0 <= i < |Requested(req)| ==> GoodPrivilege(Requested(req)[i])
  {
    var t := req.target.value.objectType;
    CheckedMeaning(t, req.privileges);
    forall p | p in Requested(req) ensures GoodPrivilege(p) {
      AllowedIsGood(t, p);
    }
  }

  // Printing and reading back: the GRANT statement reads as exactly one grant per
  // normalised privilege, in order, on the requested object, if and only if the names of
  // the request are readable.
  lemma PrintedReadsBack(req: GrantRequest, grantee: string, granteeType: GranteeType)
    requires PrintedGrant(req)
    ensures Readable(req.target.value) <==>
            (FillAll(Grants(GrantStatement(req), grantee, granteeType), ExpectedCatalog(req.target.value)) ==
             ExpectedGrants(req, grantee, granteeType))
  {
    var o := req.target.value;
    var target, rest := StatementText(req);
    RequestedGood(req);
    TargetReads(o, target, rest);
    GrantsVerdict(Requested(req), target, rest, ExpectedTarget(o), grantee, granteeType, ExpectedCatalog(o));
  }

  // The name that comes back: of a function the one in front of its types.
  function ReadName(o: ObjectRef): Option<string> {
    if o.objectType == "FUNCTION" then Some(Before(OrEmpty(o.name), '('))
    else if o.objectType in {"CATALOG", "DATABASE"} then None
    else o.name
  }

  lemma ExpectedFields(o: ObjectRef)
    requires GoodShape(o)
    ensures ExpectedTarget(o) ==
            Target(o.objectType, Coordinates(o.catalog, if o.objectType == "CATALOG" then None else Present(o.database),
                                             ReadName(o)))
  {
  }

  // The same field by field: type, catalog, database and name are those requested, one
  // grant for each privilege.
  lemma PrintedFields(req: GrantRequest, grantee: string, granteeType: GranteeType)
    requires PrintedGrant(req)
    ensures var o := req.target.value;
            Readable(o) <==>
            ReadsEach(GrantStatement(req), ExpectedCatalog(o), grantee, granteeType, Requested(req), o.objectType,
                      o.catalog, if o.objectType == "CATALOG" then None else o.database, ReadName(o))
  {
    var o := req.target.value;
    var target, rest := StatementText(req);
    PrintedReadsBack(req, grantee, granteeType);
    ExpectedFields(o);
    if o.objectType != "CATALOG" {
      DatabaseNamed(o);
    }
    EachIs(ExpectedTarget(o), grantee, granteeType, Requested(req),
           FillAll(Grants(GrantStatement(req), grantee, granteeType), ExpectedCatalog(o)));
  }

  lemma DatabaseNamed(o: ObjectRef)
    requires GoodShape(o) && o.objectType != "CATALOG"
    ensures Present(o.database) == o.database
  {
  }

  lemma EachIs(target: Target, grantee: string, granteeType: GranteeType, privs: seq<string>, grants: seq<Grant>)
    ensures grants == EachOn(target, grantee, granteeType, privs) <==>
            OneEach(grants, grantee, granteeType, privs, target.objectType,
                            target.at.catalog, target.at.database, target.at.name)
  {
    forall i | 0 <= i < |privs|
      ensures EachOn(target, grantee, granteeType, privs)[i] ==
              Grant(grantee, granteeType, target.at.catalog, target.at.database, target.at.name,
                    target.objectType, privs[i], false, "direct")
    {
      assert EachOn(target, grantee, granteeType, privs)[i] == GrantOn(target, grantee, granteeType, privs[i]);
    }
  }

  // A database whose name has a dot in it, which quoting allows.
  function DottedRequest(): GrantRequest {
    GrantRequest(GRANT, PRIVILEGE, GranteeRef("alice", USER),
                 Some(ObjectRef("DATABASE", Some("c"), Some("a.b"), None)), ["DROP"], None, false)
  }

  lemma AliceParses(name: string)
    requires name == "alice"
    ensures ParseUserIdentity(name) == Ok((name, "%"))
  {
    StripTrimmed(name);
    BeforeAll(name, '@');
  }

  lemma CapitalsNormal(p: string)
    requires Solid(p) && forall i :: 0 <= i < |p| ==> UpperChar(p[i]) == p[i]
    ensures Normal(p) == p
  {
    assert Upper(p) == p;
    NormalOne("", p, "");
    assert "" + p + "" == p;
  }

  lemma DropIsNormal(p: string)
    requires p == "DROP"
    ensures CheckedPrivileges("DATABASE", [p]).Ok?
  {
    assert forall c :: c in p ==> 'A' <= c <= 'Z';
    assert forall i :: 0 <= i < |p| ==> p[i] in p;
    CapitalsNormal(p);
    OneChecked(p);
  }

  lemma OneChecked(p: string)
    requires Normal(p) == p && p in GRANTABLE_PRIVILEGES["DATABASE"]
    ensures CheckedPrivileges("DATABASE", [p]).Ok?
  {
    CheckedMeaning("DATABASE", [p]);
  }

  lemma DottedPrints(req: GrantRequest)
    requires req == DottedRequest()
    ensures PrintedGrant(req)
  {
    DottedGrantee(req);
    DottedTarget(req.target.value);
    DropIsNormal("DROP");
  }

  lemma DottedGrantee(req: GrantRequest)
    requires req == DottedRequest()
    ensures FormatGrantee(req.grantee).Ok?
  {
    AliceParses(req.grantee.name);
  }

  lemma DottedTarget(o: ObjectRef)
    requires o == DottedRequest().target.value
    ensures GoodShape(o) && FormatObject(o).Ok?
  {
  }

  // Its grant is printed, and does not read back.
  lemma DottedNameIsLost(req: GrantRequest, grantee: string, granteeType: GranteeType)
    requires req == DottedRequest()
    ensures PrintedGrant(req)
    ensures FillAll(Grants(GrantStatement(req), grantee, granteeType), "c") != ExpectedGrants(req, grantee, granteeType)
  {
    DottedPrints(req);
    var name := req.target.value.database.value;
    assert name[1] == '.' && name[1] in name;
    PrintedReadsBack(req, grantee, granteeType);
  }

  // A grant that names its catalog is not changed by the catalog of its row.
  lemma NamedCatalogStays(grants: seq<Grant>, c1: string, c2: string)
    requires forall i :: 0 <= i < |grants| ==> Given(FillAll(grants, c1)[i].catalog)
    requires c1 == ""
    ensures FillAll(grants, c2) == FillAll(grants, c1)
  {
  }

  // Read from a row that names the requested catalog, whatever the type.
  lemma ReadableReadsBack(req: GrantRequest, grantee: string, granteeType: GranteeType)
    requires PrintedGrant(req) && Readable(req.target.value)
    ensures FillAll(Grants(GrantStatement(req), grantee, granteeType), OrEmpty(req.target.value.catalog)) ==
            ExpectedGrants(req, grantee, granteeType)
  {
    var o := req.target.value;
    PrintedReadsBack(req, grantee, granteeType);
    if o.objectType == "CATALOG" {
      var target, rest := StatementText(req);
      NamedCatalogStays(Grants(GrantStatement(req), grantee, granteeType), "", OrEmpty(o.catalog));
    }
  }

  // ---------------------------------------------------------------------------
  // Rows

  // No backtick, dot, white space or star in sight.
  ghost predicate PlainNames(o: ObjectRef) {
    && (Given(o.catalog) ==> PlainIdent(o.catalog.value))
    && (Given(o.database) ==> PlainIdent(o.database.value))
    && (Given(o.name) ==>
          if o.objectType == "FUNCTION" then '\n' !in o.name.value else PlainIdent(o.name.value))
  }

  lemma PlainIsLegible(x: string)
    requires PlainIdent(x)
    ensures Legible(x) && x != "*"
  {
    assert forall c :: c in x ==> IsWord(c);
    assert IsWord(x[0]);
    forall j | 0 <= j < |x| ensures !Mark(x[j..], "TO") {
      assert x[j..][0] == x[j];
    }
  }

  lemma OneLineIsReadable(sig: string)
    requires '\n' !in sig
    ensures SignatureReadable(sig)
  {
    assert forall i :: 0 <= i < |sig| ==> sig[i] in sig;
  }

  lemma PlainIsReadable(o: ObjectRef)
    requires GoodShape(o) && PlainNames(o)
    ensures Readable(o)
  {
    if o.objectType == "CATALOG" {
      PlainIsLegible(OrEmpty(o.catalog));
    } else if o.objectType == "FUNCTION" {
      OneLineIsReadable(OrEmpty(o.name));
    } else if o.objectType == "DATABASE" {
      PlainIsLegible(OrEmpty(o.database));
    } else {
      assert PairType(o.objectType);
      PlainIsLegible(OrEmpty(o.database));
      PlainIsLegible(OrEmpty(o.name));
    }
  }

  // A listing row that shows the printed statement under the requested catalog gives the
  // request back, for every request over plain names.
  lemma PlainRowReadsBack(req: GrantRequest, row: ResultRow, grantee: string, granteeType: GranteeType)
    requires PrintedGrant(req) && PlainNames(req.target.value)
    requires Statements([row]) == [(row, GrantStatement(req))] && RowCatalog(row) == OrEmpty(req.target.value.catalog)
    ensures ShowGrants([row], grantee, granteeType) == ExpectedGrants(req, grantee, granteeType)
  {
    var target, rest := StatementText(req);
    PlainIsReadable(req.target.value);
    ReadableReadsBack(req, grantee, granteeType);
    OneStatement(row, GrantStatement(req), grantee, granteeType);
  }

  // ---------------------------------------------------------------------------
  // Statements that grant nothing

  lemma NoGrantWord(stmt: string, grantee: string, granteeType: GranteeType)
    requires stmt != "" && UpperChar(stmt[0]) != 'G'
    ensures !StartsCI(stmt, "GRANT") && Grants(stmt, grantee, granteeType) == []
  {
    OtherLetter(stmt, "GRANT");
  }

  // Every printed statement but the GRANT itself reads as nothing: revocations and the
  // statement that pins the catalog.
  lemma OthersReadNothing(req: GrantRequest, i: nat, grantee: string, granteeType: GranteeType)
    requires BuildStatements(req).Ok? && i < |BuildStatements(req).value.statements|
    requires req.action == REVOKE || i + 1 < |BuildStatements(req).value.statements|
    ensures var stmt := BuildStatements(req).value.statements[i];
            !StartsCI(stmt, "GRANT") && Grants(stmt, grantee, granteeType) == []
  {
    var stmt := BuildStatements(req).value.statements[i];
    OtherFirst(req, i);
    NoGrantWord(stmt, grantee, granteeType);
  }

  lemma OtherFirst(req: GrantRequest, i: nat)
    requires BuildStatements(req).Ok? && i < |BuildStatements(req).value.statements|
    requires req.action == REVOKE || i + 1 < |BuildStatements(req).value.statements|
    ensures var stmt := BuildStatements(req).value.statements[i]; stmt != "" && stmt[0] in {'R', 'S'}
  {
  }
}
