/** What may be granted on which object type, and the checks of a request against it. */
module GrantSpec {
  import opened Text
  import opened GrantTypes
  import opened FirstSeen

  datatype Error =
    | UnsupportedType(objectType: string)
    | NoPrivilege
    | NotGrantable(privilege: string)
    | MissingField(field: string)
    | UnexpectedField(field: string)
    | BadUser(text: string)
    | BadHost(text: string)
    | BadRole(text: string)
    | BadFunctionDatabase(text: string)
    | BadSignature(text: string)
    | NoRole
    | RoleTakesNoObject
    | RoleTakesNoOption
    | NoObject
    | RevokeTakesNoOption

  datatype Result<+T> = Ok(value: T) | Err(error: Error) {
    predicate IsFailure() {
      Err?
    }

    function PropagateFailure<U>(): Result<U>
      requires Err?
    {
      Err(error)
    }

    function Extract(): T
      requires Ok?
    {
      value
    }
  }

  const GRANTABLE_PRIVILEGES: map<string, set<string>> := map[
    "CATALOG" := {"USAGE", "CREATE DATABASE", "DROP", "ALL"},
    "DATABASE" := {
      "CREATE TABLE", "CREATE VIEW", "CREATE FUNCTION", "CREATE MATERIALIZED VIEW", "ALTER", "DROP", "ALL"},
    "TABLE" := {"SELECT", "INSERT", "UPDATE", "DELETE", "ALTER", "DROP", "EXPORT", "ALL"},
    "VIEW" := {"SELECT", "ALTER", "DROP", "ALL"},
    "MATERIALIZED VIEW" := {"SELECT", "ALTER", "REFRESH", "DROP", "ALL"},
    "FUNCTION" := {"USAGE", "DROP", "ALL"}]

  // (catalog, database, name): required, else it must be absent.
  const OBJECT_SHAPE: map<string, (bool, bool, bool)> := map[
    "CATALOG" := (true, false, false),
    "DATABASE" := (true, true, false),
    "TABLE" := (true, true, true),
    "VIEW" := (true, true, true),
    "MATERIALIZED VIEW" := (true, true, true),
    "FUNCTION" := (true, true, true)]

  // Upper case, single spaces.
  function Normal(privilege: string): string {
    Join(Words(Upper(privilege)), " ")
  }

  lemma UpperBlank(s: string)
    ensures Blank(Upper(s)) <==> Blank(s)
    ensures Solid(Upper(s)) <==> Solid(s)
  {
    forall i | 0 <= i < |s| ensures IsSpace(Upper(s)[i]) <==> IsSpace(s[i]) {
      assert Upper(s)[i] == UpperChar(s[i]);
    }
  }

  lemma UpperConcat(a: string, b: string)
    ensures Upper(a + b) == Upper(a) + Upper(b)
  {
  }

  // A privilege of one word loses the white space around it.
  lemma NormalOne(lead: string, w: string, trail: string)
    requires Blank(lead) && Solid(w) && Blank(trail)
    ensures Normal(lead + w + trail) == Upper(w)
  {
    UpperConcat(lead + w, trail);
    UpperConcat(lead, w);
    UpperBlank(lead);
    UpperBlank(w);
    UpperBlank(trail);
    WordsFirst(Upper(lead), Upper(w), Upper(trail));
    WordsNone(Upper(trail));
  }

  // Between two words one blank is left.
  lemma NormalTwo(lead: string, w: string, gap: string, v: string, trail: string)
    requires Blank(lead) && Solid(w) && Blank(gap) && gap != "" && Solid(v) && Blank(trail)
    ensures Normal(lead + w + (gap + v + trail)) == Upper(w) + " " + Upper(v)
  {
    UpperConcat(lead + w, gap + v + trail);
    UpperConcat(lead, w);
    UpperConcat(gap + v, trail);
    UpperConcat(gap, v);
    UpperBlank(lead);
    UpperBlank(w);
    UpperBlank(gap);
    UpperBlank(v);
    UpperBlank(trail);
    WordsFirst(Upper(gap), Upper(v), Upper(trail));
    WordsNone(Upper(trail));
    NormalWords(Upper(lead), Upper(w), Upper(gap) + Upper(v) + Upper(trail), Upper(v));
  }

  lemma NormalWords(lead: string, w: string, rest: string, v: string)
    requires Blank(lead) && Solid(w) && rest != "" && IsSpace(rest[0]) && Words(rest) == [v]
    ensures Join(Words(lead + w + rest), " ") == w + " " + v
  {
    WordsFirst(lead, w, rest);
    assert Words(lead + w + rest) == [w, v];
    assert [w, v][1..] == [v];
  }

  function Normals(privileges: seq<string>): (r: seq<string>)
    ensures |r| == |privileges| && forall i :: 0 <= i < |r| ==> r[i] == Normal(privileges[i])
  {
    seq(|privileges|, i requires 0 <= i < |privileges| => Normal(privileges[i]))
  }

  // The first privilege that is not allowed.
  function FirstBad(privileges: seq<string>, allowed: set<string>): (r: Option<string>)
    ensures r.None? <==> forall p :: p in privileges ==> Normal(p) in allowed
    ensures r.Some? ==> exists i :: && 0 <= i < |privileges| && r.value == privileges[i] && Normal(r.value) !in allowed
                                    && forall j :: 0 <= j < i ==> Normal(privileges[j]) in allowed
  {
    if privileges == [] then None
    else if Normal(privileges[0]) !in allowed then Some(privileges[0])
    else FirstBad(privileges[1..], allowed)
  }

  // The normalised privileges, each once in order of first mention, or the first error.
  function CheckedPrivileges(objectType: string, privileges: seq<string>): Result<seq<string>> {
    if objectType !in GRANTABLE_PRIVILEGES then Err(UnsupportedType(objectType))
    else if privileges == [] then Err(NoPrivilege)
    else
      var bad := FirstBad(privileges, GRANTABLE_PRIVILEGES[objectType]);
      if bad.Some? then Err(NotGrantable(bad.value)) else Ok(Unique(Normals(privileges), ITSELF))
  }

  method ValidatePrivileges(objectType: string, privileges: seq<string>) returns (r: Result<seq<string>>)
    ensures r == CheckedPrivileges(objectType, privileges)
  {
    if objectType !in GRANTABLE_PRIVILEGES {
      return Err(UnsupportedType(objectType));
    }
    if privileges == [] {
      return Err(NoPrivilege);
    }
    var allowed := GRANTABLE_PRIVILEGES[objectType];
    var normalized: seq<string> := [];
    for i := 0 to |privileges|
      invariant FirstBad(privileges, allowed) == FirstBad(privileges[i..], allowed)
      invariant normalized == Unique(Normals(privileges[..i]), ITSELF)
    {
      var p := Normal(privileges[i]);
      assert privileges[i..][0] == privileges[i] && privileges[i..][1..] == privileges[i + 1..];
      if p !in allowed {
        return Err(NotGrantable(privileges[i]));
      }
      NormalsNext(privileges, i);
      if p !in normalized {
        normalized := normalized + [p];
      }
    }
    assert privileges[..|privileges|] == privileges;
    r := Ok(normalized);
  }

  lemma NormalsNext(privileges: seq<string>, i: nat)
    requires i < |privileges|
    ensures var known, p := Unique(Normals(privileges[..i]), ITSELF), Normal(privileges[i]);
            Unique(Normals(privileges[..i + 1]), ITSELF) == if p in known then known else known + [p]
  {
    var ns, p := Normals(privileges[..i]), Normal(privileges[i]);
    var more := Normals(privileges[..i + 1]);
    assert more == ns + [p] && more[..i] == ns;
    UniqueMembers(ns, p);
  }

  lemma UniqueMembers(ps: seq<string>, p: string)
    ensures p in Unique(ps, ITSELF) <==> p in ps
    ensures p in ps <==> p in Keys(ps, ITSELF)
  {
    UniqueKeeps(ps, ITSELF);
    if p in ps {
      var i :| 0 <= i < |ps| && ps[i] == p;
      assert ITSELF(ps[i]) in Keys(ps, ITSELF);
      assert p in Keys(Unique(ps, ITSELF), ITSELF);
    }
  }

  // What a successful check guarantees: allowed privileges only, every requested one
  // among them, none twice, at least one.
  lemma CheckedMeaning(objectType: string, privileges: seq<string>)
    ensures var r := CheckedPrivileges(objectType, privileges);
            && (r.Ok? <==> && objectType in GRANTABLE_PRIVILEGES && privileges != []
                           && forall p :: p in privileges ==> Normal(p) in GRANTABLE_PRIVILEGES[objectType])
            && (r.Ok? ==> && r.value != [] && DistinctKeys(r.value, ITSELF)
                          && (forall p :: p in r.value ==> p in GRANTABLE_PRIVILEGES[objectType])
                          && forall p :: p in privileges ==> Normal(p) in r.value)
  {
    var r := CheckedPrivileges(objectType, privileges);
    var ns := Normals(privileges);
    UniqueKeeps(ns, ITSELF);
    if r.Ok? {
      forall p | p in ns ensures p in GRANTABLE_PRIVILEGES[objectType] && p in r.value {
        var i :| 0 <= i < |ns| && ns[i] == p;
        assert privileges[i] in privileges;
        UniqueMembers(ns, p);
      }
      forall p | p in privileges ensures Normal(p) in ns {
        var i :| 0 <= i < |privileges| && privileges[i] == p;
        assert ns[i] == Normal(p);
      }
      assert ns[0] in ns;
    }
  }

  // ... and nothing but what was requested.
  lemma CheckedRequested(objectType: string, privileges: seq<string>, p: string)
    requires CheckedPrivileges(objectType, privileges).Ok? && p in CheckedPrivileges(objectType, privileges).value
    ensures exists r :: r in privileges && p == Normal(r)
  {
    var ns := Normals(privileges);
    UniqueKeeps(ns, ITSELF);
    var i :| 0 <= i < |ns| && ns[i] == p;
    assert privileges[i] in privileges;
  }

  // A field is present when its type requires it and absent when it does not.
  function CheckField(field: string, required: bool, value: Option<string>): Result<()> {
    if required && !Given(value) then Err(MissingField(field))
    else if !required && Given(value) then Err(UnexpectedField(field))
    else Ok(())
  }

  function ValidateObjectShape(
      objectType: string, catalog: Option<string>, database: Option<string>, name: Option<string>): (r: Result<()>)
    ensures r.Ok? <==> && objectType in OBJECT_SHAPE
                       && OBJECT_SHAPE[objectType] == (Given(catalog), Given(database), Given(name))
  {
    if objectType !in OBJECT_SHAPE then Err(UnsupportedType(objectType))
    else
      var (c, d, n) := OBJECT_SHAPE[objectType];
      var _ :- CheckField("catalog", c, catalog);
      var _ :- CheckField("database", d, database);
      CheckField("name", n, name)
  }
}
