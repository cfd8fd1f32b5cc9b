/** Values shared by the grant code: optional strings, grants and object queries. */
module GrantTypes {
  import opened Text

  datatype Option<+T> = None | Some(value: T)

  // Python truthiness of a `str | None`.
  predicate Given(o: Option<string>) {
    o.Some? && o.value != ""
  }

  function OrEmpty(o: Option<string>): string {
    if o.Some? then o.value else ""
  }

  datatype GranteeType = USER | ROLE

  datatype Grant = Grant(
    grantee: string,
    granteeType: GranteeType,
    catalog: Option<string>,
    database: Option<string>,
    name: Option<string>,
    objectType: string,
    privilege: string,
    grantable: bool,
    source: string)

  datatype ObjectQuery = ObjectQuery(
    catalog: Option<string>,
    database: Option<string>,
    name: Option<string>,
    objectType: Option<string>)
  {
    function TypeUpper(): string {
      Upper(OrEmpty(objectType))
    }

    predicate IsSystem() {
      TypeUpper() == "SYSTEM"
    }

    predicate IsScopeQuery() {
      TypeUpper() in {"DATABASE", "CATALOG"} && !Given(name)
    }

    function ChildTypes(): set<string> {
      if TypeUpper() == "DATABASE" then {"TABLE", "VIEW", "MATERIALIZED VIEW", "FUNCTION"}
      else if TypeUpper() == "CATALOG" then {"TABLE", "VIEW", "MATERIALIZED VIEW", "FUNCTION", "DATABASE"}
      else {}
    }

    // The query names at least one coordinate.
    predicate NamesSomething() {
      Given(catalog) || Given(database) || Given(name)
    }
  }
}
