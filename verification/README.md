# Verified model of the StarRocks permission manager

This project models the parts of the permission manager whose correctness is hard to see by
reading one function, and proves what they compute. It has four parts.

**Who can do what.** Collected grants are classified against an object query, pushed down the
role graph, handed to users and normalised (`GrantClassifier`, `BfsResolver`, `GrantRows`,
`SessionRoles`, `AnswerForm`, `GrantResolver`); `RelevanceLaws` says which grants are relevant,
`InheritanceLaws` what the push down keeps and drops. The searches are modelled with the queues,
visited sets, caps and origin labels of the source, on arbitrary finite graphs, cyclic ones
included. `RoleGraph` holds the theory they share: walks, reachability, and an invariant of the
labelled breadth-first search from which soundness, completeness, minimum distances and the
behaviour of the cap follow; `RankedSearch` adds which label wins a tie. `RoleHelpers`,
`RoleAncestry` and `MyPermissions` are the other searches of this kind.

**Printing and reading grants.** A structured request is checked (`GrantSpec`), printed as SQL
(`GrantWriter`, `SqlSafety`), and a statement is read back by the parser (`GrantParser`), whose
regular expressions are first-match scanners with the priorities of the expressions.
`SignatureLanguage` proves one such scanner equal to its expression; `PrintedStatements` says what
the printed statements name, `GrantScanFacts`, `GrantRoundTrip`, `GrantReadsBack` and
`GrantPrintedReadsBack` for which requests printing and reading are inverse, and `ListingScan`,
`ListingTargets`, `ListingPaths` and `GrantListings` how the other forms of a listing are read.

**Graphs on screen.** Assembly of role graphs (`DagBuilder`, `RoleDag`, `RoleHierarchy`,
`DrawnRoles`), the split into components (`DagComponents`), rows, boxes and overlap removal
(`DagBoxes`, `DagRows`, `DagPacking`, `DagFamilies`, `DagLayout`), and the highlight of a clicked
node (`DagHighlight`).

**Small state machines and algebra.** The sliding-window rate limiter (`RateLimit`), loading
graphs into the store under interleaved fetches (`DagStore`), deduplicate-and-limit
(`CatalogSearch`, `FirstSeen`), and size strings (`SizeUtils`, `Decimals`).

Python dictionaries and sets that are iterated are enumerated in an arbitrary order; every result
holds for all orders. Database queries are given as finite graphs, rows or maps. Characters are
treated as ASCII where the source upper-cases, strips or matches `\w` and `\s`.

## What the proofs found

- Inheritance of privileges is sound, but not complete when a nearer holder masks a farther one
  (`InheritanceLaws.MaskedHolder`); `InheritanceLaws.CompleteIffNeverMasked` gives the exact
  condition on the graph and the holders. The set of grantees is exact in any case.
- All that a child role inherits is credited to one origin, which need not hold it
  (`InheritanceLaws.MiscreditedChild`); `InheritanceLaws.CreditHeldIffSameSources` says exactly
  when it does. All ties between nearest holders are broken by one order, that of the dictionary.
- A user and a role of the same name can be merged into one when both are owed a USAGE
  (`GrantRows.SharedNameLost`).
- A session without the list of all users inherits differently: there every role of the chain gets
  all privileges of all its ancestors, without masking, and the user those of every listed role
  (`SessionRoles.ChainAddedRows`).
- An inherited grant can lose its relevance when the query names no coordinate at all
  (`GrantClassifier.InheritanceLosesRelevance`, with the exact condition in
  `GrantClassifier.InheritanceKeepsRelevance`).
- The right to create objects of the queried type is relevant whatever database it is for; every
  other grant on a catalog object is irrelevant when a coordinate contradicts the query
  (`GrantClassifier.OutOfScope`, `GrantClassifier.CreateIgnoresScope`).
- Printing and reading a grant are inverse exactly for readable names: no backtick, dot or newline
  and no blank-separated word TO in a quoted name, no star alone for a catalog or database, and in
  a function signature no newline in front of the first such TO
  (`GrantPrintedReadsBack.PrintedReadsBack`; `DottedNameIsLost` is a concrete failing request).
- A listed grant on all tables of a database named `TO`, in whatever case, loses its database, and a
  storage volume of that name its name: the reader takes the name for the end of the target
  (`GrantListings.InDatabaseReads`, `GrantListings.OutsideReads`).
- In an unquoted `db.*` under an object type the star is kept as a name, in a path of three parts it
  stands for all (`GrantListings.ListedPairReads`, `GrantListings.TripleReads`); under DATABASE,
  `name.*` is read as the database of that name (`GrantListings.ScopePairReads`).
- The highlight finds every ancestor when the clicked node is on no cycle; on a cycle it can miss
  one (`DagHighlight.DarkAncestor`), and `DagHighlight.CompleteIffCyclesOpen` says exactly when.
- The documentation of the ancestry walk says that each role is processed exactly once. That holds
  exactly for distinct seeds (`RoleDag.ProcessedOnce`); a seed listed twice has its links added
  twice (`RoleDag.RepeatedSeed`).
- The deterministic scanner for function signatures accepts the same texts as the expression with
  all its choices (`SignatureLanguage.SignatureExact`).
- The overlap test compares boxes by their position in the list, not by their position on screen:
  when the rounds settle, every box ends before any *later* box that overlaps it vertically.
- Deduplicating and limiting twice is the same as once for every limit, also below one, where the
  tail still lets one hit through.

## Model

| member | source | states |
|---|---|---|
| BfsResolver.BfsChildRoles | backend/app/services/admin/bfs_resolver.py:18-40 | On any finite graph the result names exactly the roles one or more edges below a holder; the origin of each is, among the holders at minimum distance, the one that comes first in the order in which the holders are enumerated; the inherited set is exactly what the reached parents pass on, a parent passing its own privileges or else those of its origin. |
| RankedSearch.RankVisit | backend/app/services/admin/bfs_resolver.py:24-39 | Visiting the head keeps that the queue is sorted by distance and by the rank of the label, and that every visited role has the first label among its nearest seeds. |
| InheritanceLaws.InheritanceSound | backend/app/services/admin/bfs_resolver.py:32-37 | Every inherited privilege is held by a role strictly above the heir. |
| InheritanceLaws.AgreeingHoldersComplete | backend/app/services/admin/bfs_resolver.py:32-37 | When all holders above a role hold the same privileges, in particular with a single holder, the role inherits exactly those. |
| InheritanceLaws.CompleteIffNeverMasked | backend/app/services/admin/bfs_resolver.py:32-37 | Inheritance into a role is complete in every run, whatever the holders hold and in whatever order they are taken, if and only if every holder above it is a parent of it or the only nearest holder above a parent without privileges; a condition on the graph and the set of holders alone. |
| InheritanceLaws.MaskedHolder | backend/app/services/admin/bfs_resolver.py:32-37 | On a chain of two holders the farther one's privilege never reaches the grandchild. |
| InheritanceLaws.CreditHeldIffSameSources | backend/app/services/admin/bfs_resolver.py:34-39 | The credited origin of a role holds everything the role inherits in every run, whatever the holders hold and in whatever order they are taken, if and only if each of its parents is the only nearest holder above the role, or holds nothing and has the same nearest holders as the role; a condition on the graph and the set of holders alone. |
| InheritanceLaws.OnlyParentHeld | backend/app/services/admin/bfs_resolver.py:34-39 | A role with a single parent is credited to a holder of all that it inherits in every run, however many holders are nearest. |
| InheritanceLaws.MiscreditedChild | backend/app/services/admin/bfs_resolver.py:34-39 | A child of two holders of different privileges inherits both, credited to one origin that does not hold both. |
| BfsResolver.InvertChildMap | backend/app/services/admin/bfs_resolver.py:43-49 | The inverted map holds every edge turned round, as often as the given map holds it. |
| BfsResolver.InvertTwice | backend/app/services/admin/bfs_resolver.py:43-49 | Inverting twice gives back every list of children as a multiset. |
| InverseGraph.InverseReaches | backend/app/services/admin/bfs_resolver.py:43-49 | One role reaches another in a graph exactly when the second reaches the first in its inverse. |
| BfsResolver.FastPath | backend/app/services/admin/bfs_resolver.py:68-75 | The privileges of the directly assigned roles, each credited to the first listed role that holds it. |
| BfsResolver.SlowPath | backend/app/services/admin/bfs_resolver.py:76-89 | Exactly the privileges of the nearest 100 reachable roles, or of all when there are fewer, each credited to a nearest direct role of a nearest role that holds it. |
| BfsResolver.BfsUserPrivs | backend/app/services/admin/bfs_resolver.py:65-89 | The direct privileges when a direct role has any, else exactly those of the nearest 100 roles reached upward, which is all that is reached when there are no more; every source reaches a role that holds what it is credited with. |
| BfsResolver.SearchedMeaning | backend/app/services/admin/bfs_resolver.py:76-89 | Below the cap the searched privileges are exactly those reached upward, each from its credited role. |
| BfsResolver.FastPathMissesNobody | backend/app/services/admin/bfs_resolver.py:68-89 | Once the privileged roles are closed under children, an uncapped upward search finds something exactly when a direct role is privileged: neither the early return nor the cap misses a user. |
| RoleAncestry.FindAncestorsWithGrants | backend/app/services/admin/bfs_resolver.py:118-131 | Exactly the proper ancestors that hold grants, each once, uncapped and on cyclic graphs. |
| GrantClassifier.InheritanceKeepsRelevance | backend/app/services/common/grant_classifier.py:136-236 | A relevant grant stays relevant under inheritance if and only if the query names a coordinate, or the type alone decides, or the types do not clash; it is owed a USAGE afterwards exactly when it was before. |
| GrantClassifier.InheritanceLosesRelevance | backend/app/services/common/grant_classifier.py:136-236 | A table grant answers a query for views without coordinates, its inherited copy does not. |
| GrantClassifier.OutOfScope | backend/app/services/common/grant_classifier.py:136-213 | A grant on a catalog object whose coordinates contradict the query is relevant if and only if it is the right to create objects of the queried type. |
| GrantClassifier.InScope | backend/app/services/common/grant_classifier.py:166-203 | An exact answer is a named object that no coordinate of the query contradicts; a USAGE is owed only for children within the scope. |
| GrantClassifier.CreateIgnoresScope | backend/app/services/common/grant_classifier.py:170-179 | CREATE TABLE on one database is relevant to a table of another. |
| RelevanceLaws.SystemLaw | backend/app/services/common/grant_classifier.py:142-150 | When the grant or the query is about the system, the grant is relevant if and only if both are, but for the right to create objects of the queried type. |
| RelevanceLaws.SystemCreateLaw | backend/app/services/common/grant_classifier.py:144-148 | The right to create resource groups, resources, storage volumes, warehouses, global functions or external catalogs is relevant to a query of that type, whatever it is held on. |
| RelevanceLaws.SystemRightLaw | backend/app/services/common/grant_classifier.py:144-150 | Every other right of the system is relevant to no query but one for the system. |
| RelevanceLaws.OutsideLaw | backend/app/services/common/grant_classifier.py:153-164 | A grant on something outside the catalogs is relevant if and only if the query has its type, and its name in front of a parameter list where both give one; it is exact when it names its object or no name is asked for. |
| RelevanceLaws.CatalogLaw | backend/app/services/common/grant_classifier.py:166-213 | A grant on catalog objects is relevant if and only if, as a right on databases, it is the right to create the queried object, and otherwise if no coordinate differs and the types fit where they matter; which of these grants owe a USAGE and which are exact. |
| GrantClassifier.Deduplicate | backend/app/services/common/grant_classifier.py:244-260 | Keeps, in order, exactly the first of all grants that agree on grantee, object type, privilege and coordinates, an absent coordinate counting as an empty one. |
| GrantClassifier.DedupKeepsGrantees | backend/app/services/common/grant_classifier.py:244-260 | A grantee is listed after deduplication exactly when it was before. |
| GrantRows.ClassifyAll | backend/app/services/common/grant_resolver.py:109-114 | The relevant collected grants in their order, each with its relevance. |
| GrantRows.RelevantMeaning | backend/app/services/common/grant_resolver.py:109-114 | A classified row occurs as often as its grant was collected when its relevance is right and not IRRELEVANT, and otherwise not at all. |
| GrantRows.RelevantOrder | backend/app/services/common/grant_resolver.py:109-114 | The classified rows stand in the order of collection. |
| GrantRows.RolePrivileges | backend/app/services/common/grant_resolver.py:116-122 | Every role with a relevant grant with exactly its privileges, and for each privilege the type of the first role grant of it. |
| GrantRows.AddChildRoles | backend/app/services/common/grant_resolver.py:124-141 | For every privilege of every inheriting role that held nothing one row, and none twice; the privileges extended by those roles. |
| GrantRows.AddUsers | backend/app/services/common/grant_resolver.py:146-165 | For every privilege a user gets through its roles one row, and none twice. |
| GrantRows.GiftReached | backend/app/services/admin/bfs_resolver.py:65-89 | As long as the cap leaves no role out, a user gets something exactly when one of its roles reaches a privileged role upward. |
| AnswerForm.Finalize | backend/app/services/admin/bfs_resolver.py:92-115 | The answers stand for rows in their order, each row that owes no USAGE for its own grant and the first one of a name that owes it for a USAGE on what is queried; field by field, whatever a row stands for is said, and nothing is said twice. |
| AnswerForm.ListsRows | backend/app/services/admin/bfs_resolver.py:92-115 | Where no USAGE is owed, the answer lists exactly the grantees with the privileges that the rows list. |
| GrantRows.FinalGrantees | backend/app/services/admin/bfs_resolver.py:92-115 | Exactly who is named after normalisation: a grantee with a row that is no USAGE, or with the first USAGE row of its name. So a grantee with rows is named unless a user and a role share the name, and then at least one of the two is. |
| GrantRows.SharedNameLost | backend/app/services/admin/bfs_resolver.py:92-115 | A user and a role of one name, each with a table grant in a queried database, come back as the user alone. |
| GrantResolver.Resolver.ResolveRoles | backend/app/services/common/grant_resolver.py:109-141 | After the role steps the rows and the privileges of the roles are exact; an inherited row has the coordinates of the query, the type of the first relevant role grant of its privilege, and as its source the first nearest holder above the role, in one order of the holders for all rows. |
| GrantResolver.Resolver.ResolveUsers | backend/app/services/common/grant_resolver.py:143-165 | Over whatever parent edges are used, the rows list exactly the privileges that the roles get down the child map and the users get from the search up those edges, with their sources. When the parent edges asked from the database are those of the collected child map (the in-memory path asks none): a role is listed exactly when a role with a relevant grant reaches it, a user exactly when it holds one or is assigned such a role. |
| SessionRoles.AddIntermediate | backend/app/services/common/grant_resolver.py:180-204 | Role by role of the chain that has no row, and ancestor by ancestor, each once, the grants of the ancestor are handed on in their order; so exactly the grants of all ancestors are. |
| SessionRoles.AddSelf | backend/app/services/common/grant_resolver.py:206-227 | For every privilege of a role row exactly one row of the user, which hands on some grant of it and credits the role or what the chain names for it. |
| SessionRoles.ChainAddedRows | backend/app/services/common/grant_resolver.py:174-227 | Exactly what is listed after the step: what was listed, all privileges of all ancestors for a role of the chain without a row, and the privileges of all roles for the user. |
| SessionRoles.AddedRowFields | backend/app/services/common/grant_resolver.py:180-227 | Every row of the step carries the privilege and the type of a role's grant on what the query names: for a role of the chain one of its ancestors' grants, credited to the ancestor, for the user any role's grant, credited to what the chain names for the role. |
| GrantResolver.Resolver.ForObject | backend/app/services/common/grant_resolver.py:106-172 | The answer is the normal form, field by field, of rows that list exactly what roles and users get over whatever parent edges are used; every grant in it was collected and is relevant, or passes on such a grant of a role on what the query names, or is a USAGE. When the edges agree with the child map, or in a session without the list of all users, where the rows of the role chain and of one user come behind, it names no other grantees, all of them for every name that is not both a user and a role, and at least one of two that share a name. |
| GrantResolver.SystemAnswers | backend/app/services/common/grant_resolver.py:106-172 | A query for the system is answered with exactly the roles below a role that holds a grant on the system, and with the users that hold one or are assigned such a role. |
| GrantResolver.Resolver.Attribute | backend/app/services/common/grant_resolver.py:95-98 | The grants of one role are credited to the source in place and listed. |
| GrantResolver.Resolver.ForRole | backend/app/services/common/grant_resolver.py:76-102 | The role's own grants, then those of the nearest ancestors, nearer ones first and at most 99, each with a parent at minimum distance as its source; the collected grants are overwritten accordingly and the others stay. |
| GrantResolver.ReportExact | backend/app/services/common/grant_resolver.py:76-102 | Exactly the collected grants of the role and of the listed ancestors are returned, as `direct` or under the source of the ancestor, and the collected grants hold them so afterwards. |
| GrantResolver.OthersStay | backend/app/services/common/grant_resolver.py:95-98 | The collected grants of users and of other roles are not changed. |
| RoleHelpers.BuildRoleChain | backend/app/utils/role_helpers.py:81-99 | Visits as many reachable roles as the cap of 100 allows, none farther from the direct roles than one left out, each with a direct role at minimum distance; it ends on cyclic graphs. |
| RoleHelpers.DirectRolesAre | backend/app/utils/role_helpers.py:81-83 | The search starts from the granted roles in their order, and from public behind them unless it is among them. |
| RoleHelpers.UncappedChain | backend/app/utils/role_helpers.py:81-99 | With at most 100 reachable roles the chain is the whole set. |
| RoleGraph.SearchChain | backend/app/utils/role_helpers.py:85-97 | What the search invariant gives when the queue runs empty or the cap is hit. |
| MyPermissions.CollectRoleChain | backend/app/services/common/my_permissions.py:30-61 | The tree holds the nearest 100 roles with their parents and grants, and no role in it is cut off from the direct roles. |
| MyPermissions.AnswerMeaning | backend/app/services/common/my_permissions.py:49-58 | A role of the tree holds the grants that were answered for it and each of its parents once. |
| MyPermissions.Collect | backend/app/services/common/my_permissions.py:420-437 | One depth-first call visits exactly the roles reached and not seen before, each once, and appends their rows in that order; cyclic trees included. |
| MyPermissions.FlattenEffective | backend/app/services/common/my_permissions.py:401-442 | The own grants, then for each direct role the grants of every role it reaches, each exactly once under that direct role, and nothing else. |
| MyPermissions.EffectiveExact | backend/app/services/common/my_permissions.py:401-442 | A row is shown if and only if it carries the five fields of an own grant as `direct`, or of a grant of a role that a direct role reaches, under the direct role or under both. |
| MyPermissions.EffectiveOrder | backend/app/services/common/my_permissions.py:407-440 | The own grants come first and in order, and every role counts once under each direct role that reaches it. |
| MyPermissions.ShownUnder | backend/app/services/common/my_permissions.py:420-440 | A grant of a reached role appears under the direct role with the source that names both. |
| MyPermissions.NoGrantLost | backend/app/services/common/my_permissions.py:40-61 | On a collected tree every grant of every role appears under at least one direct role. |
| Text.StripMeaning | backend/app/services/common/grant_parser.py:222-224 | Stripping takes exactly the white space at both ends. |
| Text.UpperLetters | backend/app/services/common/grant_classifier.py:138 | Every letter becomes its capital. |
| Text.UpperOthers | backend/app/services/common/grant_classifier.py:138 | Every other character stays. |
| GrantSpec.ValidatePrivileges | backend/app/services/shared/grant_spec.py:45-62 | The normalised privileges, each once in order of first mention, or the first error. |
| GrantSpec.CheckedMeaning | backend/app/services/shared/grant_spec.py:45-62 | Success exactly for a non-empty list of allowed privileges; the result holds every requested one, only allowed ones, none twice. |
| GrantSpec.NormalTwo | backend/app/services/shared/grant_spec.py:57 | A privilege of two words, however spaced, becomes the two words in capitals with one blank between them. |
| GrantSpec.ValidateObjectShape | backend/app/services/shared/grant_spec.py:65-76 | Success exactly when the given fields are those that the type requires. |
| SqlSafety.QuotingReadsBack | backend/app/utils/sql_safety.py:37-43 | Reading a quoted name gives the name and exactly the rest of the text if and only if the rest does not start with a backtick, for every name. |
| SqlSafety.QuotingInjective | backend/app/utils/sql_safety.py:37-43 | Two names are quoted alike only when they are equal. |
| SqlSafety.QuotedPairReadsBack | backend/app/utils/sql_safety.py:37-43 | A quoted pair reads back as the two names, whatever they contain. |
| GrantWriter.IdentityReadsBack | backend/app/services/admin/grant_writer.py:45-73 | The rendered form of every accepted user identity is accepted and means the same user and host. |
| GrantWriter.RenderingInjective | backend/app/services/admin/grant_writer.py:69-73 | Two accepted identities are rendered alike only when they mean the same pair. |
| PrintedStatements.IdentityExact | backend/app/services/admin/grant_writer.py:45-60 | An identity is accepted, as this user and host, if and only if it is spelled as the plain user with host `%`, as `user@host`, or in quotes, and both parts are safe. |
| PrintedStatements.PrintableExact | backend/app/services/admin/grant_writer.py:94-139 | Exactly the requests that are printed: a known grantee, and a role without object, privileges or option, or allowed privileges on an object with the fields of its type that can be written, and no option on a revocation. |
| PrintedStatements.PrintedSays | backend/app/services/admin/grant_writer.py:94-139 | The statements of every printed request: the list of distinct requested privileges or the role, the target or the role's name reading back as requested, the catalog pinned in front, TO or FROM, the grantee, and at most the grant option behind it. |
| PrintedStatements.GranteeReads | backend/app/services/admin/grant_writer.py:69-73 | The text printed for a user parses to the requested identity, the one printed for a role reads back as its name. |
| PrintedStatements.RevokeMirrors | backend/app/services/admin/grant_writer.py:121-135 | A revocation names the same list, target, grantee and catalog as the grant of the same request. |
| SignatureLanguage.SignatureExact | backend/app/services/admin/grant_writer.py:29-32 | The scanner for function signatures, which never goes back on a choice, accepts exactly the texts that the expression accepts with all its choices. |
| GrantParser.IterGrantStatements | backend/app/services/common/grant_parser.py:22-34 | Row by row and cell by cell, exactly the cells that start with GRANT, up to case. |
| GrantParser.ParseGrantStatement | backend/app/services/common/grant_parser.py:215-245 | A grant is read if and only if the statement matches and lists its privilege as a non-empty part, on the target that the ON clause names; in the order of the list. |
| GrantParser.FillCatalog | backend/app/services/common/grant_parser.py:49-65 | The catalog of the row goes into exactly the grants that name none and whose type has one. |
| GrantParser.ParseShowGrants | backend/app/services/common/grant_parser.py:47-69 | A grant is returned if and only if some cell of some row is a GRANT statement that grants it, completed by the catalog of that row; in order. |
| GrantParser.RowsInOrder | backend/app/services/common/grant_parser.py:30-34 | What is read from earlier rows comes first. |
| GrantParser.CellsInOrder | backend/app/services/common/grant_parser.py:30-34 | So it is cell by cell within a row. |
| GrantListings.ListedRow | backend/app/services/common/grant_parser.py:47-66 | A row with a catalog and a statement is read from the statement and completed with the catalog. |
| GrantListings.InDatabaseReads | backend/app/services/common/grant_parser.py:85-88 | `ALL <type>S IN DATABASE db` reads as one grant per privilege on that type in that database, with the catalog of the row, if and only if the database is not named `TO` in whatever case. |
| GrantListings.InAllDatabasesReads | backend/app/services/common/grant_parser.py:83-88 | `ALL <type>S IN ALL DATABASES` reads with the type alone, and names no database. |
| GrantListings.AllReads | backend/app/services/common/grant_parser.py:90-92 | `ALL <type>S` reads the same. |
| GrantListings.ListedPairReads | backend/app/services/common/grant_parser.py:110-113 | An unquoted `db.name` under an object type reads as that database and name, a star being kept as it is. |
| GrantListings.TripleReads | backend/app/services/common/grant_parser.py:146-163 | An unquoted `catalog.db.name` reads as the three names, a star as none. |
| GrantListings.ScopePairReads | backend/app/services/common/grant_parser.py:164-190 | Under DATABASE an unquoted `catalog.db` reads as that catalog and database, and `name.*` as the database of that name. |
| GrantListings.ListedNameReads | backend/app/services/common/grant_parser.py:146-190 | A single name reads as the database or the catalog that the type asks for, a star as none. |
| GrantListings.OutsideReads | backend/app/services/common/grant_parser.py:94-108 | The name of a storage volume, global function or resource group reads as the name, without a catalog whatever the row says, if and only if it is not `TO`. |
| GrantListings.SystemReads | backend/app/services/common/grant_parser.py:114-115 | A grant on the system reads with the type alone. |
| ListingPaths.PolicyNormal | backend/app/services/common/grant_parser.py:137-143 | A type that contains no known one is a policy if and only if it is about masking or row access, and stays as it is otherwise. |
| ListingPaths.OtherTypes | backend/app/services/common/grant_parser.py:121-140 | Warehouses, resources, users and failover groups are their own normal form. |
| GrantScanFacts.ListReadsBack | backend/app/services/common/grant_parser.py:222-245 | A printed list of privileges splits into exactly those privileges. |
| GrantScanFacts.ListWeight | backend/app/services/common/grant_parser.py:222-245 | Splitting and stripping a list loses no character but blanks and commas. |
| GrantScanFacts.NormalTypes | backend/app/services/common/grant_parser.py:119-143 | Every grantable object type is its own normal form, although the first keyword contained in it decides. |
| GrantRoundTrip.StatementReads | backend/app/services/common/grant_parser.py:215-245 | A printed statement reads as one grant per privilege on whatever its target text reads as; when the target cannot be read, the privileges do not come back. |
| GrantRoundTrip.SingleReadsBack | backend/app/services/common/grant_parser.py:94-115 | A database or catalog comes back exactly when its name is legible and no star. |
| GrantRoundTrip.PairReadsBack | backend/app/services/common/grant_parser.py:94-115 | A table, view or materialized view comes back exactly when both names are legible. |
| GrantReadsBack.FunctionReadsBack | backend/app/services/common/grant_parser.py:110-115 | A function comes back under its base name exactly when no newline stands in front of the point where the reader stops. |
| GrantPrintedReadsBack.TargetReads | backend/app/services/admin/grant_writer.py:76-91 | The printed target of a valid request reads as the requested one if and only if the names are readable. |
| GrantPrintedReadsBack.PrintedReadsBack | backend/app/services/admin/grant_writer.py:94-139 | The printed GRANT statement reads as exactly one grant per normalised privilege, in order, with the requested type, catalog, database and name, if and only if the names are readable. |
| GrantPrintedReadsBack.PrintedFields | backend/app/services/admin/grant_writer.py:94-139 | The same field by field: every grant read carries the grantee, the requested type, catalog, database and name, and one privilege of the list. |
| GrantPrintedReadsBack.ReadableReadsBack | backend/app/services/admin/grant_writer.py:94-139 | The same from a row that names the requested catalog, whatever the type. |
| GrantPrintedReadsBack.PlainRowReadsBack | backend/app/services/admin/grant_writer.py:94-139 | A listing row with the printed statement gives the request back, for every request over plain names. |
| GrantPrintedReadsBack.DottedNameIsLost | backend/app/services/admin/grant_writer.py:94-139 | A request for a database with a dot in its name is printed and does not read back. |
| GrantPrintedReadsBack.OthersReadNothing | backend/app/services/admin/grant_writer.py:121-135 | Revocations and the statement that pins the catalog read as nothing. |
| DagBuilder.DAGBuilder.AddNode | backend/app/services/shared/dag_builder.py:49-72 | Appended unless dedup finds the id among all nodes before; distinct ids stay distinct under dedup. |
| DagBuilder.DAGBuilder.AddEdge | backend/app/services/shared/dag_builder.py:74-94 | Appended under the next id unless dedup finds the ends among the edges added with dedup; a skipped edge takes no id. |
| DagBuilder.DAGBuilder.Build | backend/app/services/shared/dag_builder.py:96-98 | The accumulated graph; all its edge ids differ. |
| DagBuilder.EdgeIdInjective | backend/app/services/shared/dag_builder.py:90-91 | Different counters give different edge ids. |
| RoleDag.AddRoleAncestry | backend/app/services/shared/role_dag.py:33-62 | Processes the seeds and every other ancestor once, nearer ones first, adds one edge per occurrence of a parent in a processed role's list and one node per parent without one; ids stay distinct, no edge dangles when the seeds have nodes; it ends on cyclic graphs. |
| RoleDag.ProcessedOnce | backend/app/services/shared/role_dag.py:52-60 | Every role is processed exactly once if and only if the seeds are distinct. |
| RoleDag.TimesProcessed | backend/app/services/shared/role_dag.py:52-60 | A seed is processed as often as it is listed, every other ancestor once. |
| RoleDag.RepeatedSeed | backend/app/services/shared/role_dag.py:52-62 | With a seed listed twice the link to its parent is added twice. |
| RoleDag.LinkOccurrences | backend/app/services/shared/role_dag.py:57-62 | A link is added once for every time its role is processed and every time its parent is listed. |
| RoleDag.OneEdgePerOccurrence | backend/app/services/shared/role_dag.py:57-62 | With distinct seeds a link to a reached role is added exactly as often as its parent is listed. |
| RoleDag.AncestryIsWhole | backend/app/services/shared/role_dag.py:33-62 | Distinct nodes stay distinct and both ends of every edge are nodes. |
| DrawnRoles.AncestryDrawn | backend/app/services/shared/role_dag.py:52-62 | The inheritance edges of a walk lead from one role down to another if and only if the first is the other one or an ancestor of it. |
| DrawnRoles.ParentNodes | backend/app/services/shared/role_dag.py:61 | The nodes added show parents under their own names, and every parent without a node gets one. |
| DrawnRoles.CategoryExact | backend/app/services/shared/role_dag.py:28-30 | Root, the other built-in roles, and all others are told apart. |
| RoleHierarchy.BuildRoleHierarchy | backend/app/services/shared/role_dag.py:65-95 | The user, the direct roles with their assignments, and exactly the links of the nearest 100 roles, nearer ones first; distinct node ids, dense edge ids, no edge without its nodes although the cap leaves roles unprocessed. |
| DrawnRoles.HierarchyShown | backend/app/services/shared/role_dag.py:65-95 | Only the roles of the user lead to the user's node, and all of them do when there are at most 100. |
| DagComponents.FindNeighbours | frontend/src/components/dag/dagLayout.ts:76-83 | Two ids are neighbours exactly when the first is laid out and an edge joins them. |
| DagComponents.FindComponent | frontend/src/components/dag/dagLayout.ts:88-98 | One search finds what its start reaches but for what earlier searches visited, and keeps the visited set closed. |
| DagComponents.FindComponents | frontend/src/components/dag/dagLayout.ts:84-100 | The components are disjoint, cover every laid out node, and contain with a node exactly the laid out nodes connected to it, even when edges lead to ids that are not laid out. |
| DagComponents.ShareIffConnected | frontend/src/components/dag/dagLayout.ts:84-100 | Two laid out nodes share a component if and only if an undirected path of laid out nodes joins them. |
| DagRows.SortByX | frontend/src/components/dag/dagLayout.ts:258-259 | The same nodes in ascending order of position. |
| DagRows.PlaceRow | frontend/src/components/dag/dagLayout.ts:248-270 | The siblings stand in a row in the order of their former positions, exactly GAP apart, centred below the parent and GAP below it. |
| DagRows.RowApart | frontend/src/components/dag/dagLayout.ts:267-270 | Any two members of a row are at least GAP apart. |
| DagFamilies.GroupParents | frontend/src/components/dag/dagLayout.ts:227-232 | The parent of a group is p if and only if an edge leads from p, which is no group, to the group and no later edge leads there from outside the groups. |
| DagFamilies.SiblingsByParent | frontend/src/components/dag/dagLayout.ts:234-242 | For every parent exactly its groups in order; no empty list, no key twice. |
| DagFamilies.FindFamilies | frontend/src/components/dag/dagLayout.ts:245-247 | Every group whose parent is placed is in the family of that parent, no parent is a group, and no two families have the same parent. |
| DagFamilies.PlaceRows | frontend/src/components/dag/dagLayout.ts:244-271 | All families end in rows, no row disturbs another, and nodes that are no groups stay. |
| DagPacking.BoundsHold | frontend/src/components/dag/dagLayout.ts:283-288 | The bounding box contains every member. |
| DagPacking.BoundsLeast | frontend/src/components/dag/dagLayout.ts:283-288 | Whatever area contains the members contains the bounding box. |
| DagPacking.AllClear | frontend/src/components/dag/dagLayout.ts:316-335 | When no boxes clash, any two members of the same or of different boxes that overlap vertically are at least GAP apart horizontally. |
| DagBoxes.Box.Shift | frontend/src/components/dag/dagLayout.ts:300-314 | The box and all its members move by the same amount along x and not otherwise. |
| DagBoxes.PartPair | frontend/src/components/dag/dagLayout.ts:323-332 | Exactly a clashing pair is pushed apart, by opposite amounts; everything else stays. |
| DagBoxes.PartedClear | frontend/src/components/dag/dagLayout.ts:323-332 | A pair that was pushed ends exactly twice the gap apart, and no treated pair clashes. |
| DagBoxes.Round | frontend/src/components/dag/dagLayout.ts:319-334 | One round over all pairs reports a change exactly when two boxes clashed before it. |
| DagBoxes.RoundsBalanced | frontend/src/components/dag/dagLayout.ts:316-335 | However many rounds: every box moves rigidly along x, and the displacements add up to zero. |
| DagBoxes.ClashFreeForGood | frontend/src/components/dag/dagLayout.ts:316-335 | Once no boxes clash, further rounds change nothing, so stopping early is safe. |
| DagBoxes.SettlesAtOnce | frontend/src/components/dag/dagLayout.ts:316-335 | When two boxes are the only ones that clash and have room beside them for the push, one round moves exactly these two and the layout is settled. |
| DagBoxes.Separate | frontend/src/components/dag/dagLayout.ts:316-335 | The boxes end where fifty rounds take them; the rounds settle exactly when one of the fifty finds no clash, and then every box ends GAP before any later one beside it; a layout without a clash is settled and stays; displacements are rigid and add up to zero. |
| DagBoxes.BalancedKeeps | frontend/src/components/dag/dagLayout.ts:316-335 | The sum of the x positions, the sizes, the y positions and the offsets of members in their boxes are unchanged. |
| DagLayout.Pack | frontend/src/components/dag/dagLayout.ts:273-314 | The boxes are the clusters of the families and then the nodes of no family; they share no object, and each contains its members. |
| DagLayout.InSomeBox | frontend/src/components/dag/dagLayout.ts:278-293 | Every placed node is a member of some box. |
| DagLayout.NodesClear | frontend/src/components/dag/dagLayout.ts:316-335 | From boxes without a clash to nodes: any two placed nodes are clear of each other. |
| DagLayout.Arrange | frontend/src/components/dag/dagLayout.ts:226-335 | Every placed group is in the family of the placed node, if it has one, that leads to it last from outside the groups, and in no other, and ends in a row below it however the rounds end; the boxes end where fifty rounds take them from their packed poses around parents that have not moved; if they settle, any two nodes that overlap vertically are at least GAP apart horizontally. |
| DagHighlight.BuildAdjacency | frontend/src/components/dag/useDagHighlight.ts:42-48 | Exactly the targets and the sources of the edges at every node, in order. |
| DagHighlight.DrawnStep | frontend/src/components/dag/useDagHighlight.ts:42-48 | One step down the graph is one drawn edge. |
| DagHighlight.DownUpInverse | frontend/src/components/dag/useDagHighlight.ts:42-48 | The two maps hold the same edges in opposite directions, as often. |
| DagHighlight.Sweep | frontend/src/components/dag/useDagHighlight.ts:50-66 | One search adds exactly what its start reaches over nodes not in the shared set. |
| DagHighlight.ConnectedIds | frontend/src/components/dag/useDagHighlight.ts:38-69 | The clicked node, everything below it, and everything above it that is reached upward without passing a node below. |
| DagHighlight.OnlyRelated | frontend/src/components/dag/useDagHighlight.ts:38-69 | Nothing but ancestors and descendants is highlighted. |
| DagHighlight.HighlightExact | frontend/src/components/dag/useDagHighlight.ts:38-69 | For all drawn edges, cycles or not: a node is highlighted exactly when the clicked node leads to it, or it leads to the clicked node without passing one of those nodes. |
| DagHighlight.CompleteIffCyclesOpen | frontend/src/components/dag/useDagHighlight.ts:38-69 | All ancestors and descendants are highlighted if and only if every outside node with an edge into a cycle through the clicked one also leads to it without passing a node that the clicked one leads to; a condition on the drawn edges alone. |
| DagHighlight.CompleteOffCycles | frontend/src/components/dag/useDagHighlight.ts:38-69 | A clicked node on no cycle, so any node of an acyclic graph, is highlighted with all its ancestors and descendants. |
| DagHighlight.HighlightMeaning | frontend/src/components/dag/useDagHighlight.ts:38-69 | Off cycles a node is highlighted exactly when the clicked node leads to it or it leads to the clicked node. |
| DagHighlight.DarkAncestor | frontend/src/components/dag/useDagHighlight.ts:59-66 | On three drawn edges, a cycle of two nodes and an edge into it, an ancestor of the clicked node stays dark. |
| RateLimit.SlidingWindowRateLimiter.Allow | backend/app/utils/rate_limit.py:26-37 | While the clock does not run backwards for the key, an attempt is accepted exactly when fewer than the maximum of accepted ones lie in the window that ends now, counted over the full history; other keys are not touched. |
| RateLimit.SlidingWindowRateLimiter.Reset | backend/app/utils/rate_limit.py:39-41 | Every history starts anew. |
| RateLimit.WindowHolds | backend/app/utils/rate_limit.py:26-37 | However attempts are spread, no window of the length, wherever it ends, holds more accepted ones than the maximum. |
| RateLimit.AttemptKeepsAll | backend/app/utils/rate_limit.py:29-37 | The trimmed lists refine the full histories of all keys after every attempt. |
| CatalogSearch.MergeTail | backend/app/services/common/catalog_search.py:136-146 | The loop with its early break returns the first hit of every path, cut at the limit. |
| CatalogSearch.MergedMeaning | backend/app/services/common/catalog_search.py:136-146 | At most the limit of hits, one where it is below one, with distinct paths, and one for every path unless the limit was reached. |
| CatalogSearch.MergedFirst | backend/app/services/common/catalog_search.py:136-146 | The hits returned are the first ones of their paths, in order, and none in between is left out. |
| CatalogSearch.LimitTwice | backend/app/routers/user_search.py:62-85 | Merging own hits with the already deduplicated and cut catalog hits equals merging them with the full list, for every limit and whatever paths occur in both. |
| DagStore.Store.LoadDag | frontend/src/stores/dagStore.ts:68-76 | The start of a load is the load event: publish a cached graph, or show nothing and fetch. |
| DagStore.Store.Settled | frontend/src/stores/dagStore.ts:77-80 | A returned fetch publishes and caches its graph if its key is still current and is dropped otherwise. |
| DagStore.Store.Failed | frontend/src/stores/dagStore.ts:81-84 | A failed fetch ends the loading state if its key is still current. |
| DagStore.Store.ClearDagCache | frontend/src/stores/dagStore.ts:86-86 | The four fields are reset while fetches stay under way. |
| DagStore.StepSafe | frontend/src/stores/dagStore.ts:68-86 | Every event keeps: the graph shown is none or the cached one of the current key, cached graphs came from fetches for their keys, loading means nothing is shown and a fetch for the current key is under way. |
| DagStore.RunSafe | frontend/src/stores/dagStore.ts:68-86 | So it is after every interleaving of loads, settles, failures and clears. |
| DagStore.NothingLeftLoading | frontend/src/stores/dagStore.ts:68-86 | Once all fetches have ended, nothing is loading. |
| DagStore.LastLoadDecides | frontend/src/stores/dagStore.ts:68-86 | After a load the key stays current until the next load or clear; the last graph returned for it is shown and cached, and until one is, what the cache held or nothing is shown; loading lasts until the first fetch for it ends; fetches for other keys change nothing. |
| DagStore.LoadFetches | frontend/src/stores/dagStore.ts:68-77 | A load fetches exactly the keys that are not cached. |
| DagStore.ClearedStays | frontend/src/stores/dagStore.ts:77-86 | After a clear the store stays empty until the next load, whatever fetches under way return. |
| SizeUtils.PrintedReads | backend/app/services/shared/size_utils.py:19-41 | The printed text reads back, character by character, as the number and the unit it was printed with. |
| SizeUtils.UnitShown | backend/app/services/shared/size_utils.py:34-41 | A size is printed in the largest unit that fits in it, under its name, to the nearest hundredth, or in whole bytes below 1024. |
| SizeUtils.UnitReads | backend/app/services/shared/size_utils.py:19-31 | A whole number in front of B, KB, MB, GB, TB or PB counts as many of these powers of 1024. |
| SizeUtils.ReadBack | backend/app/services/shared/size_utils.py:19-41 | What comes back: whole bytes below 1024, hundredths of the unit from there on. |
| SizeUtils.RoundTripError | backend/app/services/shared/size_utils.py:19-41 | The error is at most half a percent from 1024 on and less than one byte below. |
| SizeUtils.RoundTripMonotone | backend/app/services/shared/size_utils.py:19-41 | A larger size never reads back smaller, across every unit boundary. |

## Left out

- GrantResolver.Resolver.ResolveUsers: when parent edges asked from the database disagree with the collected child map, users are characterised by the search over those edges, not by the child map.
- GrantResolver.Resolver.ForRole: the grants are values in a sequence field, so overwriting a source is modelled, but not that other lists share the same grant objects.
- GrantPrintedReadsBack.PrintedReadsBack: WITH GRANT OPTION is printed and dropped by the parser; role assignments are printed with backticks and read with quotes elsewhere, so both stay outside the round trip.
- GrantParser.ParseShowGrants: the query for the rows and the logging of a failing one are left out; the rows are given.
- SizeUtils.PrintedReads: sizes are real numbers, so binary rounding of decimal text is not modelled, and number texts with exponents, underscores, `inf` or `nan` are not read.
- RateLimit.SlidingWindowRateLimiter.Allow: the lock and the default clock are left out; times are reals.
- DagComponents.FindComponents: the sort of the components by size only fixes their order on screen.
- DagLayout.Arrange: starts from distinct node ids and non-negative sizes; positions come from the Dagre library, whose call and the alignment of built-in roles and users are not part of this model.
- DagStore.Store.LoadDag: keys are plain strings, not names that JavaScript objects inherit, and `setDagData` is outside the protocol.
- `for_user` and the views of effective privileges: comprehensions over the collected grants and the session's own role chain.
- `get_inheritance_dag`, the admin role hierarchy and the object graph: further users of the same builder.
- SQL execution, connection pools, threads, HTTP routes, login and audit: input and output.
- React components, styling, filters and polling: user interface.
- Expiring caches, session store and cache registry: they would only add easy members.
- DDL expressions, classifier strings, time labels and display grouping: shallow string handling.
