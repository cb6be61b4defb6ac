# Verified model of the artifact reconciliation engine

This product drafts software designs: a requirements document, a database schema, an HTTP API, a
cost comparison, an effort estimate and a roadmap. The drafts come from a language model and are
untrusted. A layer of plain functions in `packages/shared/src` rewrites each draft until it meets
rules the rest of the product relies on. These modules model that layer, together with two small
pieces of the web client, and prove what it guarantees.

## What is modelled

| part | modules |
|---|---|
| text and collections: trimming, case folding, splitting, ordered sets and maps, first-wins de-duplication, the counting-suffix search | `Text`, `Collections`, `Numerals`, `TextLaws`, `Segments` |
| the artifacts | `Schema` |
| API coverage: name resolution, validation, merging, the deterministic REST builder, the guarantee that every table has an API or a reason | `Coverage`, `Merge`, `RestApi`, `ListQuery`, `RestPartition`, `RestRoutes`, `RestWrites`, `Completeness`, `StuckExample`, `ReadBack`, `GroupReach`, `Resolution`, `QueryOffers`, `RestContract`, `BuildContract`, `BuildShape`, `MergeForms` |
| API normalizing at both storage boundaries | `StatusCodes`, `Normalize`, `Lossless`, `LosslessAuth`, `BasePaths`, `SpacedBases`, `NormalizeTwice`, `NormalForms`, `CodeForms` |
| field types and user roles agreeing with the schema | `FieldTypes`, `FieldReconcile`, `FieldGrounding`, `Roles`, `RoleRepair`, `RoleReach`, `RoleReading`, `BuildTypes`, `TypeVocabulary`, `TypeReport`, `FieldReading` |
| tenancy, shared records and log tables in the schema | `Shared`, `SharedSafety`, `Tenancy`, `TenancySafety`, `OwnershipSafety`, `TenancyTwice`, `TenancyExamples`, `SupportTables`, `Closure`, `SharedMatching`, `SharedReport`, `DemotedNames`, `TenantKey`, `TenancyStripped`, `LogTables` |
| effort and roadmap | `Effort`, `EffortRounding`, `EffortSizes`, `Roadmap`, `PlanShares` |
| hosting cost and the hosting decision | `Cost`, `BillTable`, `Hosting`, `HostingForms`, `CostEstimates` |
| handler names of the generated controllers | `Handlers`, `HandlerForms` |
| CSV export | `Csv`, `CsvForms` |
| the live generation stream | `Stream`, `StreamDispatch` |

A pass that works by pushing to arrays, filling maps and sets or looping is a `method` with loop
invariants, proved equal to a specification function; the theorems are lemmas about those
functions. Besides what the functions keep and how they work together, each main operation has a
theorem that writes its result out with the program's own literals, without naming the functions that
compute it (`...IsWrittenOut`, `...Iff`). The open stream, whose callbacks update its flags, is a class. Lists are `seq`, JavaScript's
ordered `Set` and `Map` are sequences in insertion order (or `set`/`map` where the order is never
read), money and weeks are `real`, and `Math.round(x)` is `(x + 0.5).Floor`.

## Where the code differs from what is written about it

The model follows the code. Each difference is a theorem.

- "Every entity is covered or excluded" (`api-design.rest.ts:544-551`) needs a reason on every
  exclusion. A join table excluded with a blank reason is counted as missing, nested by the
  fallback, and then its generated reason is dropped because the entity is already declared. For
  table names with distinct, non-empty keys, `Completeness.OnlyBlankJunctionsFail` shows this is the
  only way to fail, `Completeness.EnsureIsCompleteIff` says exactly when it does, and
  `StuckExample.BlankReasonIsStuck` is a concrete design. `normalizeExcludedEntities` drops such
  exclusions, so under the same condition on names a design that was normalized first is always
  completed. A table name without ASCII letters or digits has an empty key: nothing resolves to
  it, and it is missing from every design (`Completeness.EmptyKeyIsMissing`).
- The stored design is read through `normalizeApiDesign`, which keeps one group of a name up to space
  and case, while the fallback tells names apart by their exact spelling. So a complete design can
  be incomplete for its readers (`ReadBack.MisnamedGroupHidesTable`); `ReadBack.ReadingKeepsCoverageIff`
  says exactly when. For the same reason a table called `auth` loses its group to the Auth group
  (`LosslessAuth.AuthTableIsLost`), and it is the only such table
  (`LosslessAuth.WholeBuildSurvivesIff`).
- "A second pass changes nothing" (`shared-entities.spec.ts:209-223`) holds exactly when
  `TenancyTwice.AppliedTwiceIff` says. It fails when a table described as shared is a boundary only
  because of a key the first pass renames (`TenancyExamples.ClinicIsNotStable`: the first pass leaves
  it its mandatory owner, the second corrects it); when the correction renames the only scoping key
  of a schema, so that the second pass adds a tenant table (`TenancyExamples.PracticeIsNotStable`);
  and, for a single business, when removing one scope table makes another one the majority
  (`TenancyExamples.ShopIsNotStable`).
- "No surviving table references a doomed one" (`database-design.scope.ts:180-182`) is false exactly
  when a log is passed over while it is doomed and saved later although it references a log nobody
  saves (`SupportTables.DanglingSurvivorIff`); exactly such a log loses columns
  (`SupportTables.SurvivorLosesColumnsIff`, with `SupportTables.SparedLogLosesItsColumn` for a
  concrete chain). Closure still holds (`Closure.StripKeepsClosure`), except for a reference that
  spells a removed log with a stray space (`Closure.StripKeepsClosureIff`, `Closure.StrandedIsStray`,
  `Closure.StripLeavesSpacedReference`).
- Normalizing runs on write and on read. `SpacedBases.EveryBaseIff` names exactly the base paths
  under which the second run never changes a path, and `NormalizeTwice.NormalizingTwiceIff` says which
  stored designs are read back as they are. A base outside `/api` with several segments and
  a trailing slash is not one of them (`Normalize.TrailingSlashDoublesThePath`).
- The role repair is said to leave the deterministic builder's output alone
  (`api-design.rest.ts:307-309`). For users, roles and a join table it rewrites the generated link
  endpoint, whose body names one role, into one that takes an array (`RoleRepair.BuildIsRewritten`);
  `RoleReach.BuildIsRewrittenIff` says for which schemas it rewrites the build, Auth group included.
- "The deterministic build already agrees with the schema" (`api-design.field-types.ts:285-287`): a text
  column called `page` gets the pagination parameter retyped (`BuildTypes.PageIsRetyped`), and
  `BuildTypes.BuildIsRetypedIff` says for which schemas the type repair changes the build.
- Adding tenancy is one-shot only when some table received a key (`TenancySafety.AddingTwice`).
- The stream is documented to use the plain route when it fails before any event
  (`stream.ts:111-115`). The listener registered for `error` hears the failure first and marks the
  stream as received, so under the browser's own dispatch that route is never taken
  (`Stream.NeverFallsBack`, `Stream.LostAtOnceIsInterrupted`); it is taken exactly for an
  error callback with no callback before it (`Stream.SettlesOnce`).
- `reconcileHosting` also says "no host was named" when a named priced host is not among the
  candidates (`cost-estimate.hosting.ts:765-767`, `Hosting.DecisionIsViable`). From
  `estimateCosts`, which prices every provider, this cannot happen
  (`CostEstimates.HostingIsDecided`).

## Model

| member | source | states |
|---|---|---|
| Collections.DedupeBy | packages/shared/src/collections.ts:30-40 | The `seen`-set loop yields exactly the specified first-wins list |
| Collections.DedupedByDistinct | packages/shared/src/collections.ts:30-40 | No two survivors share a trimmed, case-folded key |
| Collections.DedupedByKeepsKey | packages/shared/src/collections.ts:30-40 | Every key of the input survives |
| Collections.FirstPositionsExact | packages/shared/src/collections.ts:30-40 | The survivors are exactly the first items of their key, in input order |
| Collections.DedupedByIdempotent | packages/shared/src/collections.ts:30-40 | De-duplicating twice is de-duplicating once |
| TextLaws.IesIsY | packages/shared/src/text.ts:40-44 | `-ies` behind a consonant becomes `-y`, in any case |
| TextLaws.EsIsDropped | packages/shared/src/text.ts:40-44 | `-es` goes behind a hissing sound |
| TextLaws.SIsDropped | packages/shared/src/text.ts:40-44 | In any other plural only the "s" goes |
| Numerals.PickFreeName | packages/shared/src/api-design.coverage.ts:217-220 | The rename loop ends (the untried part of the finite used set shrinks) at a name not in use |
| Numerals.FreeIndexIsFirstFree | packages/shared/src/api-design.coverage.ts:217-220 | The number reached is the first free one: all earlier candidates were taken |
| Coverage.MakeResolver | packages/shared/src/api-design.coverage.ts:39-59 | The two maps answer, for every value, as "last exact key, else first singular" does |
| Coverage.ResolveIsFixedPoint | packages/shared/src/api-design.coverage.ts:39-59 | With distinct non-empty keys, whatever a value resolves to is a listed name that resolves to itself |
| Resolution.KeyIsLettersAndDigits | packages/shared/src/api-design.coverage.ts:30-32 | A name is compared on its letters and digits alone, letters in lower case |
| Resolution.ResolveIff | packages/shared/src/api-design.coverage.ts:39-59 | For any names: a value stands for the last name with its key or, when there is none, for the first name with its key and an "s"; it resolves to exactly that name |
| Resolution.NothingIsMeant | packages/shared/src/api-design.coverage.ts:54-58 | A value without letters or digits, or that is neither a key nor the singular of one, resolves to nothing |
| Coverage.InferWith | packages/shared/src/api-design.coverage.ts:85-104 | The inference loop finds the distinct entities mentioned before the first parameter of some path, in order |
| Resolution.InferredIff | packages/shared/src/api-design.coverage.ts:85-104 | A group is inferred to serve exactly the tables meant by a segment of one of its paths that is not the prefix and has no parameter before it |
| Coverage.WithResolvedCoverage | packages/shared/src/api-design.coverage.ts:111-141 | The claim, inference and exclusion loops compute the specified resolved design |
| Coverage.ResolvedClaims | packages/shared/src/api-design.coverage.ts:116-126 | A resolved group lists settled, distinct names: exactly the resolved claims and the inferred ones |
| Coverage.ResolvedCoverageIdempotent | packages/shared/src/api-design.coverage.ts:111-141 | Resolving a whole design twice equals resolving it once, for distinct non-empty keys |
| Completeness.ServedIsNotExcluded | packages/shared/src/api-design.coverage.ts:128-134 | In a resolved design no exclusion names an entity that a group serves |
| Coverage.ValidateEntityCoverage | packages/shared/src/api-design.coverage.ts:153-184 | The set-building loops report exactly the covered, excused and missing names |
| Coverage.CoveragePartitions | packages/shared/src/api-design.coverage.ts:153-184 | As multisets covered, excluded and missing add up to the entity names, and no name is in two of them |
| Merge.MergeMissingCoverage | packages/shared/src/api-design.coverage.ts:200-240 | The merge loops compute the specified design |
| Merge.MergeOnlyFillsGaps | packages/shared/src/api-design.coverage.ts:205-223 | Old groups are an unchanged prefix, each new one covers at least one missing entity and nothing else, names stay distinct if they were |
| Merge.MergeExclusionsOnlyExcusesGaps | packages/shared/src/api-design.coverage.ts:225-234 | Old exclusions are an unchanged prefix; new ones are justified and name missing, unfilled, undeclared entities, each once |
| MergeForms.GroupsAreTakenOver | packages/shared/src/api-design.coverage.ts:203-223 | Behind the designed groups come, in order, exactly those that claim a missing entity, each unchanged but for the first free name and for its coverage, the missing entities it claims |
| MergeForms.ReasonsAreTakenOver | packages/shared/src/api-design.coverage.ts:225-234 | Exactly the missing entities with a stated reason that no group lists become excluded, each with the first reason stated, trimmed |
| RestApi.ListQueryParams | packages/shared/src/api-design.rest.ts:183-229 | The push sequence computes the specified parameters |
| ListQuery.QueryParamsAreSound | packages/shared/src/api-design.rest.ts:183-229 | Pagination first, no name twice, every filter grounded in a column with that column's type, each allowed foreign key present, bounded length |
| QueryOffers.QueryIsOffers | packages/shared/src/api-design.rest.ts:66-72 | The parameters are exactly what the columns give reason to offer, in order, each name once: pagination, free text, the lifecycle state, a range in time, the allowed number of keys |
| RestApi.BuildRestApi | packages/shared/src/api-design.rest.ts:469-542 | The three map-mutating passes compute the specified build |
| RestContract.LinkTableIff | packages/shared/src/api-design.rest.ts:239-248 | A junction has two keys at least and besides them only its primary key and what the server keeps |
| RestContract.ParentIs | packages/shared/src/api-design.rest.ts:481-487 | A table hangs off the target of its first key to another known table |
| RestContract.DemandIs | packages/shared/src/api-design.rest.ts:82-171 | The filters each tier allows |
| BuildContract.GroupsAreWrittenOut | packages/shared/src/api-design.rest.ts:396-542 | For distinct table names, every group of a build in full: list, create, read, replace and delete of its table, then three endpoints for each link table, then one for each child, in order; method, path, codes, summary, and the columns each accepts and returns |
| BuildShape.OwnEndpointsComeFirst | packages/shared/src/api-design.rest.ts:396-457 | For any schema, repeated names included, each group starts with exactly those five endpoints of a table of its name |
| BuildShape.LeftOutIff | packages/shared/src/api-design.rest.ts:493-528 | For distinct names, a table has no group of its own if and only if it is a link table whose parent has one when it is its turn |
| BuildShape.LeftOutHasReason | packages/shared/src/api-design.rest.ts:515-523 | Whatever is left out is such a link table, with a reason naming both sides and the route that manages it |
| BuildShape.BuildIsHandedOver | packages/shared/src/api-design.rest.ts:353-393 | The Auth group, written out, goes in front when asked for, and every other group bears the given source |
| RestPartition.BuildPlacesScope | packages/shared/src/api-design.rest.ts:469-542 | For any schema, repeated names included, every in-scope name gets a group or a reasoned exclusion and nothing else does; each group serves its one entity on paths under its own base |
| RestPartition.BuildPartitionsScope | packages/shared/src/api-design.rest.ts:469-542 | For tables with distinct names, every in-scope entity gets exactly one group or exactly one reasoned exclusion, junction parents included |
| RestWrites.WritableFieldsExact | packages/shared/src/api-design.rest.ts:410-412 | A write schema holds exactly the columns a client owns, with their types, minus the one already in the path |
| RestWrites.BuildAcceptsOnlyClientFields | packages/shared/src/api-design.rest.ts:469-542 | For any schema no generated write endpoint, nested or not, accepts a field the server manages |
| RestRoutes.BuildRoutesAreDistinct | packages/shared/src/api-design.rest.ts:469-542 | For plain names (trimmed, non-empty, slash-free, distinct up to case) no (method, path) key repeats in a group |
| Lossless.BuildSurvivesNormalizing | packages/shared/src/api-design.ts:268-335 | For plain names, normalizing a build without the Auth group (a fallback build) loses no group, endpoint or exclusion; only white space at a path's end goes |
| LosslessAuth.WholeBuildSurvivesIff | packages/shared/src/api-design.ts:268-335 | For plain names, normalizing a whole interface, Auth group first, loses nothing else if and only if no table that gets a group is called `auth` up to case |
| LosslessAuth.AuthTableIsLost | packages/shared/src/api-design.ts:321-331 | A concrete schema whose table loses its group to the Auth group |
| GroupReach.GroupedAreKeys | packages/shared/src/api-design.rest.ts:493-530 | Which tables get a group of their own, read off the schema alone |
| GroupReach.BuildReflects | packages/shared/src/api-design.rest.ts:469-542 | What is said of endpoints holds in exactly the groups that the tables carrying it reach: their own, their parent's as a nested junction, or their parent's as a child collection |
| RestApi.EnsureEntityCoverage | packages/shared/src/api-design.rest.ts:552-575 | Resolve, validate, build, merge, resolve again: the calls compute the specified design |
| Completeness.EnsureIsComplete | packages/shared/src/api-design.rest.ts:544-575 | When every exclusion carries a reason, the result always validates with nothing missing |
| Completeness.OnlyBlankJunctionsFail | packages/shared/src/api-design.rest.ts:544-575 | Complete for every design that leaves no reason blank on a junction with a known parent |
| Completeness.EnsureIsCompleteIff | packages/shared/src/api-design.rest.ts:552-575 | For slash-free names the result validates exactly when no missing entity is both already excluded and nested by the fallback |
| Completeness.EmptyKeyIsMissing | packages/shared/src/api-design.coverage.ts:39-59 | A table name without letters or digits is missing from every design |
| Resolution.MissingIff | packages/shared/src/api-design.rest.ts:557-560 | Read off the design as it came, a table is missing exactly when no group claims or addresses it and no reasoned exclusion means it |
| Resolution.NothingIsAddedIff | packages/shared/src/api-design.rest.ts:552-575 | No group is generated if and only if every table is claimed, addressed or excused |
| Resolution.DesignedGroupsStay | packages/shared/src/api-design.rest.ts:552-575 | The designed groups stay in front as they are but for their list of tables, which names exactly what each claims or addresses |
| Resolution.SingularGroupIsEnough | packages/shared/src/api-design.coverage.ts:45-57 | One group at `/api/user` is all a table called `users` needs, whatever it claims |
| StuckExample.BlankReasonIsStuck | packages/shared/src/api-design.coverage.ts:225-234 | A concrete schema and design for which the guarantee fails |
| ReadBack.ReadingKeepsCoverageIff | packages/shared/src/api-design.ts:321-335 | For any design: reading it back keeps it complete if and only if it was complete and no table is served only under a name an earlier group has, up to space and case |
| ReadBack.EnsuredReadsCompleteIff | packages/shared/src/api-design.rest.ts:544-575 | The guarantee as a reader sees it: with reasons on all exclusions, complete exactly when no table is lost that way |
| ReadBack.DistinctNamesReadComplete | packages/shared/src/api-design.ts:321-335 | Nothing is lost when no two groups share a name up to space and case |
| ReadBack.MisnamedGroupHidesTable | packages/shared/src/api-design.coverage.ts:217-220 | A concrete design that is complete when stored and incomplete when read |
| StatusCodes.NormalizeStatusCodes | packages/shared/src/api-design.ts:204-238 | The visitors pushing into one array compute the specified list |
| StatusCodes.StatusCodesClean | packages/shared/src/api-design.ts:204-238 | Whatever the input, the codes are distinct and between 100 and 599 |
| StatusCodes.PrintedCodesRecovered | packages/shared/src/api-design.ts:186-238 | Codes printed glued or split by any non-digits come back in order, later duplicates dropped |
| StatusCodes.StatusCodesIdempotent | packages/shared/src/api-design.ts:204-238 | Normalizing the result again changes nothing |
| CodeForms.NumberIs | packages/shared/src/api-design.ts:204-232 | A number below a thousand, its sign and fraction dropped, is a code exactly from 100 to 599 |
| CodeForms.RunIsOneNumber | packages/shared/src/api-design.ts:209-223 | A run of digits that does not come apart into codes is read as one number |
| Normalize.NormalizeApiModule | packages/shared/src/api-design.ts:268-292 | Normalizing a group, its de-duplications included, computes the specified group |
| Normalize.NormalizeApiDesign | packages/shared/src/api-design.ts:321-335 | Normalizing a design computes the specified design |
| Normalize.NormalDesignIsClean | packages/shared/src/api-design.ts:268-335 | No group name and no route within a group repeats, codes are clean, every exclusion has a reason |
| Normalize.PathsBecomeAbsolute | packages/shared/src/api-design.ts:166-183 | Under a base below `/api` every endpoint path is below `/api` |
| NormalForms.VerbIs | packages/shared/src/api-design.ts:245-248 | A verb is read in any case; anything else is a GET |
| NormalForms.PathIs | packages/shared/src/api-design.ts:166-173 | No path is the base, and an absolute path or one below the base stays |
| NormalForms.RelativeIsJoined | packages/shared/src/api-design.ts:175-184 | Any other path goes below the base, and one that repeats the resource the base ends in takes its place |
| NormalForms.ClaimsAre | packages/shared/src/api-design.ts:283-288 | The claims kept are the names among them, in order |
| NormalForms.ExclusionsAre | packages/shared/src/api-design.ts:299-313 | Exactly the exclusions that name a table and give a reason are kept, trimmed |
| BasePaths.BaseIsStableIff | packages/shared/src/api-design.ts:166-183 | Under a base trimmed at both ends the second pass never changes a path if and only if the base has no trailing slash, is below `/api`, is one or two slashes, is a single segment and slashes, or ends in white space and one slash |
| SpacedBases.EveryBaseIff | packages/shared/src/api-design.ts:166-183 | The same for every base, with white space anywhere: which bases a second pass never changes a path under, and that every other has a path it changes |
| NormalizeTwice.NormalizingTwiceIff | packages/shared/src/api-design.ts:315-335 | Whatever came in, a stored normalized design is read back as it is if and only if each path in it is, under its own group's base |
| NormalizeTwice.NormalizingTwice | packages/shared/src/api-design.ts:315-335 | In particular when every base is one of those under which no path changes |
| Normalize.TrailingSlashDoublesThePath | packages/shared/src/api-design.ts:166-183 | A concrete path that the second pass doubles |
| FieldTypes.BuildSchemaTypeIndex | packages/shared/src/api-design.field-types.ts:70-98 | The map-filling loops compute the specified index |
| FieldGrounding.ResolvingReadsTheSchema | packages/shared/src/api-design.field-types.ts:60-168 | Looking a field up in the index gives, for every schema, field and context, what reading the tables and columns directly gives: the last table and column of a name, its key column, its noun |
| FieldGrounding.ResolvedIsColumnType | packages/shared/src/api-design.field-types.ts:113-168 | A resolved type is always the trimmed type of a column of the named table: the column of that name, or the key |
| FieldGrounding.ResolutionIsExact | packages/shared/src/api-design.field-types.ts:119-168 | The first context table that declares the column decides; else bare `id` is the first key, `<noun>_id` the key of the table the noun names; everything else and `_ids` resolve to nothing |
| FieldGrounding.ContextIsExact | packages/shared/src/api-design.field-types.ts:170-213 | The tables consulted are exactly those named by the path or the coverage, or the users table for an auth group that names none |
| FieldReading.AuthIsAboutAccounts | packages/shared/src/api-design.field-types.ts:196-216 | A group at an `auth` segment that names no table is about the first table called user, users, account or accounts, or about none |
| FieldReading.OtherIsAboutNothing | packages/shared/src/api-design.field-types.ts:196-213 | Any other group that names no table is about none |
| FieldReading.KeyFieldIs | packages/shared/src/api-design.field-types.ts:158-167 | `<noun>_id`, for a noun on one line, has the type of the key of the table the noun points at |
| FieldReading.DashIsUnderscore | packages/shared/src/api-design.field-types.ts:188 | The dashes of a segment read as underscores, each of them |
| FieldGrounding.ContextNamesTables | packages/shared/src/api-design.field-types.ts:170-213 | Whatever is consulted is a table of the schema |
| FieldGrounding.LastSegmentLeads | packages/shared/src/api-design.field-types.ts:170-190 | The last path segment that names a table comes first |
| FieldGrounding.ArgumentsAreForgiven | packages/shared/src/api-design.field-types.ts:258-267 | A type with arguments is the same type without them |
| TypeVocabulary.SameIff | packages/shared/src/api-design.field-types.ts:234-267 | Types without arguments or time zone are the same exactly when they are spelled alike or spell one word of the vocabulary |
| TypeVocabulary.WordsDecide | packages/shared/src/api-design.field-types.ts:221-231 | No two words of the vocabulary are the same type: an integer is not forgiven for a uuid |
| TypeVocabulary.TimeZoneIsForgiven | packages/shared/src/api-design.field-types.ts:262-264 | A type with a time zone is the type without, whatever the white space |
| FieldReconcile.ReconcileApiFieldTypes | packages/shared/src/api-design.field-types.ts:290-363 | The rewriting and tallying loops compute the specified design and report |
| FieldReconcile.ReconciledAgrees | packages/shared/src/api-design.field-types.ts:290-363 | Afterwards every field that resolves carries the resolved type, and nothing but field types changed |
| FieldGrounding.ReconciledMatchesSchema | packages/shared/src/api-design.field-types.ts:290-363 | So every documented field the schema speaks about carries the type of an actual column of it |
| BuildTypes.UnchangedIffAgrees | packages/shared/src/api-design.field-types.ts:290-363 | The type repair leaves exactly the designs alone that already agree with the schema |
| BuildTypes.BuildIsRetypedIff | packages/shared/src/api-design.field-types.ts:285-288 | Read off the schema, for any build: the type repair leaves it alone if and only if no group is reached by a column or list filter that the schema, read at that endpoint, gives another type, and the Auth group has none |
| BuildTypes.PageIsRetyped | packages/shared/src/api-design.field-types.ts:285-288 | A concrete schema whose build the type repair changes |
| FieldReconcile.ReconcilingTwice | packages/shared/src/api-design.field-types.ts:290-363 | A second run changes nothing and reports nothing |
| FieldReconcile.ReportConservesCounts | packages/shared/src/api-design.field-types.ts:305-336 | The occurrences reported add up to the number of wrong fields in the original |
| FieldReconcile.ReportCountsEachKind | packages/shared/src/api-design.field-types.ts:320-334 | Each row counts exactly the wrong fields it stands for |
| FieldReconcile.SortedOrders | packages/shared/src/api-design.field-types.ts:355-357 | Rows are ordered by occurrences, ties by entity under any collation |
| FieldReconcile.SortedKeepsTies | packages/shared/src/api-design.field-types.ts:355-357 | Rows of one count whose entities collate alike keep the order they were found in |
| TypeReport.ContradictionIsReported | packages/shared/src/api-design.field-types.ts:305-336 | Every field of a design that names a column of another type is counted in a row of its table, name and both types |
| TypeReport.RowTellsBothTypes | packages/shared/src/api-design.field-types.ts:314-334 | Without the separator in any of them, that row tells exactly these four |
| TypeReport.NothingReportedIff | packages/shared/src/api-design.field-types.ts:290-363 | The report is empty if and only if no field contradicts the schema |
| TypeReport.WordsContradictIff | packages/shared/src/api-design.field-types.ts:221-231 | Between words of the vocabulary a field contradicts the schema exactly when they differ |
| Roles.NoSingleRoleLeft | packages/shared/src/api-design.rest.ts:316-351 | Under a many-to-many role model no endpoint of a user-owning group keeps a single role id |
| RoleRepair.RepairTouchesIff | packages/shared/src/api-design.rest.ts:304-351 | The repair leaves a design alone if and only if the schema does not model many roles or no user-serving group speaks of one role; its result always qualifies, and a second repair changes nothing |
| RoleRepair.LinkSpeaksOfOneRole | packages/shared/src/api-design.rest.ts:665-704 | A junction with a role key gives its parent a write endpoint that names a single role |
| RoleReading.CardinalityIs | packages/shared/src/api-design.rest.ts:275-302 | Many roles by a link table or a many-to-many relation either way round, one role by what the first users table names, nothing without a table of roles |
| RoleReading.RepairIsWrittenOut | packages/shared/src/api-design.rest.ts:316-351 | Under many roles exactly the role ids in the groups that own users become lists, in and out; all else stays |
| Segments.SegmentIff | packages/shared/src/api-design.rest.ts:335-337 | The pieces of a split path are what stands between its slashes |
| RoleRepair.BuildIsRewritten | packages/shared/src/api-design.rest.ts:304-312 | A concrete schema whose whole deterministic interface, Auth group included, the repair rewrites |
| RoleReach.BuildIsRewrittenIff | packages/shared/src/api-design.rest.ts:304-351 | Read off the schema, for any build with or without the Auth group: the repair rewrites it if and only if the schema models many roles and a role column reaches a user group, through its own group, as a nested junction, or as a child collection |
| Roles.RepairsCommute | packages/shared/src/api-design.rest.ts:316-351 | Role repair then type repair equals type repair then role repair, for any design and schema |
| Shared.TenantTablesOf | packages/shared/src/database-design.shared-entities.ts:572-593 | The set built is exactly the chosen tenant table, the scope-named tables and the targets of scoping keys |
| SharedReport.BoundaryIs | packages/shared/src/database-design.shared-entities.ts:70-75 | The same boundary by the names of places and organizations |
| SharedMatching.ScopeColumnIff | packages/shared/src/database-design.shared-entities.ts:70-71 | Which columns are scoping keys |
| SharedMatching.ScopeTableIff | packages/shared/src/database-design.shared-entities.ts:74-75 | Which tables are called like a boundary |
| SharedMatching.DeclarationIff | packages/shared/src/database-design.shared-entities.ts:457-491 | The statement that counts is the first whose subject is the noun behind a table name, or a container behind which only containers follow |
| Shared.ReconcileSharedEntities | packages/shared/src/database-design.shared-entities.ts:612-712 | The correcting loops compute the specified schema and report |
| SharedSafety.SharedKeysAreReferenceOnly | packages/shared/src/database-design.shared-entities.ts:635-648 | Every ownership key left on a shared table is nullable, not unique and prefixed |
| SharedSafety.NoOwnershipRelation | packages/shared/src/database-design.shared-entities.ts:663-671 | Exactly the relations that are not a boundary table owning a shared one survive |
| SharedSafety.CorrectionIsNarrow | packages/shared/src/database-design.shared-entities.ts:626-661 | Only shared tables change, there only ownership keys, and of those only name, nullable and unique |
| DemotedNames.ColumnsAreWrittenOut | packages/shared/src/database-design.shared-entities.ts:635-648 | Each column of a shared table as it comes out: a demoted key has the mark in front of its own name once, is optional and not unique; all else is as before |
| DemotedNames.NamesStayDistinctIff | packages/shared/src/database-design.shared-entities.ts:640-647 | Distinct column names stay distinct if and only if no column had the name of a demoted one already |
| SharedReport.RelationsAreWrittenOut | packages/shared/src/database-design.shared-entities.ts:663-671 | The relations that stay, in order: all but a boundary having one or many of a shared table |
| SharedSafety.CorrectingTwice | packages/shared/src/database-design.shared-entities.ts:612-712 | With the same boundary a second run leaves the schema as it is |
| SharedSafety.BoundaryShrinks | packages/shared/src/database-design.shared-entities.ts:572-593 | The boundary read off the corrected schema contains nothing new |
| SharedSafety.LastingIsBoundaryAfter | packages/shared/src/database-design.shared-entities.ts:572-593 | The boundary of the corrected schema, read off the one that went in: what is named a boundary, and the targets of scoping keys that are not renamed |
| SharedSafety.RerunIsStableIff | packages/shared/src/database-design.shared-entities.ts:612-712 | A full second correction changes nothing if and only if no table described as shared stopped being a boundary while a key or a relation still owned it |
| SharedSafety.ChangesAreReported | packages/shared/src/database-design.shared-entities.ts:650-685 | Every changed table and dropped relation appears in the report with its statement |
| SharedSafety.UnansweredAreReported | packages/shared/src/database-design.shared-entities.ts:687-701 | Every statement no shared table answers to is reported |
| SharedReport.ReportIsWrittenOut | packages/shared/src/database-design.shared-entities.ts:612-712 | The whole report: one row for each table with a demoted key, one for each dropped relation, both with the first statement about the table, one for each statement nothing answers to |
| Tenancy.EnsureTenancy | packages/shared/src/database-design.tenancy.ts:327-409 | The pushing and splicing loop computes the specified schema and the scoped names |
| Tenancy.ApplyTenancy | packages/shared/src/database-design.tenancy.ts:431-467 | The entry point computes the specified schema |
| TenancySafety.HasTenancyIffScoped | packages/shared/src/database-design.tenancy.ts:339-343 | The two-part guard fires exactly when no table carries scoping: a scope table implies a scoping key |
| TenancySafety.TenantKeysAreScopeColumns | packages/shared/src/database-design.tenancy.ts:228-250 | Whatever key the pass adds is recognised as scoping by the detection pattern |
| TenancySafety.TenantTablesAreScopeTables | packages/shared/src/database-design.tenancy.ts:228-250 | Whatever table the pass adds is recognised as a boundary |
| TenantKey.TenantIsFirstMentioned | packages/shared/src/database-design.tenancy.ts:228-250 | The first place or organization mentioned, in the listed order, names table and key |
| TenantKey.PureJunctionIff | packages/shared/src/database-design.tenancy.ts:281-293 | Which tables count as pure junctions |
| TenancySafety.AdditionIsExact | packages/shared/src/database-design.tenancy.ts:345-398 | One new table in front; each table neither pure junction nor shared gains exactly one mandatory key right after its first primary key and one relation; all else is unchanged |
| TenantKey.AdditionIsWrittenOut | packages/shared/src/database-design.tenancy.ts:345-387 | The new table has the five listed columns and a single key, its uuid `id`; every table that needs an owner gains, behind its first primary key, a mandatory reference to that key, of its type; every other table is as before |
| TenantKey.OwnershipsAreWrittenOut | packages/shared/src/database-design.tenancy.ts:389-398 | One relation for each owned table is appended, in order, from the new table, one to many, with its wording |
| TenancySafety.AddingTwice | packages/shared/src/database-design.tenancy.ts:327-409 | A second call changes nothing if and only if the first added nothing or scoped at least one table |
| OwnershipSafety.AdditionNeedsNoDemotion | packages/shared/src/database-design.tenancy.ts:445-464 | After an addition the shared-record correction changes no table |
| OwnershipSafety.SharedTablesAreUnowned | packages/shared/src/database-design.tenancy.ts:431-467 | End to end: a table described as shared and not itself a boundary has only reference-only ownership keys and no owning relation; every other table comes out untouched; so a table described as shared keeps an owner exactly when it is a boundary and had one |
| TenancyTwice.MultiTenantTwiceIff | packages/shared/src/database-design.tenancy.ts:431-467 | A second pass of a multi-tenant project changes nothing if and only if an addition gave some table a key; or, without one, the correction leaves some table scoped and is itself settled |
| TenancyTwice.SingleBusinessTwiceIff | packages/shared/src/database-design.tenancy.ts:139-205 | A second pass of a single business changes nothing if and only if no table that stays becomes one that most others that stay hang off |
| TenancyTwice.AppliedTwiceIff | packages/shared/src/database-design.tenancy.ts:431-467 | The whole pass is a fixed point of itself exactly then, for every schema and every finding about the requirements |
| TenancyExamples.ClinicIsNotStable | packages/shared/src/database-design.shared-entities.ts:585-628 | A concrete clinic whose `departments` keep their mandatory branch after the first pass and are corrected by the second |
| TenancyExamples.PracticeIsNotStable | packages/shared/src/database-design.tenancy.ts:337-343 | A concrete schema to which the second pass adds a tenant table |
| TenancyExamples.ShopIsNotStable | packages/shared/src/database-design.tenancy.ts:189-205 | A concrete schema from which the second pass removes another table |
| OwnershipSafety.TrimKeepsDeclaration | packages/shared/src/database-design.shared-entities.ts:457-491 | White space around a table name never changes which statement is about it |
| OwnershipSafety.StrippingIsNarrow | packages/shared/src/database-design.tenancy.ts:139-179 | Only majority-referenced scope tables go; every other table loses its scoping columns alone and keeps each key to a surviving table |
| TenancyStripped.GoneAreTenants | packages/shared/src/database-design.tenancy.ts:139-205 | Gone are exactly the tables called like a place that more than half of the other tables hang off |
| TenancyStripped.StrippingIsWrittenOut | packages/shared/src/database-design.tenancy.ts:139-218 | What is left, in order: every other table without the columns that go with a tenant, and every relation that touches none |
| Closure.EnforceKeepsClosure | packages/shared/src/database-design.tenancy.ts:139-179 | Stripping tenancy keeps every foreign key and relation end resolving |
| Closure.EnsureKeepsClosure | packages/shared/src/database-design.tenancy.ts:327-409 | Adding tenancy keeps them resolving |
| Closure.CorrectKeepsClosure | packages/shared/src/database-design.shared-entities.ts:612-712 | Correcting shared records keeps them resolving |
| Closure.ApplyKeepsClosure | packages/shared/src/database-design.tenancy.ts:431-467 | The whole tenancy pass keeps them resolving, however closely names must match |
| SupportTables.StripUnrequestedSupportTables | packages/shared/src/database-design.scope.ts:149-194 | The add-then-delete loops over the `doomed` set compute the specified schema and the removed names |
| SupportTables.OtherTablesKeepTheirColumns | packages/shared/src/database-design.scope.ts:166-185 | Every table that is not an unrequested log is in the result with all its columns |
| SupportTables.RemovedAreUnreferencedLogs | packages/shared/src/database-design.scope.ts:158-173 | Only unrequested logs go, and none that a table outside the candidates references |
| LogTables.RemovalIsWrittenOut | packages/shared/src/database-design.scope.ts:114-173 | Removed are exactly the logs of a kind not asked for that no table saves when its turn comes |
| LogTables.RestIsWrittenOut | packages/shared/src/database-design.scope.ts:176-193 | What is left, in order: every other table without its keys to removed ones, and every relation that touches none |
| SupportTables.DanglingSurvivorIff | packages/shared/src/database-design.scope.ts:165-185 | A surviving table references a removed one if and only if it was passed over while doomed, saved later, and references a table nobody saved |
| SupportTables.SurvivorLosesColumnsIff | packages/shared/src/database-design.scope.ts:176-185 | The column filter removes something from a surviving table exactly then |
| SupportTables.SparedLogLosesItsColumn | packages/shared/src/database-design.scope.ts:166-184 | A concrete chain in which a spared log loses a key column |
| Closure.StripKeepsClosure | packages/shared/src/database-design.scope.ts:149-194 | A closed schema stays closed, also when logs reference each other in chains |
| Closure.StripKeepsClosureIff | packages/shared/src/database-design.scope.ts:149-194 | However closely names must match, a closed schema stays closed if and only if no kept key or relation end names only removed tables without being removed itself |
| Closure.StrandedIsStray | packages/shared/src/database-design.scope.ts:155-171 | Up to white space, such a name is a removed log spelled with stray white space that no other table is spelled like |
| Closure.StripKeepsTidyClosure | packages/shared/src/database-design.scope.ts:149-194 | In particular a schema whose references and relation ends carry no white space stays closed, whatever its table names look like |
| Closure.StripLeavesSpacedReference | packages/shared/src/database-design.scope.ts:158-172 | A concrete reference with a stray space that is left dangling |
| Effort.BuildEffortEstimate | packages/shared/src/effort.ts:110-201 | The loops that push lines and rewrite a line in place compute the specified estimate |
| Effort.BuyingIsOneForOne | packages/shared/src/effort.ts:132-155 | Each buy converts one line or adds one flat line; a module is converted at most once, only for a bought capability covering it; a flat line only when no module is left |
| EffortRounding.LinesAreCounted | packages/shared/src/effort.ts:110-201 | Exactly one line a service, one for each buy that found no module, four fixed; integrations number the buys |
| EffortRounding.EstimateAddsUp | packages/shared/src/effort.ts:190-200 | Every figure is a number of half weeks and the totals are the exact sums of the lines |
| EffortRounding.EstimateIsOrdered | packages/shared/src/effort.ts:110-201 | With a sensible model 0 <= min <= max on every line and in total |
| EffortRounding.EstimateIsNear | packages/shared/src/effort.ts:157-200 | The totals are the build weeks with percentages and flat figures, within a quarter week a line |
| EffortRounding.DefaultIsModel | packages/shared/src/effort.ts:42-57 | The shipped constants are such a model |
| EffortSizes.CoversIff | packages/shared/src/effort.ts:85-92 | Which module names each capability covers |
| EffortSizes.EstimateIsWrittenOut | packages/shared/src/effort.ts:42-201 | With the shipped figures every line in full: the weeks of each size, a quarter when bought, the flat figure of a purchase without a module, and the four fixed lines |
| EffortSizes.EarlierPurchaseTakesFirst | packages/shared/src/effort.ts:132-155 | Purchases are taken in order, and each takes the first module still to be built that it covers |
| Roadmap.BuildPhaseEffort | packages/shared/src/roadmap.ts:105-152 | The accumulating loops and the raw-name `claimed` set compute the specified phases |
| Roadmap.AllocationIsExact | packages/shared/src/roadmap.ts:131-151 | Before rounding, phases sum to every line's weeks times max(1, number of phases claiming it), if and only if the weights do not cancel out or the pool is empty |
| Roadmap.PhasesConserveEffort | packages/shared/src/roadmap.ts:105-152 | With no module in two phases, the phase weeks add up to the lines within a quarter week a phase |
| Roadmap.PhasesAreOrdered | packages/shared/src/roadmap.ts:142-151 | Every phase has 0 <= weeksMin <= weeksMax, both in half weeks |
| Roadmap.PlanMatchesEstimate | packages/shared/src/roadmap.ts:91-104 | The phases of an estimate add up to the estimate's own totals within that bound |
| PlanShares.PlanIsWrittenOut | packages/shared/src/roadmap.ts:105-152 | The weeks of each phase: its own lines and, of the lines no phase claims, the share its larger figure and one have in the sum of all these, to the nearest half week |
| Cost.ProviderCostAtScale | packages/shared/src/cost-estimate.ts:525-589 | The pushed and rounded lines are the specified bill |
| Cost.BillAddsUp | packages/shared/src/cost-estimate.ts:586-589 | The headline is the exact sum of the lines, each within half a dollar of its charge |
| Cost.BillGrows | packages/shared/src/cost-estimate.ts:505-589 | For any non-negative prices neither the bill nor any line shrinks with more users, entities, services or with microservices |
| Cost.UnitsAreBounded | packages/shared/src/cost-estimate.ts:505-511 | Between one and eight compute units; 1, 2 or 4 without microservices |
| Cost.ListedPricesAreNonNegative | packages/shared/src/cost-estimate.ts:332-494 | The shipped table qualifies |
| BillTable.BillIsSum | packages/shared/src/cost-estimate.ts:525-589 | A bill is the sum of its three charges and the fee, each in whole dollars |
| BillTable.UnitsAre | packages/shared/src/cost-estimate.ts:505-511 | How many units of compute users and services take |
| BillTable.AwsRow | packages/shared/src/cost-estimate.ts:332-348 | What a small design costs there at four scales, in dollars; likewise for each of the eleven providers |
| BillTable.CloudflareRow | packages/shared/src/cost-estimate.ts:435-450 | The same for a provider billed by requests, with free traffic and a fee |
| CostEstimates.CheapestAtScale | packages/shared/src/cost-estimate.ts:677-684 | The loop finds the first provider with the least bill at the scale |
| CostEstimates.BestValue | packages/shared/src/cost-estimate.ts:686-693 | The loop finds the first provider with the least total |
| CostEstimates.EstimateCosts | packages/shared/src/cost-estimate.ts:616-718 | Every provider priced at every scale, true minima at each scale and in total, and the hosting decision on the middle scale |
| Hosting.ReconcileHosting | packages/shared/src/cost-estimate.hosting.ts:722-827 | The reassigning branches compute the specified decision |
| Hosting.DecisionIsViable | packages/shared/src/cost-estimate.hosting.ts:743-786 | A decision exists exactly when something is viable, is viable itself, follows the design's own viable pick, and claims "no host named" exactly when no priced pick and no unpriced host was named |
| Hosting.ReplacementIsCheapest | packages/shared/src/cost-estimate.hosting.ts:746-758 | A replacement is the cheapest caveat-free host, or the cheapest viable one when there is none |
| Hosting.AlternativeIsExact | packages/shared/src/cost-estimate.hosting.ts:788-800 | An alternative is offered exactly when some caveat-free host saves at least 15 dollars rounded; it is the cheapest such host at its true rounded saving |
| HostingForms.FitIs | packages/shared/src/cost-estimate.hosting.ts:502-545 | Who can run a design, and who only with a caveat |
| HostingForms.CheapestIsFirst | packages/shared/src/cost-estimate.hosting.ts:746-758 | Among the least expensive hosts the first one counts |
| HostingForms.LabelIs | packages/shared/src/cost-estimate.hosting.ts:806-811 | What the design's own choice is called |
| HostingForms.DecisionIsTold | packages/shared/src/cost-estimate.hosting.ts:765-827 | Which of the four sources is given, the label, and when the constraint is noted |
| HostingForms.ScalesAre | packages/shared/src/cost-estimate.ts:631-705 | Bills at 100, 1000 and 10000 users, their sum, and the decision on those at 1000 |
| CostEstimates.HostingIsDecided | packages/shared/src/cost-estimate.ts:695-705 | End to end: always a viable host; "cheapest viable" exactly when none was named; alternatives exact in whole dollars |
| CostEstimates.NeverSentToWorkers | packages/shared/src/cost-estimate.hosting.ts:502-522 | A long-running design is never sent to Cloudflare, nor told to switch to Cloudflare, Vercel or a VPS |
| Handlers.AssignHandlers | packages/shared/src/scaffold.util.ts:59-84 | The search for a free name ends, and names the k-th endpoint of a base `base` for k = 1 and `base` followed by k otherwise, order kept |
| Handlers.SearchIsCounter | packages/shared/src/scaffold.util.ts:66-69 | Searching the used set finds exactly the counter form |
| Handlers.HandlerNamesAreDistinct | packages/shared/src/scaffold.util.ts:54-58 | No two handlers of a module share a name |
| Handlers.RelativePathIsTheRest | packages/shared/src/scaffold.util.ts:180-200 | Below `/api/<resource>` the sub-path is exactly the remaining segments |
| HandlerForms.SafeIsKept | packages/shared/src/scaffold.util.ts:25 | Exactly the characters allowed in a path are kept |
| HandlerForms.PrefixIs | packages/shared/src/scaffold.util.ts:180-184 | `api` at the start goes, in any case, with or without its slash |
| HandlerForms.ParameterIs | packages/shared/src/scaffold.util.ts:63 | The word behind each colon is a parameter, in order |
| HandlerForms.HandlerIs | packages/shared/src/scaffold.util.ts:59-105 | What a handler is called: after what it does, and for each later one the number of those that do it |
| Csv.CsvRoundTrip | apps/web/lib/download.ts:50-59 | A strict reader of section 2 of RFC 4180 gets back exactly the cells as shown, with the same boundaries |
| Csv.BoundariesSurvive | apps/web/lib/download.ts:56-59 | Cell counts come back exactly when every row has a cell |
| Csv.NoFormulaIsShown | apps/web/lib/download.ts:40-54 | No cell read back is a formula, other values are unchanged, and the only values confused differ by that apostrophe |
| CsvForms.CellIs | apps/web/lib/download.ts:50-54 | A cell is quoted only when a comma, quote or line break is in it, and gets an apostrophe only as a formula |
| Stream.ConsoleIsTheRun | apps/web/lib/stream.ts:47-71 | After any run the console shows one step for each started, its body the text sent to its id since, done exactly when superseded |
| Stream.OnlyTheLastIsActive | apps/web/lib/stream.ts:42-46 | All steps but the last are done, and all are once the run has ended |
| Stream.StageStream.Handle | apps/web/lib/stream.ts:140-158 | The event callback updates the two flags, the delivered events and the outcome as specified |
| Stream.StageStream.OnError | apps/web/lib/stream.ts:164-175 | The error callback settles as specified |
| Stream.StageStream.Finish | apps/web/lib/stream.ts:133-138 | Settling is skipped once settled |
| Stream.SettlesOnce | apps/web/lib/stream.ts:127-176 | The outcome is read off the first deciding callback alone; the plain route is taken only for an error with no callback before it |
| Stream.OutcomeIsFinal | apps/web/lib/stream.ts:133-138 | No later callback changes a settled promise |
| Stream.NeverFallsBack | apps/web/lib/stream.ts:160-175 | Dispatched as a browser does, no run reaches the plain route |
| Stream.LostAtOnceIsInterrupted | apps/web/lib/stream.ts:111-115 | A stream that cannot be opened reports an interruption instead |
| StreamDispatch.RunIsDelivered | apps/web/lib/stream.ts:140-158 | Every parsed frame is delivered, in order, and the run stays open until a result, a server error or a failure |
| StreamDispatch.FirstEndDecides | apps/web/lib/stream.ts:150-175 | The first of those decides the outcome; a server error gives the status of its code |

## Left out

- Case folding beyond ASCII: `toLowerCase`, `toUpperCase` and the `i` flag act on A to Z only.
- Reading prose: whether requirements describe several tenants, name a tenant noun, state that a record is shared, ask for logs, search or dates. These findings are inputs (`Signals`, `Declaration`, `LogDemand`, `QueryScope`), so the patterns and `subjectCandidates` are not part of this model.
- Column-level closure: a referenced table stays, but the referenced column may have been stripped or renamed.
- `Coverage.ResolvedCoverageIdempotent`: for distinct non-empty keys only; with two names sharing a key the resolver keeps the later one.
- `Completeness.EnsureIsCompleteIff`: for names without a slash, since a slash in a table name makes a generated path mention other tables; `Completeness.EnsureIsComplete` and `Completeness.OnlyBlankJunctionsFail` have no such condition.
- `RestRoutes.BuildRoutesAreDistinct`: for plain names, since names with slashes or differing only in case can produce colliding routes.
- `RestPartition.BuildPartitionsScope`: for tables with distinct names, since two nested join tables of one name are excluded twice; `RestPartition.BuildPlacesScope` has no such condition.
- `BuildContract.GroupsAreWrittenOut` and `BuildShape.LeftOutIff`: for tables with distinct names, since a later table of a name takes the group of an earlier one; `BuildShape.OwnEndpointsComeFirst` has no such condition.
- `TypeReport.RowTellsBothTypes`: for reports without `|`, since the rows are keyed by their four texts joined with it; `TypeReport.ContradictionIsReported` has no such condition.
- `TypeVocabulary.SameIff`: for types without arguments and without a time zone; `FieldGrounding.ArgumentsAreForgiven` and `TypeVocabulary.TimeZoneIsForgiven` are about those.
- `CodeForms.NumberIs`: for numbers below a thousand; longer ones are runs of digits.
- `NormalForms.RelativeIsJoined`: for a base with a slash before its last segment, as every base below `/api` has.
- `enforceQuerySurface`, `pathParamType`, `describeColumns`, `uniquifyNames`, casing helpers and the DTO names and fields of a handler: easy members or text.
- Owner-facing sentences (notices, summaries of what was added or removed, hosting rationale, effort `basis`), in either language.
- Fields of the artifacts no modelled pass reads or writes (`generation`, `typeCorrections`, `language`, milestones, endpoint counts); an absent flag is `false` and an absent array is empty where the code reads them alike.
- `localeCompare`: any total collation, passed in.
- IEEE rounding and exponent notation of huge numbers: weeks and dollars are exact reals, and a number is printed in plain decimals.
- Services, entities and users are natural numbers in the bill; the code does not check them.
- The whole candidate list with a repeated provider: `Hosting.AlternativeIsExact` assumes distinct providers, as the price table has.
- The strict CSV reader accepts any character other than comma, quote, CR and LF in a bare field, where the RFC's grammar is limited to printable ASCII; the byte-order mark and the download itself are not modelled.
- Opening the event source, closing it, parsing frames and the plain route itself; a frame arrives parsed or not.
- Budget and timeline parsing, suggested price, subscription lines, permissions, billing, prompts, pages, clients and generated source text.
