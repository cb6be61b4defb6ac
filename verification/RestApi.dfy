/** Deriving a REST interface from the tables and their foreign keys. */
module RestApi {
  import opened Text
  import opened Collections
  import opened Schema
  import opened Coverage
  import opened Merge

  // ---------- reading the columns ----------

  predicate IsServerManaged(name: string) {
    Lower(name) in ["id", "created_at", "updated_at", "password_hash"]
  }

  predicate IsForeignKey(c: Column) {
    c.references.Some? && c.references.value.entity != ""
  }

  function ForeignKeys(columns: seq<Column>): (r: seq<Column>)
    ensures forall i :: 0 <= i < |r| ==> r[i] in columns && IsForeignKey(r[i])
  {
    if columns == [] then []
    else (if IsForeignKey(columns[0]) then [columns[0]] else []) + ForeignKeys(columns[1..])
  }

  /** A table that only links others: every column is a key or kept by the server. */
  predicate IsJunctionEntity(e: Entity) {
    && |ForeignKeys(e.columns)| >= 2
    && forall i :: 0 <= i < |e.columns| ==>
         IsForeignKey(e.columns[i]) || e.columns[i].primaryKey || IsServerManaged(e.columns[i].name)
  }

  // ---------- query parameters of a list endpoint ----------

  datatype ScaleTier = Small | Medium | Large

  /** The tier, and the entities whose requirement sentences ask for search or for dates. */
  datatype QueryScope = QueryScope(tier: ScaleTier, searched: set<string>, dated: set<string>)

  datatype ListQueryDemand = ListQueryDemand(search: bool, status: bool, dateRange: bool, maxFkFilters: nat)

  function MaxFkFilters(tier: ScaleTier): nat {
    match tier
    case Small => 2
    case Medium => 3
    case Large => 5
  }

  const FULL_QUERY_DEMAND := ListQueryDemand(true, true, true, 5)

  function DemandFor(scope: Option<QueryScope>, e: Entity): ListQueryDemand {
    match scope
    case None => FULL_QUERY_DEMAND
    case Some(s) =>
      if s.tier != Small then FULL_QUERY_DEMAND.(maxFkFilters := MaxFkFilters(s.tier))
      else ListQueryDemand(e.name in s.searched, true, e.name in s.dated, MaxFkFilters(s.tier))
  }

  predicate IsTextual(columnType: string) {
    Fold(columnType) in ["string", "text", "varchar", "char"]
  }

  predicate IsSensitive(name: string) {
    ContainsAny(Lower(name), ["password", "secret", "token", "hash", "salt"])
  }

  predicate IsSearchable(c: Column) {
    IsTextual(c.columnType) && !IsForeignKey(c) && !IsServerManaged(c.name) && !IsSensitive(c.name)
  }

  predicate IsStatusColumn(c: Column) {
    var low := Lower(c.name);
    low == "status" || low == "state" || EndsWith(low, "_status") || EndsWith(low, "_state")
  }

  function DateColumn(columns: seq<Column>): (r: Option<Column>)
    ensures r.Some? ==> r.value in columns
  {
    var created := FindColumn(columns, (c: Column) => Lower(c.name) == "created_at");
    var stamped := FindColumn(columns, (c: Column) => "timestamp" <= Fold(c.columnType));
    if created.Some? then created
    else if stamped.Some? then stamped
    else FindColumn(columns, (c: Column) => Fold(c.columnType) == "date")
  }

  function DateBase(name: string): string {
    if EndsWith(Lower(name), "_at") then name[..|name| - 3] else name
  }

  predicate HasName(fields: seq<SchemaField>, name: string) {
    exists i :: 0 <= i < |fields| && fields[i].name == name
  }

  function PushField(params: seq<SchemaField>, name: string, fieldType: string): seq<SchemaField> {
    if HasName(params, name) then params else params + [SchemaField(name, fieldType, false)]
  }

  function PushFks(params: seq<SchemaField>, fks: seq<Column>, n: nat): seq<SchemaField>
    requires n <= |fks|
  {
    if n == 0 then params
    else PushField(PushFks(params, fks, n - 1), fks[n - 1].name, fks[n - 1].columnType)
  }

  const PAGINATION := [SchemaField("page", "integer", false), SchemaField("limit", "integer", false)]

  function AtMost(limit: nat, size: nat): nat {
    if limit < size then limit else size
  }

  function SearchAndStatus(e: Entity, demand: ListQueryDemand): seq<SchemaField> {
    var searchable := FindColumn(e.columns, c => IsSearchable(c)).Some?;
    var found := if demand.search && searchable then PushField(PAGINATION, "search", "string") else PAGINATION;
    var status := FindColumn(e.columns, c => IsStatusColumn(c));
    if demand.status && status.Some? then PushField(found, status.value.name, status.value.columnType) else found
  }

  function DateBounds(params: seq<SchemaField>, e: Entity, demand: ListQueryDemand): seq<SchemaField> {
    var date := DateColumn(e.columns);
    if demand.dateRange && date.Some? then
      var base := DateBase(date.value.name);
      PushField(PushField(params, base + "_from", "string"), base + "_to", "string")
    else params
  }

  function QueryParams(e: Entity, demand: ListQueryDemand): seq<SchemaField> {
    var fks := ForeignKeys(e.columns);
    PushFks(DateBounds(SearchAndStatus(e, demand), e, demand), fks, AtMost(demand.maxFkFilters, |fks|))
  }

  method ListQueryParams(e: Entity, demand: ListQueryDemand) returns (params: seq<SchemaField>)
    ensures params == QueryParams(e, demand)
  {
    hide IsSearchable, IsStatusColumn, HasName;
    params := PAGINATION;
    if demand.search && FindColumn(e.columns, c => IsSearchable(c)).Some? {
      params := PushField(params, "search", "string");
    }
    var status := FindColumn(e.columns, c => IsStatusColumn(c));
    if demand.status && status.Some? {
      params := PushField(params, status.value.name, status.value.columnType);
    }
    var date := DateColumn(e.columns);
    if demand.dateRange && date.Some? {
      var base := DateBase(date.value.name);
      params := PushField(params, base + "_from", "string");
      params := PushField(params, base + "_to", "string");
    }
    var fks := ForeignKeys(e.columns);
    ghost var start := params;
    for i := 0 to AtMost(demand.maxFkFilters, |fks|)
      invariant params == PushFks(start, fks, i)
    {
      params := PushField(params, fks[i].name, fks[i].columnType);
    }
  }

  // ---------- endpoints ----------

  function FieldOf(c: Column): SchemaField {
    SchemaField(c.name, c.columnType, !c.nullable)
  }

  function ResponseFields(columns: seq<Column>): (r: seq<SchemaField>)
    ensures |r| == |columns|
  {
    seq(|columns|, i requires 0 <= i < |columns| => FieldOf(columns[i]))
  }

  /** The columns a client may write, without `except`. */
  function WritableFields(columns: seq<Column>, except: Option<string>): seq<SchemaField> {
    if columns == [] then []
    else (if IsServerManaged(columns[0].name) || except == Some(columns[0].name) then [] else [FieldOf(columns[0])])
         + WritableFields(columns[1..], except)
  }

  function FieldsExcept(fields: seq<SchemaField>, except: Option<string>): seq<SchemaField> {
    if fields == [] then []
    else (if except == Some(fields[0].name) then [] else [fields[0]]) + FieldsExcept(fields[1..], except)
  }

  function BasePath(resource: string): string { "/api/" + resource }

  function ItemPath(resource: string): string { BasePath(resource) + "/:id" }

  function NestedPath(parent: string, child: string): string { ItemPath(parent) + "/" + child }

  function EntityEndpoints(e: Entity, demand: ListQueryDemand): seq<ApiEndpoint> {
    var name, one := e.name, Singular(e.name);
    var read, write := ResponseFields(e.columns), WritableFields(e.columns, None);
    [ ApiEndpoint(GET, BasePath(name), "List " + name + ".", QueryParams(e, demand), read, [200]),
      ApiEndpoint(POST, BasePath(name), "Create a " + one + ".", write, read, [201, 400]),
      ApiEndpoint(GET, ItemPath(name), "Get a " + one + " by id.", [], read, [200, 404]),
      ApiEndpoint(PUT, ItemPath(name), "Update a " + one + ".", write, read, [200, 400, 404]),
      ApiEndpoint(DELETE, ItemPath(name), "Delete a " + one + ".", [], [], [204, 404]) ]
  }

  function EntityModule(e: Entity, demand: ListQueryDemand): ApiModule {
    ApiModule(Capitalize(e.name), BasePath(e.name), EntityEndpoints(e, demand), Some([e.name]), None)
  }

  /** The first foreign key that leads away from `parent`, or back to it. */
  function LinkKey(e: Entity, parent: string): Option<Column> {
    FindColumn(ForeignKeys(e.columns), (c: Column) => c.references.Some? && c.references.value.entity != parent)
  }

  function ParentKey(e: Entity, parent: string): Option<string> {
    match FindColumn(ForeignKeys(e.columns), (c: Column) => c.references.Some? && c.references.value.entity == parent)
    case Some(c) => Some(c.name)
    case None => None
  }

  function OtherSide(e: Entity, parent: string): string {
    match LinkKey(e, parent)
    case Some(c) => c.references.value.entity
    case None => "the linked resource"
  }

  function LinkColumn(e: Entity, parent: string): string {
    match LinkKey(e, parent)
    case Some(c) => c.name
    case None => "linkId"
  }

  function JunctionEndpoints(e: Entity, parent: string): seq<ApiEndpoint> {
    var path, other := NestedPath(parent, e.name), OtherSide(e, parent);
    var to, from := " to a " + Singular(parent) + ".", " from a " + Singular(parent) + ".";
    var read := ResponseFields(e.columns);
    [ ApiEndpoint(GET, path, "List " + other + " linked" + to, [], read, [200, 404]),
      ApiEndpoint(POST, path, "Link " + other + to, WritableFields(e.columns, ParentKey(e, parent)), read, [201, 400, 404]),
      ApiEndpoint(DELETE, path + "/:" + LinkColumn(e, parent), "Unlink " + other + from, [], [], [204, 404]) ]
  }

  function ChildCollectionEndpoint(e: Entity, parent: string, demand: ListQueryDemand): ApiEndpoint {
    ApiEndpoint(GET, NestedPath(parent, e.name), "List " + e.name + " for a " + Singular(parent) + ".",
                FieldsExcept(QueryParams(e, demand), ParentKey(e, parent)), ResponseFields(e.columns), [200, 404])
  }

  function JunctionReason(e: Entity, parent: string, group: ApiModule): string {
    "Join table between " + parent + " and " + OtherSide(e, parent)
    + " \U{2014} no resource of its own; managed through the " + group.name
    + " resource's nested routes (" + group.basePath + "/:id/" + e.name + ")."
  }

  function AuthModule(): ApiModule {
    var credentials := [SchemaField("email", "string", true), SchemaField("password", "string", true)];
    var tokens := [SchemaField("accessToken", "string", true), SchemaField("refreshToken", "string", true)];
    ApiModule("Auth", "/api/auth",
      [ ApiEndpoint(POST, "/api/auth/register", "Register a new user account.", credentials, tokens, [201, 400, 409]),
        ApiEndpoint(POST, "/api/auth/login", "Authenticate and receive tokens.", credentials, tokens, [200, 400, 401]),
        ApiEndpoint(POST, "/api/auth/refresh", "Exchange a refresh token for a new access token.",
                    [SchemaField("refreshToken", "string", true)], tokens, [200, 401]) ],
      Some([]), None)
  }

  // ---------- building ----------

  datatype BuildOptions = BuildOptions(
    only: Option<seq<string>>, source: Option<ModuleSource>, includeAuth: bool, queryScope: Option<QueryScope>)

  /** The last entity so named. */
  function ByName(all: seq<Entity>, name: string): (r: Option<Entity>)
    ensures r.Some? ==> r.value in all && r.value.name == name
    ensures r.None? ==> forall i :: 0 <= i < |all| ==> all[i].name != name
  {
    if all == [] then None
    else if all[|all| - 1].name == name then Some(all[|all| - 1])
    else ByName(all[..|all| - 1], name)
  }

  function ParentAmong(all: seq<Entity>, e: Entity, fks: seq<Column>): (r: Option<Entity>)
    requires forall i :: 0 <= i < |fks| ==> IsForeignKey(fks[i])
    ensures r.Some? ==> r.value in all && r.value.name != e.name
  {
    if |fks| == 0 then None
    else
      assert IsForeignKey(fks[0]);
      var parent := ByName(all, fks[0].references.value.entity);
      if parent.Some? && parent.value.name != e.name then parent else ParentAmong(all, e, fks[1..])
  }

  /** The entity an entity hangs off: the target of its first key to another known table. */
  function ParentOf(all: seq<Entity>, e: Entity): (r: Option<Entity>)
    ensures r.Some? ==> r.value in all && r.value.name != e.name
  {
    ParentAmong(all, e, ForeignKeys(e.columns))
  }

  function Scope(all: seq<Entity>, only: Option<seq<string>>): seq<Entity> {
    if all == [] then []
    else (if only.None? || all[0].name in only.value then [all[0]] else []) + Scope(all[1..], only)
  }

  function NamesOf(es: seq<Entity>): set<string> {
    set i | 0 <= i < |es| :: es[i].name
  }

  /** The name of the parent, when it is being built too. */
  function BuiltParent(all: seq<Entity>, inScope: set<string>, e: Entity): Option<string> {
    match ParentOf(all, e)
    case Some(p) => if p.name in inScope then Some(p.name) else None
    case None => None
  }

  /** A junction is nested only when its parent is built too. */
  predicate IsNested(all: seq<Entity>, inScope: set<string>, e: Entity) {
    IsJunctionEntity(e) && BuiltParent(all, inScope, e).Some?
  }

  datatype Groups = Groups(modules: Table<ApiModule>, excluded: seq<ExcludedEntity>)

  function AddEndpoints(t: Table<ApiModule>, key: string, extra: seq<ApiEndpoint>): Table<ApiModule>
    requires Has(t, key)
  {
    var m := t[Position(t, key)].value;
    Put(t, key, m.(endpoints := m.endpoints + extra))
  }

  /** First pass: a group for every entity that is not nested. */
  function TopLevel(all: seq<Entity>, inScope: set<string>, scope: seq<Entity>, qs: Option<QueryScope>, n: nat): Table<ApiModule>
    requires n <= |scope|
  {
    if n == 0 then []
    else
      var t, e := TopLevel(all, inScope, scope, qs, n - 1), scope[n - 1];
      if IsNested(all, inScope, e) then t else Put(t, e.name, EntityModule(e, DemandFor(qs, e)))
  }

  function NestOne(all: seq<Entity>, inScope: set<string>, e: Entity, qs: Option<QueryScope>, g: Groups): Groups {
    match BuiltParent(all, inScope, e)
    case None => g
    case Some(parent) =>
      if Has(g.modules, parent) then
        Groups(AddEndpoints(g.modules, parent, JunctionEndpoints(e, parent)),
               g.excluded + [ExcludedEntity(e.name, JunctionReason(e, parent, g.modules[Position(g.modules, parent)].value))])
      else g.(modules := Put(g.modules, e.name, EntityModule(e, DemandFor(qs, e))))
  }

  /** Second pass: each nested junction goes under its parent's group, or gets its own. */
  function Nest(all: seq<Entity>, inScope: set<string>, scope: seq<Entity>, qs: Option<QueryScope>, start: Groups, n: nat): Groups
    requires n <= |scope|
  {
    if n == 0 then start
    else
      var g := Nest(all, inScope, scope, qs, start, n - 1);
      if IsNested(all, inScope, scope[n - 1]) then NestOne(all, inScope, scope[n - 1], qs, g) else g
  }

  /** Third pass: every other child table is listed under its parent's item. */
  function Children(all: seq<Entity>, inScope: set<string>, scope: seq<Entity>, qs: Option<QueryScope>,
                    start: Table<ApiModule>, n: nat): Table<ApiModule>
    requires n <= |scope|
  {
    if n == 0 then start
    else
      var t, e := Children(all, inScope, scope, qs, start, n - 1), scope[n - 1];
      var parent := BuiltParent(all, inScope, e);
      if IsNested(all, inScope, e) || parent.None? || !Has(t, parent.value) then t
      else AddEndpoints(t, parent.value, [ChildCollectionEndpoint(e, parent.value, DemandFor(qs, e))])
  }

  function Stamped(t: Table<ApiModule>, source: Option<ModuleSource>): (r: seq<ApiModule>)
    ensures |r| == |t|
    ensures forall i :: 0 <= i < |t| ==>
              r[i] == if source.Some? then t[i].value.(source := source) else t[i].value
  {
    seq(|t|, i requires 0 <= i < |t| => if source.Some? then t[i].value.(source := source) else t[i].value)
  }

  function BuiltGroups(db: DatabaseDesign, only: Option<seq<string>>, qs: Option<QueryScope>): Groups {
    var all, scope := db.entities, Scope(db.entities, only);
    var inScope := NamesOf(scope);
    var g := Nest(all, inScope, scope, qs, Groups(TopLevel(all, inScope, scope, qs, |scope|), []), |scope|);
    g.(modules := Children(all, inScope, scope, qs, g.modules, |scope|))
  }

  function RestBuild(db: DatabaseDesign, options: BuildOptions): CoverageAddition {
    var g := BuiltGroups(db, options.only, options.queryScope);
    var built := Stamped(g.modules, options.source);
    CoverageAddition(if options.includeAuth then [AuthModule()] + built else built, g.excluded)
  }

  method BuildTopLevel(all: seq<Entity>, inScope: set<string>, scope: seq<Entity>, qs: Option<QueryScope>)
    returns (modules: Table<ApiModule>)
    ensures modules == TopLevel(all, inScope, scope, qs, |scope|)
  {
    modules := [];
    for i := 0 to |scope|
      invariant modules == TopLevel(all, inScope, scope, qs, i)
    {
      if !IsNested(all, inScope, scope[i]) {
        modules := Put(modules, scope[i].name, EntityModule(scope[i], DemandFor(qs, scope[i])));
      }
    }
  }

  method NestJunctions(all: seq<Entity>, inScope: set<string>, scope: seq<Entity>, qs: Option<QueryScope>,
                       start: Table<ApiModule>)
    returns (modules: Table<ApiModule>, excluded: seq<ExcludedEntity>)
    ensures Groups(modules, excluded) == Nest(all, inScope, scope, qs, Groups(start, []), |scope|)
  {
    hide IsJunctionEntity, JunctionReason, EntityModule, JunctionEndpoints, ParentOf;
    modules, excluded := start, [];
    for i := 0 to |scope|
      invariant Groups(modules, excluded) == Nest(all, inScope, scope, qs, Groups(start, []), i)
    {
      var e := scope[i];
      if !IsNested(all, inScope, e) {
        continue;
      }
      var parent := BuiltParent(all, inScope, e).value;
      var at := Position(modules, parent);
      if at == |modules| {
        modules := Put(modules, e.name, EntityModule(e, DemandFor(qs, e)));
        continue;
      }
      excluded := excluded + [ExcludedEntity(e.name, JunctionReason(e, parent, modules[at].value))];
      modules := AddEndpoints(modules, parent, JunctionEndpoints(e, parent));
    }
  }

  method AddChildCollections(all: seq<Entity>, inScope: set<string>, scope: seq<Entity>, qs: Option<QueryScope>,
                             start: Table<ApiModule>)
    returns (modules: Table<ApiModule>)
    ensures modules == Children(all, inScope, scope, qs, start, |scope|)
  {
    modules := start;
    for i := 0 to |scope|
      invariant modules == Children(all, inScope, scope, qs, start, i)
    {
      var parent := BuiltParent(all, inScope, scope[i]);
      if IsNested(all, inScope, scope[i]) || parent.None? || !Has(modules, parent.value) {
        continue;
      }
      var child := ChildCollectionEndpoint(scope[i], parent.value, DemandFor(qs, scope[i]));
      modules := AddEndpoints(modules, parent.value, [child]);
    }
  }

  method BuildRestApi(db: DatabaseDesign, options: BuildOptions) returns (r: CoverageAddition)
    ensures r == RestBuild(db, options)
  {
    var scope := Scope(db.entities, options.only);
    var inScope := NamesOf(scope);
    var modules := BuildTopLevel(db.entities, inScope, scope, options.queryScope);
    var excluded;
    modules, excluded := NestJunctions(db.entities, inScope, scope, options.queryScope, modules);
    modules := AddChildCollections(db.entities, inScope, scope, options.queryScope, modules);
    var built := Stamped(modules, options.source);
    if options.includeAuth {
      built := [AuthModule()] + built;
    }
    r := CoverageAddition(built, excluded);
  }

  // ---------- the guarantee ----------

  /** Cover or excuse every entity, filling the remainder with generated groups. */
  function EnsuredCoverage(design: ApiDesign, db: DatabaseDesign, qs: Option<QueryScope>): ApiDesign {
    var names := EntityNames(db);
    var resolved := ResolvedCoverage(design, names);
    var coverage := CoverageOf(resolved, names);
    if coverage.ok then resolved
    else
      var filler := RestBuild(db, BuildOptions(Some(coverage.missing), Some(GeneratedFallback), false, qs));
      ResolvedCoverage(Merged(resolved, filler, coverage.missing), names)
  }

  method EnsureEntityCoverage(design: ApiDesign, db: DatabaseDesign, qs: Option<QueryScope>) returns (r: ApiDesign)
    ensures r == EnsuredCoverage(design, db, qs)
  {
    var names := EntityNames(db);
    var resolved := WithResolvedCoverage(design, names);
    var coverage := ValidateEntityCoverage(resolved, names);
    if coverage.ok {
      return resolved;
    }
    var filler := BuildRestApi(db, BuildOptions(Some(coverage.missing), Some(GeneratedFallback), false, qs));
    var merged := MergeMissingCoverage(resolved, filler, coverage.missing);
    r := WithResolvedCoverage(merged, names);
  }
}
