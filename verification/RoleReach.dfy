/** Which role columns of a schema reach the user groups of its deterministic build. */
module RoleReach {
  import opened Text
  import opened Collections
  import opened Schema
  import opened RestApi
  import opened RestPartition
  import opened RestWrites
  import opened GroupReach
  import opened ListQuery
  import opened Roles
  import opened RoleRepair

  predicate HasRoleColumn(e: Entity) { exists c :: c in e.columns && IsRoleId(c.name) }

  /** The group of this table serves users, by its claim, its name or its base path. */
  predicate ServesUsers(name: string) {
    IsUsersTable(Trim(name)) || Contains(Lower(Capitalize(name)), "users") || BelowUsers(BasePath(name))
  }

  // ---------- an endpoint speaks of a role exactly when the table has such a column ----------

  lemma ColumnsShow(columns: seq<Column>)
    ensures NoRoleId(ResponseFields(columns)) <==> forall c :: c in columns ==> !IsRoleId(c.name)
  {
    hide IsRoleId;
    if c :| c in columns && IsRoleId(c.name) {
      var i :| 0 <= i < |columns| && columns[i] == c;
      assert ResponseFields(columns)[i] == FieldOf(c);
    }
  }

  lemma WritesShow(columns: seq<Column>, except: Option<string>)
    requires forall c :: c in columns ==> !IsRoleId(c.name)
    ensures NoRoleId(WritableFields(columns, except))
  {
    hide IsRoleId, IsServerManaged;
    WritableFieldsExact(columns, except);
    var fields := WritableFields(columns, except);
    forall i | 0 <= i < |fields| ensures !IsRoleId(fields[i].name) {
      assert fields[i] in fields;
    }
  }

  lemma BoundIsNoRoleId(base: string)
    ensures !IsRoleId(base + "_from") && !IsRoleId(base + "_to") && !IsRoleId("search") && !IsRoleId("page") && !IsRoleId("limit")
  {
    var a, b := base + "_from", base + "_to";
    assert Lower(a)[|a| - 1] == 'm' && Lower(b)[|b| - 1] == 'o';
    assert "role_id"[6] == 'd';
    assert |"search"| != |"role_id"| && |"page"| != |"role_id"| && |"limit"| != |"role_id"|;
  }

  lemma GroundedIsNoRoleId(f: SchemaField, c: Column, demand: ListQueryDemand)
    requires IsGroundedIn(f, c, demand) && !IsRoleId(c.name)
    ensures !IsRoleId(f.name)
  {
    hide IsRoleId, IsSearchable, IsStatusColumn, IsForeignKey, IsDate;
    BoundIsNoRoleId(DateBase(c.name));
  }

  lemma QueriesShow(e: Entity, demand: ListQueryDemand)
    requires !HasRoleColumn(e)
    ensures NoRoleId(QueryParams(e, demand))
  {
    hide IsRoleId, IsGroundedIn, QueryParams, HasName;
    QueryParamsAreSound(e, demand);
    BoundIsNoRoleId("");
    var params := QueryParams(e, demand);
    forall i | 0 <= i < |params| ensures !IsRoleId(params[i].name) {
      if i >= 2 {
        var j :| 0 <= j < |e.columns| && IsGroundedIn(params[i], e.columns[j], demand);
        GroundedIsNoRoleId(params[i], e.columns[j], demand);
      } else {
        assert params[i] == PAGINATION[i];
      }
    }
  }

  predicate SpeaksOfRole(key: string, e: ApiEndpoint) { !EndpointHasNoRoleId(e) }

  lemma EntitySpeaks(e: Entity, demand: ListQueryDemand)
    ensures HasMark(SpeaksOfRole, e.name, EntityEndpoints(e, demand)) <==> HasRoleColumn(e)
  {
    hide IsRoleId, QueryParams, WritableFields, ResponseFields, Singular, BasePath, ItemPath;
    ColumnsShow(e.columns);
    if HasRoleColumn(e) {
      assert SpeaksOfRole(e.name, EntityEndpoints(e, demand)[0]);
    } else {
      WritesShow(e.columns, None);
      QueriesShow(e, demand);
    }
  }

  lemma JunctionSpeaks(e: Entity, parent: string)
    ensures HasMark(SpeaksOfRole, parent, JunctionEndpoints(e, parent)) <==> HasRoleColumn(e)
  {
    hide IsRoleId, WritableFields, ResponseFields, Singular, NestedPath, LinkColumn, OtherSide, ParentKey;
    ColumnsShow(e.columns);
    if HasRoleColumn(e) {
      assert SpeaksOfRole(parent, JunctionEndpoints(e, parent)[0]);
    } else {
      WritesShow(e.columns, ParentKey(e, parent));
    }
  }

  lemma {:induction false} ExceptShows(fields: seq<SchemaField>, except: Option<string>)
    requires NoRoleId(fields)
    ensures NoRoleId(FieldsExcept(fields, except))
  {
    hide IsRoleId;
    if fields != [] {
      ExceptShows(fields[1..], except);
    }
  }

  lemma ChildSpeaks(e: Entity, parent: string, demand: ListQueryDemand)
    ensures HasMark(SpeaksOfRole, parent, [ChildCollectionEndpoint(e, parent, demand)]) <==> HasRoleColumn(e)
  {
    hide IsRoleId, QueryParams, FieldsExcept, ResponseFields, Singular, NestedPath, ParentKey;
    ColumnsShow(e.columns);
    var child := ChildCollectionEndpoint(e, parent, demand);
    if HasRoleColumn(e) {
      assert SpeaksOfRole(parent, [child][0]);
    } else {
      QueriesShow(e, demand);
      ExceptShows(QueryParams(e, demand), ParentKey(e, parent));
    }
  }

  predicate ShowsRole(e: Entity, parent: string) { HasRoleColumn(e) }

  /** A role column shows wherever its table does: in its own group, nested, or as a child. */
  function RoleSources(): Sources { Sources(HasRoleColumn, ShowsRole, ShowsRole) }

  lemma RolesExplained(qs: Option<QueryScope>)
    ensures Explains(RoleSources(), SpeaksOfRole, qs)
  {
    hide HasMark, HasRoleColumn, EntityEndpoints, JunctionEndpoints, ChildCollectionEndpoint, DemandFor;
    forall e: Entity ensures HasRoleColumn(e) <==> HasMark(SpeaksOfRole, e.name, EntityEndpoints(e, DemandFor(qs, e))) {
      EntitySpeaks(e, DemandFor(qs, e));
    }
    forall e: Entity, parent: string ensures HasRoleColumn(e) <==> HasMark(SpeaksOfRole, parent, JunctionEndpoints(e, parent)) {
      JunctionSpeaks(e, parent);
    }
    forall e: Entity, parent: string
      ensures HasRoleColumn(e) <==> HasMark(SpeaksOfRole, parent, [ChildCollectionEndpoint(e, parent, DemandFor(qs, e))])
    {
      ChildSpeaks(e, parent, DemandFor(qs, e));
    }
  }

  // ---------- when the build is rewritten ----------

  function BuildOf(db: DatabaseDesign, options: BuildOptions): ApiDesign {
    ApiDesign("", "", RestBuild(db, options).modules, None)
  }

  lemma GroupServesUsersIff(key: string, m: ApiModule, source: Option<ModuleSource>)
    requires GoodModule(key, m)
    ensures CoversUsers(if source.Some? then m.(source := source) else m) <==> ServesUsers(key)
  {
    hide Trim, Contains, BelowUsers, Capitalize, BasePath, IsUsersTable;
    var stamped := if source.Some? then m.(source := source) else m;
    assert stamped.Claims() == [key] && stamped.Claims()[0] == key;
    assert stamped.name == Capitalize(key) && stamped.basePath == BasePath(key);
  }

  lemma AuthSegments()
    ensures Split("/api/auth", '/') == ["", "api", "auth"]
  {
    hide Split;
    var api: string, auth: string := "api", "auth";
    assert "/api/auth" == "" + ['/'] + (api + ['/'] + auth);
    SplitPrefix("", '/', api + ['/'] + auth);
    SplitPrefix(api, '/', auth);
    SplitNone(auth, '/');
  }

  lemma AuthPathIsNotBelowUsers()
    ensures !BelowUsers("/api/auth")
  {
    hide Split, Lower;
    AuthSegments();
    ShortIsNotUsers("");
    ShortIsNotUsers("api");
    ShortIsNotUsers("auth");
  }

  lemma ShortIsNotUsers(s: string)
    requires |s| < 5
    ensures Lower(s) != "users"
  {
  }

  lemma {:induction false} LongerIsNotContained(s: string, part: string)
    requires |s| < |part|
    ensures !Contains(s, part)
  {
    if s != "" {
      LongerIsNotContained(s[1..], part);
    }
  }

  /** The Auth group claims no table, and neither its name nor its path speaks of users. */
  lemma AuthServesNobody()
    ensures !CoversUsers(AuthModule())
  {
    hide BelowUsers, Contains;
    AuthPathIsNotBelowUsers();
    LongerIsNotContained(Lower("Auth"), "users");
  }

  lemma AuthKeepsPlural(d: ApiDesign, e: ApiDesign)
    requires e.modules == [AuthModule()] + d.modules
    ensures IsPlural(e) <==> IsPlural(d)
  {
    hide CoversUsers, HasNoRoleId, AuthModule;
    AuthServesNobody();
    forall i | 0 <= i < |d.modules| ensures e.modules[i + 1] == d.modules[i] {
    }
    if !IsPlural(d) {
      var i :| 0 <= i < |d.modules| && CoversUsers(d.modules[i]) && !HasNoRoleId(d.modules[i]);
      assert e.modules[i + 1] == d.modules[i];
    }
  }

  lemma GroupsArePluralIff(db: DatabaseDesign, options: BuildOptions)
    requires !options.includeAuth
    ensures var r := ReachOf(db, options.only, RoleSources());
            IsPlural(BuildOf(db, options)) <==> !exists name :: name in r.grouped && name in r.reached && ServesUsers(name)
  {
    hide ServesUsers, CoversUsers, BuiltGroups, GoodModule, EndpointHasNoRoleId, Explains, ReachOf;
    var g, r := BuiltGroups(db, options.only, options.queryScope), ReachOf(db, options.only, RoleSources());
    var d := BuildOf(db, options);
    RolesExplained(options.queryScope);
    BuildReflects(db, options.only, options.queryScope, RoleSources(), SpeaksOfRole);
    forall i | 0 <= i < |g.modules|
      ensures CoversUsers(d.modules[i]) <==> ServesUsers(g.modules[i].key)
      ensures HasNoRoleId(d.modules[i]) <==> g.modules[i].key !in r.reached
    {
      assert GoodModule(g.modules[i].key, g.modules[i].value);
      GroupServesUsersIff(g.modules[i].key, g.modules[i].value, options.source);
      assert d.modules[i].endpoints == g.modules[i].value.endpoints;
    }
    if name :| name in r.grouped && name in r.reached && ServesUsers(name) {
      var i :| 0 <= i < |g.modules| && g.modules[i].key == name;
      assert CoversUsers(d.modules[i]) && !HasNoRoleId(d.modules[i]);
    }
    if !IsPlural(d) {
      var i :| 0 <= i < |d.modules| && CoversUsers(d.modules[i]) && !HasNoRoleId(d.modules[i]);
      assert g.modules[i].key in KeySet(g.modules);
    }
  }

  /** The role repair rewrites a deterministic build, with the Auth group or without it, exactly when
      the schema models many roles and some role column reaches a group that serves users. */
  lemma BuildIsRewrittenIff(db: DatabaseDesign, options: BuildOptions)
    ensures var r := ReachOf(db, options.only, RoleSources());
            EnforceRoleCardinality(BuildOf(db, options), db) != BuildOf(db, options)
            <==> UserRoleCardinality(db) == Some(ManyRoles) && exists name :: name in r.grouped && name in r.reached && ServesUsers(name)
  {
    hide UserRoleCardinality, ServesUsers, IsPlural, RestBuild, EnforceRoleCardinality, AuthModule, ReachOf;
    var groups := options.(includeAuth := false);
    RepairTouchesIff(BuildOf(db, options), db);
    GroupsArePluralIff(db, groups);
    if options.includeAuth {
      AuthComesFirst(db, options);
      AuthKeepsPlural(BuildOf(db, groups), BuildOf(db, options));
    }
  }
}
