/** What the role repair touches, and that it also touches the deterministic build. */
module RoleRepair {
  import opened Text
  import opened Collections
  import opened Schema
  import opened RestApi
  import opened RestPartition
  import opened RestWrites
  import opened Roles

  predicate EndpointHasNoRoleId(e: ApiEndpoint) { NoRoleId(e.requestSchema) && NoRoleId(e.responseSchema) }

  predicate HasNoRoleId(m: ApiModule) {
    forall j :: 0 <= j < |m.endpoints| ==> EndpointHasNoRoleId(m.endpoints[j])
  }

  /** No group that serves users speaks of a single role. */
  predicate IsPlural(d: ApiDesign) {
    forall i :: 0 <= i < |d.modules| && CoversUsers(d.modules[i]) ==> HasNoRoleId(d.modules[i])
  }

  lemma PluralIdIsNoRoleId()
    ensures !IsRoleId("role_ids")
  {
    assert |Lower("role_ids")| == 8;
  }

  lemma FieldsFixedIff(fields: seq<SchemaField>)
    ensures PluralRoles(fields) == fields <==> NoRoleId(fields)
    ensures NoRoleId(PluralRoles(fields))
  {
    hide IsRoleId;
    PluralIdIsNoRoleId();
    if !NoRoleId(fields) {
      var i :| 0 <= i < |fields| && IsRoleId(fields[i].name);
      assert PluralRoles(fields)[i] != fields[i];
    }
  }

  lemma EndpointFixedIff(e: ApiEndpoint)
    ensures PluralEndpoint(e) == e <==> EndpointHasNoRoleId(e)
    ensures EndpointHasNoRoleId(PluralEndpoint(e))
  {
    hide PluralRoles, NoRoleId;
    FieldsFixedIff(e.requestSchema);
    FieldsFixedIff(e.responseSchema);
  }

  lemma ModuleFixedIff(m: ApiModule)
    ensures PluralModule(m) == m <==> (CoversUsers(m) ==> HasNoRoleId(m))
    ensures CoversUsers(m) ==> HasNoRoleId(PluralModule(m))
    ensures CoversUsers(PluralModule(m)) <==> CoversUsers(m)
    ensures |PluralModule(m).endpoints| == |m.endpoints|
  {
    hide PluralEndpoint, EndpointHasNoRoleId, BelowUsers;
    var after := PluralModule(m);
    forall j | 0 <= j < |m.endpoints|
      ensures PluralEndpoint(m.endpoints[j]) == m.endpoints[j] <==> EndpointHasNoRoleId(m.endpoints[j])
      ensures CoversUsers(m) ==> EndpointHasNoRoleId(after.endpoints[j])
    {
      EndpointFixedIff(m.endpoints[j]);
    }
    if CoversUsers(m) && HasNoRoleId(m) {
      assert after.endpoints == m.endpoints;
    }
    if CoversUsers(m) && !HasNoRoleId(m) {
      var j :| 0 <= j < |m.endpoints| && !EndpointHasNoRoleId(m.endpoints[j]);
      assert after.endpoints[j] != m.endpoints[j];
    }
    assert after.Claims() == m.Claims();
  }

  /** The repair leaves a design alone exactly when the schema does not model many roles or no
      group that serves users speaks of a single one; and repairing twice is repairing once. */
  lemma RepairTouchesIff(d: ApiDesign, db: DatabaseDesign)
    ensures EnforceRoleCardinality(d, db) == d <==> UserRoleCardinality(db) != Some(ManyRoles) || IsPlural(d)
    ensures UserRoleCardinality(db) == Some(ManyRoles) ==> IsPlural(EnforceRoleCardinality(d, db))
    ensures EnforceRoleCardinality(EnforceRoleCardinality(d, db), db) == EnforceRoleCardinality(d, db)
  {
    hide UserRoleCardinality, PluralModule, CoversUsers, HasNoRoleId;
    var after := PluralModules(d.modules);
    forall i | 0 <= i < |d.modules|
      ensures PluralModule(d.modules[i]) == d.modules[i] <==> (CoversUsers(d.modules[i]) ==> HasNoRoleId(d.modules[i]))
      ensures CoversUsers(after[i]) ==> HasNoRoleId(after[i])
      ensures PluralModule(after[i]) == after[i]
    {
      ModuleFixedIff(d.modules[i]);
      ModuleFixedIff(after[i]);
    }
    assert PluralModules(after) == after;
    if IsPlural(d) {
      assert after == d.modules;
    } else {
      var i :| 0 <= i < |d.modules| && CoversUsers(d.modules[i]) && !HasNoRoleId(d.modules[i]);
      assert after[i] != d.modules[i];
    }
  }

  // ---------- the deterministic build is not exempt ----------

  /** Linking through a junction names the other table's key: a junction with a role key gives the
      parent's group a write endpoint that speaks of a single role. */
  lemma LinkSpeaksOfOneRole(e: Entity, parent: string, c: Column)
    requires c in e.columns && IsRoleId(c.name) && ParentKey(e, parent) != Some(c.name)
    ensures !EndpointHasNoRoleId(JunctionEndpoints(e, parent)[1])
  {
    hide ResponseFields, LinkColumn, OtherSide, ParentKey, WritableFields;
    var write := WritableFields(e.columns, ParentKey(e, parent));
    RoleIdIsClientOwned(c.name);
    WritableFieldsExact(e.columns, ParentKey(e, parent));
    assert FieldOf(c) in write;
    var i :| 0 <= i < |write| && write[i] == FieldOf(c);
    assert JunctionEndpoints(e, parent)[1].requestSchema == write;
  }

  lemma RoleIdIsClientOwned(name: string)
    requires IsRoleId(name)
    ensures !IsServerManaged(name)
  {
  }

  function KeyTo(name: string, target: string): Column {
    Column(name, "uuid", false, false, false, Some(Reference(target, "id")))
  }

  const USERS := Entity("users", "", [Column("id", "uuid", false, true, false, None)])
  const ROLES := Entity("roles", "", [Column("id", "uuid", false, true, false, None)])
  const USER_ROLES := Entity("user_roles", "", [KeyTo("user_id", "users"), KeyTo("role_id", "roles")])
  const SCHEMA := DatabaseDesign("PostgreSQL", [USERS, ROLES, USER_ROLES], [])

  lemma KeysOfTheJunction()
    ensures ForeignKeys(USER_ROLES.columns) == [KeyTo("user_id", "users"), KeyTo("role_id", "roles")]
    ensures ForeignKeys(USERS.columns) == [] == ForeignKeys(ROLES.columns)
  {
    assert USERS.columns[1..] == [] == ROLES.columns[1..];
    assert ForeignKeys([]) == [];
    assert USER_ROLES.columns[1..] == [KeyTo("role_id", "roles")] && USER_ROLES.columns[1..][1..] == [];
    assert ForeignKeys(USER_ROLES.columns[1..]) == [KeyTo("role_id", "roles")];
  }

  lemma JunctionGoesUnderUsers(inScope: set<string>)
    requires "users" in inScope
    ensures BuiltParent(SCHEMA.entities, inScope, USER_ROLES) == Some("users") && IsNested(SCHEMA.entities, inScope, USER_ROLES)
    ensures BuiltParent(SCHEMA.entities, inScope, USERS).None? && BuiltParent(SCHEMA.entities, inScope, ROLES).None?
  {
    hide ForeignKeys;
    KeysOfTheJunction();
    var all := SCHEMA.entities;
    assert all[..2] == [USERS, ROLES] && all[..2][..1] == [USERS] && ByName([USERS], "users") == Some(USERS);
    assert ByName(all, "users") == Some(USERS);
  }

  lemma SchemaModelsManyRoles()
    ensures UserRoleCardinality(SCHEMA) == Some(ManyRoles)
  {
    hide Trim, ForeignKeys, UserRoleCardinality, IsJunctionEntity;
    KeysOfTheJunction();
    TrimOfTrimmed("users");
    TrimOfTrimmed("roles");
    assert Lower("users") == "users" && Lower("roles") == "roles";
    assert SCHEMA.entities[1].name == "roles" && HasRolesTable(SCHEMA);
    assert USER_ROLES.columns[0].references.value.entity == "users";
    assert USER_ROLES.columns[1].references.value.entity == "roles";
    assert LinksUsers(USER_ROLES) && LinksRoles(USER_ROLES);
    IsAJunction();
    assert SCHEMA.entities[2] == USER_ROLES && HasRoleJunction(SCHEMA);
    ManyByJunction(SCHEMA);
  }

  lemma IsAJunction()
    ensures IsJunctionEntity(USER_ROLES)
  {
    hide ForeignKeys;
    KeysOfTheJunction();
  }

  lemma ManyByJunction(db: DatabaseDesign)
    requires HasRolesTable(db) && HasRoleJunction(db)
    ensures UserRoleCardinality(db) == Some(ManyRoles)
  {
  }

  lemma LinkIsInTheBuild() returns (i: nat, j: nat)
    ensures var ms := RestBuild(SCHEMA, BuildOptions(None, None, false, None)).modules;
            && i < |ms| && j < |ms[i].endpoints| && ms[i].basePath == BasePath("users")
            && ms[i].endpoints[j] == JunctionEndpoints(USER_ROLES, "users")[1]
  {
    hide EntityModule, JunctionReason, JunctionEndpoints, IsNested, BuiltParent, TopLevel, GoodTable, GoodModule, Scope, BasePath;
    var all := SCHEMA.entities;
    var inScope := NamesOf(all);
    ScopeIsAll(all);
    assert all[0].name in inScope;
    JunctionGoesUnderUsers(inScope);
    TopAreNotNested(inScope);
    TopLevelGood(all, inScope, all, None, 3);
    var top := TopLevel(all, inScope, all, None, 3);
    assert all[0].name in TopNames(all, inScope, all, 3);
    HasIff(top, "users");
    var start := Groups(top, []);
    assert Nest(all, inScope, all, None, start, 2) == Nest(all, inScope, all, None, start, 1) == start;
    var g := Nest(all, inScope, all, None, start, 3);
    i := Position(top, "users");
    var extra := JunctionEndpoints(USER_ROLES, "users");
    assert g.modules == AddEndpoints(top, "users", extra);
    assert Children(all, inScope, all, None, g.modules, 1) == g.modules;
    assert Children(all, inScope, all, None, g.modules, 2) == g.modules;
    assert Children(all, inScope, all, None, g.modules, 3) == g.modules;
    GoodBase(top, i);
    j := |top[i].value.endpoints| + 1;
    ThreeEndpoints(USER_ROLES, "users");
  }

  lemma ScopeIsAll(all: seq<Entity>)
    requires all == SCHEMA.entities
    ensures Scope(all, None) == all
  {
    assert all[1..] == [ROLES, USER_ROLES] && all[1..][1..] == [USER_ROLES] && all[1..][1..][1..] == [];
    assert Scope([USER_ROLES], None) == [USER_ROLES] + Scope([], None);
    assert Scope([ROLES, USER_ROLES], None) == [ROLES, USER_ROLES];
  }

  lemma TopAreNotNested(inScope: set<string>)
    requires "users" in inScope
    ensures !IsNested(SCHEMA.entities, inScope, USERS) && !IsNested(SCHEMA.entities, inScope, ROLES)
  {
    hide BuiltParent, IsJunctionEntity;
    JunctionGoesUnderUsers(inScope);
  }

  lemma GoodBase(t: Table<ApiModule>, i: nat)
    requires GoodTable(t) && i < |t|
    ensures t[i].value.basePath == BasePath(t[i].key)
  {
    assert GoodModule(t[i].key, t[i].value);
  }

  lemma ThreeEndpoints(e: Entity, parent: string)
    ensures |JunctionEndpoints(e, parent)| == 3
  {
  }

  lemma UsersPathCovers(m: ApiModule)
    requires m.basePath == BasePath("users")
    ensures CoversUsers(m)
  {
    hide Split;
    assert BasePath("users") == "" + ['/'] + ("api" + ['/'] + "users");
    SplitNone("users", '/');
    SplitPrefix("api", '/', "users");
    SplitPrefix("", '/', "api" + ['/'] + "users");
    assert Split(m.basePath, '/')[2] == "users" && Lower("users") == "users";
    assert BelowUsers(m.basePath);
  }

  /** The whole interface of the schema, as it is built without a model: the Auth group first. */
  function Built(): ApiDesign {
    ApiDesign("", "", RestBuild(SCHEMA, BuildOptions(None, None, true, None)).modules, None)
  }

  lemma AuthComesFirst(db: DatabaseDesign, options: BuildOptions)
    requires options.includeAuth
    ensures RestBuild(db, options).modules == [AuthModule()] + RestBuild(db, options.(includeAuth := false)).modules
  {
    hide AuthModule, BuiltGroups;
  }

  /** For users, roles and their join table, the repair rewrites the generated link endpoint: the
      one role id it must be sent becomes an array. */
  lemma BuildIsRewritten()
    ensures EnforceRoleCardinality(Built(), SCHEMA) != Built()
  {
    hide RestBuild, CoversUsers, JunctionEndpoints, EndpointHasNoRoleId, ParentKey, EnforceRoleCardinality, UserRoleCardinality, BasePath,
         AuthModule;
    var k, j := LinkIsInTheBuild();
    AuthComesFirst(SCHEMA, BuildOptions(None, None, true, None));
    var i := k + 1;
    UsersPathCovers(Built().modules[i]);
    ParentKeyIsTheUser();
    RoleIdName();
    LinkSpeaksOfOneRole(USER_ROLES, "users", USER_ROLES.columns[1]);
    assert !HasNoRoleId(Built().modules[i]);
    SchemaModelsManyRoles();
    RepairTouchesIff(Built(), SCHEMA);
  }

  lemma RoleIdName()
    ensures IsRoleId("role_id")
  {
    assert Lower("role_id") == "role_id";
  }

  lemma ParentKeyIsTheUser()
    ensures ParentKey(USER_ROLES, "users") == Some("user_id")
  {
    hide ForeignKeys;
    KeysOfTheJunction();
  }
}
