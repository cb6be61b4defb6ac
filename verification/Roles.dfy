/** How many roles a user has in the schema, and the repair of interfaces that assume one. */
module Roles {
  import opened Text
  import opened Collections
  import opened Schema
  import opened RestApi
  import opened FieldTypes

  datatype Cardinality = SingleRole | ManyRoles

  predicate IsUsersTable(name: string) { Lower(name) == "user" || Lower(name) == "users" }

  predicate IsRolesTable(name: string) { Lower(name) == "role" || Lower(name) == "roles" }

  predicate IsRoleId(name: string) { Lower(name) == "role_id" }

  predicate LinksUsers(e: Entity) {
    exists i :: 0 <= i < |e.columns| && e.columns[i].references.Some?
                && IsUsersTable(Trim(e.columns[i].references.value.entity))
  }

  predicate LinksRoles(e: Entity) {
    exists i :: 0 <= i < |e.columns| && e.columns[i].references.Some?
                && IsRolesTable(Trim(e.columns[i].references.value.entity))
  }

  predicate HasRolesTable(db: DatabaseDesign) {
    exists i :: 0 <= i < |db.entities| && IsRolesTable(Trim(db.entities[i].name))
  }

  predicate HasRoleJunction(db: DatabaseDesign) {
    exists i :: 0 <= i < |db.entities| && IsJunctionEntity(db.entities[i])
                && LinksUsers(db.entities[i]) && LinksRoles(db.entities[i])
  }

  predicate LinksUsersAndRoles(r: Relation) {
    || (IsUsersTable(r.from) && IsRolesTable(r.to))
    || (IsRolesTable(r.from) && IsUsersTable(r.to))
  }

  predicate HasRoleRelation(db: DatabaseDesign) {
    exists i :: 0 <= i < |db.relations| && db.relations[i].kind == ManyToMany
                && LinksUsersAndRoles(db.relations[i])
  }

  function FirstUsersTable(entities: seq<Entity>): Option<Entity> {
    if entities == [] then None
    else if IsUsersTable(Trim(entities[0].name)) then Some(entities[0])
    else FirstUsersTable(entities[1..])
  }

  predicate HasRoleKey(e: Entity) {
    (exists i :: 0 <= i < |e.columns| && IsRoleId(e.columns[i].name)) || LinksRoles(e)
  }

  /** How the schema models the user-role link; nothing when there is no roles table. */
  function UserRoleCardinality(db: DatabaseDesign): Option<Cardinality> {
    if !HasRolesTable(db) then None
    else if HasRoleJunction(db) || HasRoleRelation(db) then Some(ManyRoles)
    else
      var users := FirstUsersTable(db.entities);
      if users.Some? && HasRoleKey(users.value) then Some(SingleRole) else None
  }

  // ---------- the repair ----------

  function PluralRole(f: SchemaField): SchemaField {
    if IsRoleId(f.name) then f.(name := "role_ids", fieldType := "array") else f
  }

  function PluralRoles(fields: seq<SchemaField>): (r: seq<SchemaField>)
    ensures |r| == |fields| && forall i :: 0 <= i < |fields| ==> r[i] == PluralRole(fields[i])
  {
    seq(|fields|, i requires 0 <= i < |fields| => PluralRole(fields[i]))
  }

  function PluralEndpoint(e: ApiEndpoint): ApiEndpoint {
    e.(requestSchema := PluralRoles(e.requestSchema), responseSchema := PluralRoles(e.responseSchema))
  }

  /** A path below some `users` segment. */
  predicate BelowUsers(basePath: string) {
    exists i :: 0 < i < |Split(basePath, '/')| && Lower(Split(basePath, '/')[i]) == "users"
  }

  predicate CoversUsers(m: ApiModule) {
    || (exists i :: 0 <= i < |m.Claims()| && IsUsersTable(Trim(m.Claims()[i])))
    || Contains(Lower(m.name), "users")
    || BelowUsers(m.basePath)
  }

  function PluralModule(m: ApiModule): ApiModule {
    if CoversUsers(m) then
      m.(endpoints := seq(|m.endpoints|, i requires 0 <= i < |m.endpoints| => PluralEndpoint(m.endpoints[i])))
    else m
  }

  function PluralModules(ms: seq<ApiModule>): (r: seq<ApiModule>)
    ensures |r| == |ms| && forall i :: 0 <= i < |ms| ==> r[i] == PluralModule(ms[i])
  {
    seq(|ms|, i requires 0 <= i < |ms| => PluralModule(ms[i]))
  }

  function EnforceRoleCardinality(d: ApiDesign, db: DatabaseDesign): ApiDesign {
    if UserRoleCardinality(db) == Some(ManyRoles) then d.(modules := PluralModules(d.modules)) else d
  }

  // ---------- what it guarantees ----------

  predicate NoRoleId(fields: seq<SchemaField>) {
    forall i :: 0 <= i < |fields| ==> !IsRoleId(fields[i].name)
  }

  lemma PluralHasNoRoleId(fields: seq<SchemaField>)
    ensures NoRoleId(PluralRoles(fields))
  {
    assert Lower("role_ids")[7] == 's';
    assert !IsRoleId("role_ids") by { assert |Lower("role_ids")| == 8; }
  }

  /** Under a many-to-many schema no user-owning group accepts or returns a single role id. */
  lemma NoSingleRoleLeft(d: ApiDesign, db: DatabaseDesign, i: nat, j: nat)
    requires UserRoleCardinality(db) == Some(ManyRoles) && i < |d.modules| && CoversUsers(d.modules[i])
    requires j < |d.modules[i].endpoints|
    ensures var e := EnforceRoleCardinality(d, db).modules[i].endpoints[j];
            NoRoleId(e.requestSchema) && NoRoleId(e.responseSchema)
  {
    hide CoversUsers, UserRoleCardinality, NoRoleId, PluralRoles;
    var e := d.modules[i].endpoints[j];
    PluralHasNoRoleId(e.requestSchema);
    PluralHasNoRoleId(e.responseSchema);
  }

  // ---------- the two repairs commute ----------

  lemma RoleIdsIsNeverTyped(index: SchemaTypeIndex, context: seq<string>)
    ensures ResolveFieldType(index, "role_ids", context) == None
  {
    hide ColumnType, OwnKeyType, KeyNoun, EntityForNoun, KeyOf;
    var name: string := "role_ids";
    assert Lower(name) == name;
    TrimOfTrimmed(name);
    assert name[|name| - 4..] == "_ids";
  }

  lemma FieldRepairsCommute(index: SchemaTypeIndex, f: SchemaField, context: seq<string>)
    ensures FixField(index, PluralRole(f), context) == PluralRole(FixField(index, f, context))
  {
    hide ResolveFieldType, IsRoleId;
    RoleIdsIsNeverTyped(index, context);
  }

  lemma FieldListRepairsCommute(index: SchemaTypeIndex, fields: seq<SchemaField>, context: seq<string>)
    ensures FixFields(index, PluralRoles(fields), context) == PluralRoles(FixFields(index, fields, context))
  {
    hide FixField, PluralRole;
    forall i | 0 <= i < |fields|
      ensures FixFields(index, PluralRoles(fields), context)[i] == PluralRoles(FixFields(index, fields, context))[i]
    {
      FieldRepairsCommute(index, fields[i], context);
    }
  }

  lemma EndpointRepairsCommute(index: SchemaTypeIndex, m: ApiModule, e: ApiEndpoint)
    ensures FixEndpoint(index, m, PluralEndpoint(e)) == PluralEndpoint(FixEndpoint(index, m, e))
  {
    hide FixFields, PluralRoles, ContextFor;
    var context := ContextFor(index, m.basePath, m.Claims(), e.path);
    FieldListRepairsCommute(index, e.requestSchema, context);
    FieldListRepairsCommute(index, e.responseSchema, context);
  }

  lemma ModuleRepairsCommute(index: SchemaTypeIndex, m: ApiModule)
    ensures FixModule(index, PluralModule(m)) == PluralModule(FixModule(index, m))
  {
    hide PluralEndpoint, ContextFor, FixFields;
    var a, b := FixModule(index, PluralModule(m)), PluralModule(FixModule(index, m));
    assert CoversUsers(FixModule(index, m)) == CoversUsers(m) by {
      assert FixModule(index, m).Claims() == m.Claims();
    }
    if CoversUsers(m) {
      forall i | 0 <= i < |m.endpoints| ensures a.endpoints[i] == b.endpoints[i] {
        EndpointRepairsCommute(index, m, m.endpoints[i]);
        assert a.endpoints[i] == FixEndpoint(index, PluralModule(m), PluralEndpoint(m.endpoints[i]));
        assert FixEndpoint(index, PluralModule(m), PluralEndpoint(m.endpoints[i]))
               == FixEndpoint(index, m, PluralEndpoint(m.endpoints[i]));
      }
      assert a.endpoints == b.endpoints;
    }
  }

  /** Role repair then type repair gives the same design as type repair then role repair. */
  lemma RepairsCommute(d: ApiDesign, db: DatabaseDesign, collate: (string, string) -> bool)
    ensures Reconciled(EnforceRoleCardinality(d, db), db, collate).design
            == EnforceRoleCardinality(Reconciled(d, db, collate).design, db)
  {
    hide IndexOf, FixModule, PluralModule, WrongInModules, Sorted, Tally;
    var index := IndexOf(db.entities);
    forall i | 0 <= i < |d.modules| ensures FixModule(index, PluralModule(d.modules[i])) == PluralModule(FixModule(index, d.modules[i])) {
      ModuleRepairsCommute(index, d.modules[i]);
    }
    assert FixModules(index, PluralModules(d.modules)) == PluralModules(FixModules(index, d.modules));
  }
}
