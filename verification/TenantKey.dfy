/** The tenant table and the keys an addition of tenancy puts into a schema, written out. */
module TenantKey {
  import opened Text
  import opened Collections
  import opened Schema
  import opened Shared
  import opened Tenancy
  import opened TenancySafety

  // ---------- whose word the tenant gets ----------

  /** Names of a table and of the key to it. */
  predicate IsCalled(t: Tenant, table: string, column: string) { t.table == table && t.column == column }

  function FirstAfter(i: nat, m: set<string>): Tenant
    requires i <= |TENANT_NOUNS|
  {
    FirstMentioned(TENANT_NOUNS[i..], m)
  }

  lemma FirstOf(i: nat, m: set<string>, table: string, column: string)
    requires i < |TENANT_NOUNS| && IsCalled(TENANT_NOUNS[i], table, column)
    ensures table in m ==> IsCalled(FirstAfter(i, m), table, column)
    ensures table !in m ==> FirstAfter(i, m) == FirstAfter(i + 1, m)
  {
    assert TENANT_NOUNS[i..][1..] == TENANT_NOUNS[i + 1..];
  }

  lemma LaterNouns(m: set<string>)
    ensures var t := FirstAfter(5, m);
            if "stores" in m then IsCalled(t, "stores", "store_id")
            else if "outlets" in m then IsCalled(t, "outlets", "outlet_id")
            else if "franchises" in m then IsCalled(t, "franchises", "franchise_id")
            else if "workspaces" in m then IsCalled(t, "workspaces", "workspace_id")
            else if "organizations" in m then IsCalled(t, "organizations", "organization_id")
            else IsCalled(t, "tenants", "tenant_id")
  {
    hide FirstAfter;
    FirstOf(5, m, "stores", "store_id");
    FirstOf(6, m, "outlets", "outlet_id");
    FirstOf(7, m, "franchises", "franchise_id");
    FirstOf(8, m, "workspaces", "workspace_id");
    FirstOf(9, m, "organizations", "organization_id");
    NoneMentioned(m);
  }

  /** The first place or organization the requirements mention, in this order, names the table and the
      key; without one they are generic. */
  lemma TenantIsFirstMentioned(signals: Signals)
    ensures var m, t := signals.tenantNouns, TenantEntityFor(signals);
            if "branches" in m then IsCalled(t, "branches", "branch_id")
            else if "warehouses" in m then IsCalled(t, "warehouses", "warehouse_id")
            else if "schools" in m then IsCalled(t, "schools", "school_id")
            else if "campuses" in m then IsCalled(t, "campuses", "campus_id")
            else if "clinics" in m then IsCalled(t, "clinics", "clinic_id")
            else if "stores" in m then IsCalled(t, "stores", "store_id")
            else if "outlets" in m then IsCalled(t, "outlets", "outlet_id")
            else if "franchises" in m then IsCalled(t, "franchises", "franchise_id")
            else if "workspaces" in m then IsCalled(t, "workspaces", "workspace_id")
            else if "organizations" in m then IsCalled(t, "organizations", "organization_id")
            else IsCalled(t, "tenants", "tenant_id")
  {
    hide FirstAfter, IsCalled, TenantEntityFor;
    var m := signals.tenantNouns;
    EarlierNouns(m);
    LaterNouns(m);
    FirstOfAll(signals);
  }

  lemma EarlierNouns(m: set<string>)
    ensures var t := FirstAfter(0, m);
            if "branches" in m then IsCalled(t, "branches", "branch_id")
            else if "warehouses" in m then IsCalled(t, "warehouses", "warehouse_id")
            else if "schools" in m then IsCalled(t, "schools", "school_id")
            else if "campuses" in m then IsCalled(t, "campuses", "campus_id")
            else if "clinics" in m then IsCalled(t, "clinics", "clinic_id")
            else t == FirstAfter(5, m)
  {
    hide FirstAfter;
    FirstOf(0, m, "branches", "branch_id");
    FirstOf(1, m, "warehouses", "warehouse_id");
    FirstOf(2, m, "schools", "school_id");
    FirstOf(3, m, "campuses", "campus_id");
    FirstOf(4, m, "clinics", "clinic_id");
  }

  lemma FirstOfAll(signals: Signals)
    ensures TenantEntityFor(signals) == FirstAfter(0, signals.tenantNouns)
  {
    assert TENANT_NOUNS[0..] == TENANT_NOUNS;
  }

  lemma NoneMentioned(m: set<string>)
    ensures IsCalled(FirstAfter(10, m), "tenants", "tenant_id")
  {
    assert TENANT_NOUNS[10..] == [];
  }

  // ---------- which tables are exempt ----------

  lemma {:induction false} CountIsKeyCount(cs: seq<Column>)
    ensures CountKeys(cs) >= 2 <==> exists i, j :: 0 <= i < j < |cs| && cs[i].references.Some? && cs[j].references.Some?
    ensures CountKeys(cs) >= 1 <==> exists i :: 0 <= i < |cs| && cs[i].references.Some?
  {
    if cs != [] {
      var rest := cs[1..];
      CountIsKeyCount(rest);
      assert forall i :: 0 <= i < |rest| ==> rest[i] == cs[i + 1];
      if i :| 0 <= i < |rest| && rest[i].references.Some? {
        assert cs[i + 1].references.Some?;
      }
      if i, j :| 0 <= i < j < |rest| && rest[i].references.Some? && rest[j].references.Some? {
        assert cs[i + 1].references.Some? && cs[j + 1].references.Some?;
      }
      if i :| 0 < i < |cs| && cs[i].references.Some? {
        assert rest[i - 1].references.Some?;
      }
      if i, j :| 0 < i < j < |cs| && cs[i].references.Some? && cs[j].references.Some? {
        assert rest[i - 1].references.Some? && rest[j - 1].references.Some?;
      }
    }
  }

  /** A join table has two references at least, and besides references only its primary key, its id and its
      time stamps. */
  lemma PureJunctionIff(e: Entity)
    ensures IsPureJunction(e) <==>
              && (exists i, j :: 0 <= i < j < |e.columns| && e.columns[i].references.Some? && e.columns[j].references.Some?)
              && (forall i :: 0 <= i < |e.columns| && e.columns[i].references.None? && !e.columns[i].primaryKey ==>
                    var low := Lower(e.columns[i].name); low == "id" || low == "created_at" || low == "updated_at")
  {
    hide Lower;
    CountIsKeyCount(e.columns);
  }

  // ---------- what is added ----------

  /** The table's only primary key is its column `key`. */
  predicate IsOnlyKey(e: Entity, key: Column) {
    key in e.columns && key.primaryKey && forall c :: c in e.columns && c.primaryKey ==> c == key
  }

  /** A mandatory reference to the key of `table`, of the type of that key. */
  predicate IsMandatoryKeyTo(c: Column, table: Entity, key: Column) {
    && IsOnlyKey(table, key)
    && c.references == Some(Reference(table.name, key.name)) && c.columnType == key.columnType == "uuid"
    && !c.nullable && !c.unique && !c.primaryKey
  }

  /** Where the key goes: behind the first primary key, in front when there is none. */
  predicate IsKeyPlace(cs: seq<Column>, k: nat) {
    && k <= |cs|
    && (forall i :: 0 <= i < k - 1 ==> !cs[i].primaryKey)
    && (if k > 0 then cs[k - 1].primaryKey else forall i :: 0 <= i < |cs| ==> !cs[i].primaryKey)
  }

  /** The table is as before but for one mandatory key to the first table. */
  ghost predicate GainsKey(before: Entity, after: Entity, table: Entity, column: string) {
    exists k: nat, c: Column, key: Column ::
      && IsKeyPlace(before.columns, k) && c.name == column && IsMandatoryKeyTo(c, table, key)
      && after == before.(columns := before.columns[..k] + [c] + before.columns[k..])
  }

  lemma ScopedGainsKey(e: Entity, tenant: Tenant)
    ensures GainsKey(e, Scoped(e, tenant), TenantTable(tenant), tenant.column)
  {
    var k, table := KeyPlace(e.columns), TenantTable(tenant);
    assert IsMandatoryKeyTo(ScopeKey(tenant), table, table.columns[0]);
    assert IsKeyPlace(e.columns, k);
  }

  /** Tables that are neither a join table nor described as shared. */
  predicate NeedsOwner(e: Entity, ds: seq<Declaration>) { !IsPureJunction(e) && DeclarationFor(e.name, ds).None? }

  /** The new table has many of the owned one; the text calls the tenant by its key less `_id`. */
  predicate IsOwnershipBy(r: Relation, table: Entity, column: string, name: string) {
    && r.from == table.name && r.to == name && r.kind == OneToMany
    && |column| >= 3 && column == column[..|column| - 3] + "_id"
    && r.description == "Each " + column[..|column| - 3] + " owns many " + name + "."
  }

  /** A table's columns, by name and type. */
  predicate AreColumns(cs: seq<Column>, names: seq<string>, types: seq<string>) {
    |cs| == |names| == |types| && forall i :: 0 <= i < |cs| ==> cs[i].name == names[i] && cs[i].columnType == types[i]
  }

  /** The tenant table, under its own key and referencing nothing. */
  ghost predicate IsTenantTable(e: Entity, table: string) {
    && e.name == table
    && e.description == "The " + table + " (tenants) the platform serves; every tenant-scoped record links here."
    && AreColumns(e.columns, ["id", "name", "status", "created_at", "updated_at"], ["uuid", "string", "enum", "timestamp", "timestamp"])
    && (exists key :: IsOnlyKey(e, key) && key.name == "id" && key.columnType == "uuid")
    && (forall c :: c in e.columns ==> !c.nullable && !c.unique && c.references.None?)
  }

  /** An addition of tenancy puts one table in front, under its own key; every table that needs an owner gains
      a mandatory reference to that key, and one relation from the new table; all else stays. */
  lemma AdditionIsWrittenOut(d: DatabaseDesign, signals: Signals)
    requires MustAdd(d, signals)
    ensures var after, ds, tenant := EnsuredTenancy(d, signals), signals.declarations, TenantEntityFor(signals);
            && |after.entities| == |d.entities| + 1
            && IsTenantTable(after.entities[0], tenant.table)
            && (forall i :: 0 <= i < |d.entities| ==>
                  if NeedsOwner(d.entities[i], ds)
                  then GainsKey(d.entities[i], after.entities[i + 1], after.entities[0], tenant.column)
                  else after.entities[i + 1] == d.entities[i])
            && after.databaseType == d.databaseType
  {
    hide IsPureJunction, TenantEntityFor, HasTenancy, IsScopeColumn, TenantTable, IsTenantTable, DeclarationFor, GainsKey, ScopeKey, Scoped;
    var after, ds, tenant := EnsuredTenancy(d, signals), signals.declarations, TenantEntityFor(signals);
    HasTenancyIffScoped(d);
    TenantKeysAreScopeColumns(signals);
    TenantTableShape(tenant);
    forall i | 0 <= i < |d.entities|
      ensures if NeedsOwner(d.entities[i], ds) then GainsKey(d.entities[i], after.entities[i + 1], after.entities[0], tenant.column)
              else after.entities[i + 1] == d.entities[i]
    {
      OpenGetsKey(d.entities[i], tenant, ds);
      ScopedGainsKey(d.entities[i], tenant);
    }
  }

  lemma TenantTableShape(tenant: Tenant)
    ensures IsTenantTable(TenantTable(tenant), tenant.table)
  {
    var e := TenantTable(tenant);
    assert IsOnlyKey(e, e.columns[0]);
  }

  /** The owned tables, in order. */
  function OwnedNames(es: seq<Entity>, ds: seq<Declaration>): seq<string> {
    if es == [] then []
    else (if NeedsOwner(es[0], ds) then [es[0].name] else []) + OwnedNames(es[1..], ds)
  }

  lemma {:induction false} OwnedSnoc(es: seq<Entity>, e: Entity, ds: seq<Declaration>)
    ensures OwnedNames(es + [e], ds) == OwnedNames(es, ds) + (if NeedsOwner(e, ds) then [e.name] else [])
  {
    hide NeedsOwner;
    if es == [] {
      assert [e][1..] == [] && es + [e] == [e];
    } else {
      OwnedSnoc(es[1..], e, ds);
      assert (es + [e])[1..] == es[1..] + [e];
    }
  }

  lemma {:induction false} OpenAreOwned(es: seq<Entity>, ds: seq<Declaration>)
    ensures OpenTables(es, ds) == OwnedNames(es, ds)
  {
    hide IsPureJunction, DeclarationFor;
    if es != [] {
      var front, last := es[..|es| - 1], es[|es| - 1];
      OpenAreOwned(front, ds);
      OwnedSnoc(front, last, ds);
      assert front + [last] == es;
    }
  }

  predicate EndsInId(column: string) {
    |column| >= 3 && column[|column| - 3] == '_' && column[|column| - 2] == 'i' && column[|column| - 1] == 'd'
  }

  lemma IdIsEnding(column: string)
    requires EndsInId(column)
    ensures EndsWith(column, "_id") && column == column[..|column| - 3] + "_id"
  {
    assert column[|column| - 3..] == "_id";
    assert column == column[..|column| - 3] + column[|column| - 3..];
  }

  lemma TenantKeyEndsWithId(signals: Signals)
    ensures EndsInId(TenantEntityFor(signals).column)
  {
    hide TenantEntityFor;
    TenantIsFirstMentioned(signals);
  }

  /** Exactly one relation for each owned table is added behind the old ones: the new table has many of it. */
  lemma OwnershipsAreWrittenOut(d: DatabaseDesign, signals: Signals)
    requires MustAdd(d, signals)
    ensures var after, names := EnsuredTenancy(d, signals), OwnedNames(d.entities, signals.declarations);
            && |after.relations| == |d.relations| + |names|
            && after.relations[..|d.relations|] == d.relations
            && (forall k :: 0 <= k < |names| ==>
                  IsOwnershipBy(after.relations[|d.relations| + k], after.entities[0], TenantEntityFor(signals).column, names[k]))
  {
    hide IsPureJunction, TenantEntityFor, HasTenancy, IsScopeColumn, DeclarationFor, WithKeys;
    HasTenancyIffScoped(d);
    TenantKeysAreScopeColumns(signals);
    TenantKeyEndsWithId(signals);
    IdIsEnding(TenantEntityFor(signals).column);
    ScopedAreOpen(d.entities, TenantEntityFor(signals), signals.declarations);
    OpenAreOwned(d.entities, signals.declarations);
  }
}
