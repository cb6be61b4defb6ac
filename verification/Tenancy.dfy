/** Multi-tenancy, only when the requirements describe it: strip it, or add it. */
module Tenancy {
  import opened Text
  import opened Collections
  import opened Schema
  import opened Shared

  /** What the requirement prose was found to say. */
  datatype Signals = Signals(multiTenant: bool, tenantNouns: set<string>, declarations: seq<Declaration>)

  /** Scope nouns narrow enough to strip a column by name alone. */
  const STRIP_NOUNS: seq<string> := [
    "tenant", "organization", "org", "workspace", "company", "branch", "store", "merchant", "vendor"]

  predicate IsStripColumn(column: string) {
    ScopeNoun(column).Some? && ScopeNoun(column).value in STRIP_NOUNS
  }

  const TENANT_NOUNS: seq<Tenant> := [
    Tenant("branches", "branch_id"), Tenant("warehouses", "warehouse_id"), Tenant("schools", "school_id"),
    Tenant("campuses", "campus_id"), Tenant("clinics", "clinic_id"), Tenant("stores", "store_id"),
    Tenant("outlets", "outlet_id"), Tenant("franchises", "franchise_id"), Tenant("workspaces", "workspace_id"),
    Tenant("organizations", "organization_id")]

  const DEFAULT_TENANT := Tenant("tenants", "tenant_id")

  function FirstMentioned(tenants: seq<Tenant>, nouns: set<string>): (t: Tenant)
    ensures t in tenants || t == DEFAULT_TENANT
  {
    if tenants == [] then DEFAULT_TENANT
    else if tenants[0].table in nouns then tenants[0]
    else FirstMentioned(tenants[1..], nouns)
  }

  /** The tenant table and key in the domain's own words. */
  function TenantEntityFor(signals: Signals): Tenant { FirstMentioned(TENANT_NOUNS, signals.tenantNouns) }

  // ---------- stripping ----------

  predicate References(c: Column, name: string) {
    c.references.Some? && Fold(c.references.value.entity) == name
  }

  predicate ScopesBy(e: Entity, name: string) {
    exists i :: 0 <= i < |e.columns| && (IsStripColumn(e.columns[i].name) || References(e.columns[i], name))
  }

  function CountOthers(es: seq<Entity>, name: string): nat {
    if es == [] then 0
    else CountOthers(es[1..], name) + (if Fold(es[0].name) != name then 1 else 0)
  }

  function CountScoping(es: seq<Entity>, name: string): nat {
    if es == [] then 0
    else CountScoping(es[1..], name) + (if Fold(es[0].name) != name && ScopesBy(es[0], name) then 1 else 0)
  }

  /** A tenant is what the majority of the other tables hang off. */
  predicate IsScopeTable(e: Entity, d: DatabaseDesign) {
    var name := Fold(e.name);
    CountOthers(d.entities, name) > 0 && 2 * CountScoping(d.entities, name) > CountOthers(d.entities, name)
  }

  predicate IsStrippable(e: Entity, d: DatabaseDesign) {
    IsScopeTableName(Trim(e.name)) && IsScopeTable(e, d)
  }

  function StrippedTables(d: DatabaseDesign): set<string> {
    set i | 0 <= i < |d.entities| && IsStrippable(d.entities[i], d) :: Fold(d.entities[i].name)
  }

  /** A column that only scopes its row to a tenant being removed. */
  predicate IsStripped(c: Column, gone: set<string>) {
    match c.references
    case Some(r) => Fold(r.entity) in gone
    case None => IsStripColumn(c.name)
  }

  function KeptColumns(cs: seq<Column>, gone: set<string>): (r: seq<Column>)
    ensures forall c :: c in r <==> c in cs && !IsStripped(c, gone)
  {
    if cs == [] then []
    else (if IsStripped(cs[0], gone) then [] else [cs[0]]) + KeptColumns(cs[1..], gone)
  }

  function KeptEntities(es: seq<Entity>, gone: set<string>): seq<Entity> {
    if es == [] then []
    else
      (if Fold(es[0].name) in gone then [] else [es[0].(columns := KeptColumns(es[0].columns, gone))])
      + KeptEntities(es[1..], gone)
  }

  function UntouchedRelations(rs: seq<Relation>, gone: set<string>): (r: seq<Relation>)
    ensures forall x :: x in r <==> x in rs && Fold(x.from) !in gone && Fold(x.to) !in gone
  {
    if rs == [] then []
    else (if Fold(rs[0].from) in gone || Fold(rs[0].to) in gone then [] else [rs[0]]) + UntouchedRelations(rs[1..], gone)
  }

  function EnforceTenancy(d: DatabaseDesign, signals: Signals): DatabaseDesign {
    var gone := StrippedTables(d);
    if signals.multiTenant || gone == {} then d
    else d.(entities := KeptEntities(d.entities, gone), relations := UntouchedRelations(d.relations, gone))
  }

  // ---------- adding ----------

  predicate IsAlreadyScoped(e: Entity) {
    exists i :: 0 <= i < |e.columns| &&
      (IsScopeColumn(e.columns[i].name)
       || (e.columns[i].references.Some? && IsScopeTableName(Trim(e.columns[i].references.value.entity))))
  }

  function CountKeys(cs: seq<Column>): nat {
    if cs == [] then 0 else CountKeys(cs[1..]) + (if cs[0].references.Some? then 1 else 0)
  }

  predicate IsBookkeeping(c: Column) {
    c.references.Some? || c.primaryKey || Lower(c.name) in ["id", "created_at", "updated_at"]
  }

  /** A join table with no columns of its own; scoped through its parents. */
  predicate IsPureJunction(e: Entity) {
    CountKeys(e.columns) >= 2 && forall i :: 0 <= i < |e.columns| ==> IsBookkeeping(e.columns[i])
  }

  predicate HasTenancy(d: DatabaseDesign) {
    || (exists i :: 0 <= i < |d.entities| && IsStrippable(d.entities[i], d))
    || (exists i :: 0 <= i < |d.entities| && IsAlreadyScoped(d.entities[i]))
  }

  function TenantTable(tenant: Tenant): Entity {
    Entity(tenant.table, "The " + tenant.table + " (tenants) the platform serves; every tenant-scoped record links here.", [
      Column("id", "uuid", false, true, false, None),
      Column("name", "string", false, false, false, None),
      Column("status", "enum", false, false, false, None),
      Column("created_at", "timestamp", false, false, false, None),
      Column("updated_at", "timestamp", false, false, false, None)])
  }

  function ScopeKey(tenant: Tenant): Column {
    Column(tenant.column, "uuid", false, false, false, Some(Reference(tenant.table, "id")))
  }

  predicate HasColumn(e: Entity, name: string) {
    exists i :: 0 <= i < |e.columns| && e.columns[i].name == name
  }

  predicate IsShared(name: string, ds: seq<Declaration>) { DeclarationFor(name, ds).Some? }

  predicate GetsKey(e: Entity, tenant: Tenant, ds: seq<Declaration>) {
    !IsPureJunction(e) && !HasColumn(e, tenant.column) && !IsShared(e.name, ds)
  }

  /** Just after the first primary key, or at the front when there is none. */
  function KeyPlace(cs: seq<Column>): (k: nat)
    ensures k <= |cs|
    ensures k > 0 ==> cs[k - 1].primaryKey && forall i :: 0 <= i < k - 1 ==> !cs[i].primaryKey
    ensures k == 0 ==> forall i :: 0 <= i < |cs| ==> !cs[i].primaryKey
  {
    if cs == [] then 0
    else if cs[0].primaryKey then 1
    else if KeyPlace(cs[1..]) == 0 then 0
    else KeyPlace(cs[1..]) + 1
  }

  function Scoped(e: Entity, tenant: Tenant): Entity {
    var k := KeyPlace(e.columns);
    e.(columns := e.columns[..k] + [ScopeKey(tenant)] + e.columns[k..])
  }

  function WithKey(e: Entity, tenant: Tenant, ds: seq<Declaration>): Entity {
    if GetsKey(e, tenant, ds) then Scoped(e, tenant) else e
  }

  function WithKeys(es: seq<Entity>, tenant: Tenant, ds: seq<Declaration>): (r: seq<Entity>)
    ensures |r| == |es| && forall i :: 0 <= i < |es| ==> r[i] == WithKey(es[i], tenant, ds)
  {
    seq(|es|, i requires 0 <= i < |es| => WithKey(es[i], tenant, ds))
  }

  /** The names of the tables given a key, in order. */
  function ScopedNames(es: seq<Entity>, tenant: Tenant, ds: seq<Declaration>): seq<string> {
    if es == [] then []
    else ScopedNames(es[..|es| - 1], tenant, ds)
         + (if GetsKey(es[|es| - 1], tenant, ds) then [es[|es| - 1].name] else [])
  }

  function OwnershipOf(tenant: Tenant, name: string): Relation {
    var singular := if EndsWith(tenant.column, "_id") then tenant.column[..|tenant.column| - 3] else tenant.column;
    Relation(tenant.table, name, OneToMany, "Each " + singular + " owns many " + name + ".")
  }

  function Ownerships(tenant: Tenant, names: seq<string>): (r: seq<Relation>)
    ensures |r| == |names| && forall i :: 0 <= i < |names| ==> r[i] == OwnershipOf(tenant, names[i])
  {
    seq(|names|, i requires 0 <= i < |names| => OwnershipOf(tenant, names[i]))
  }

  predicate MustAdd(d: DatabaseDesign, signals: Signals) { signals.multiTenant && !HasTenancy(d) }

  function AddedTenancy(d: DatabaseDesign, tenant: Tenant, ds: seq<Declaration>): DatabaseDesign {
    d.(entities := [TenantTable(tenant)] + WithKeys(d.entities, tenant, ds),
       relations := d.relations + Ownerships(tenant, ScopedNames(d.entities, tenant, ds)))
  }

  function EnsuredTenancy(d: DatabaseDesign, signals: Signals): DatabaseDesign {
    if MustAdd(d, signals) then AddedTenancy(d, TenantEntityFor(signals), signals.declarations) else d
  }

  method EnsureTenancy(d: DatabaseDesign, signals: Signals) returns (r: DatabaseDesign, scoped: seq<string>, skipped: seq<string>)
    ensures r == EnsuredTenancy(d, signals)
    ensures MustAdd(d, signals) ==> scoped == ScopedNames(d.entities, TenantEntityFor(signals), signals.declarations)
    ensures !MustAdd(d, signals) ==> scoped == []
  {
    hide IsPureJunction, HasColumn, IsShared, HasTenancy, Scoped;
    if !MustAdd(d, signals) {
      return d, [], [];
    }
    var tenant, ds, es := TenantEntityFor(signals), signals.declarations, d.entities;
    var out := [];
    scoped, skipped := [], [];
    for i := 0 to |es|
      invariant |out| == i && forall k :: 0 <= k < i ==> out[k] == WithKey(es[k], tenant, ds)
      invariant scoped == ScopedNames(es[..i], tenant, ds)
    {
      assert es[..i + 1][..i] == es[..i];
      var e := es[i];
      if IsPureJunction(e) || HasColumn(e, tenant.column) {
        out := out + [e];
        continue;
      }
      if IsShared(e.name, ds) {
        skipped := skipped + [e.name];
        out := out + [e];
        continue;
      }
      scoped := scoped + [e.name];
      out := out + [Scoped(e, tenant)];
    }
    assert es[..|es|] == es;
    assert out == WithKeys(es, tenant, ds);
    r := d.(entities := [TenantTable(tenant)] + out, relations := d.relations + Ownerships(tenant, scoped));
  }

  // ---------- the one entry point ----------

  function AppliedTenancy(d: DatabaseDesign, signals: Signals): DatabaseDesign {
    if !signals.multiTenant then EnforceTenancy(d, signals)
    else SharedCorrection(EnsuredTenancy(d, signals), signals.declarations, TenantEntityFor(signals))
  }

  method ApplyTenancy(d: DatabaseDesign, signals: Signals) returns (r: DatabaseDesign, corrections: seq<Correction>)
    ensures r == AppliedTenancy(d, signals)
  {
    hide EnforceTenancy, EnsuredTenancy, SharedCorrection;
    if !signals.multiTenant {
      return EnforceTenancy(d, signals), [];
    }
    var scopedDesign, _, _ := EnsureTenancy(d, signals);
    r, corrections := ReconcileSharedEntities(scopedDesign, signals.declarations, TenantEntityFor(signals));
  }
}
