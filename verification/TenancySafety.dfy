/** Adding tenancy is exact and happens once; shared records stay unowned end to end. */
module TenancySafety {
  import opened Text
  import opened Schema
  import opened Shared
  import opened Tenancy

  // ---------- the vocabulary is consistent ----------

  lemma NounKey(at: nat, column: string)
    requires at < |SCOPE_NOUNS| && column == SCOPE_NOUNS[at] + "_id" && forall c :: c in SCOPE_NOUNS[at] ==> 'a' <= c <= 'z'
    ensures IsScopeColumn(column)
  {
    hide LowerChar;
    var noun := SCOPE_NOUNS[at];
    AllLower(noun);
    LowerConcat(noun, "_id");
    LowerId();
    var low := Lower(column);
    assert low[|low| - 3..] == "_id" && low[..|low| - 3] == noun;
  }

  lemma LowerId()
    ensures Lower("_id") == "_id"
  {
  }

  lemma AllLower(noun: string)
    requires forall c :: c in noun ==> 'a' <= c <= 'z'
    ensures Lower(noun) == noun
  {
    forall i | 0 <= i < |noun| ensures Lower(noun)[i] == noun[i] {
      assert noun[i] in noun;
    }
  }

  lemma FirstTenantKeys()
    ensures IsScopeColumn("branch_id")
    ensures IsScopeColumn("warehouse_id")
    ensures IsScopeColumn("school_id")
    ensures IsScopeColumn("campus_id")
  {
    hide IsScopeColumn;
    NounKey(6, "branch_id");
    NounKey(14, "warehouse_id");
    NounKey(12, "school_id");
    NounKey(13, "campus_id");
  }

  lemma MiddleTenantKeys()
    ensures IsScopeColumn("clinic_id")
    ensures IsScopeColumn("store_id")
    ensures IsScopeColumn("outlet_id")
    ensures IsScopeColumn("franchise_id")
  {
    hide IsScopeColumn;
    NounKey(10, "clinic_id");
    NounKey(7, "store_id");
    NounKey(15, "outlet_id");
    NounKey(17, "franchise_id");
  }

  lemma LastTenantKeys()
    ensures IsScopeColumn("workspace_id")
    ensures IsScopeColumn("organization_id")
    ensures IsScopeColumn("tenant_id")
  {
    hide IsScopeColumn;
    NounKey(4, "workspace_id");
    NounKey(1, "organization_id");
    NounKey(0, "tenant_id");
  }

  predicate KeysAreScopeColumns(tenants: seq<Tenant>) {
    forall i :: 0 <= i < |tenants| ==> IsScopeColumn(tenants[i].column)
  }

  lemma {:induction false} FirstMentionedIsScoping(tenants: seq<Tenant>, nouns: set<string>)
    requires KeysAreScopeColumns(tenants) && IsScopeColumn(DEFAULT_TENANT.column)
    ensures IsScopeColumn(FirstMentioned(tenants, nouns).column)
  {
    hide IsScopeColumn;
    if tenants != [] {
      FirstMentionedIsScoping(tenants[1..], nouns);
    }
  }

  /** A key added by the pass is always recognised as tenant scoping afterwards. */
  lemma TenantKeysAreScopeColumns(signals: Signals)
    ensures IsScopeColumn(TenantEntityFor(signals).column)
  {
    hide IsScopeColumn, FirstMentioned;
    FirstTenantKeys();
    MiddleTenantKeys();
    LastTenantKeys();
    FirstMentionedIsScoping(TENANT_NOUNS, signals.tenantNouns);
  }

  lemma TableIsScope(at: nat, name: string)
    requires at < |SCOPE_TABLES| && name == SCOPE_TABLES[at] && name != "" && forall c :: c in name ==> 'a' <= c <= 'z'
    ensures IsScopeTableName(name) && Fold(name) == name && Trim(name) == name
  {
    AllLower(name);
    assert name[0] in name && name[|name| - 1] in name;
    TrimOfTrimmed(name);
  }

  predicate IsScopingTable(name: string) { IsScopeTableName(name) && Fold(name) == name && Trim(name) == name }

  lemma FirstTenantTables()
    ensures IsScopingTable("branches")
    ensures IsScopingTable("warehouses")
    ensures IsScopingTable("schools")
    ensures IsScopingTable("campuses")
  {
    hide IsScopeTableName, Trim, Fold;
    TableIsScope(13, "branches");
    TableIsScope(21, "warehouses");
    TableIsScope(19, "schools");
    TableIsScope(20, "campuses");
  }

  lemma MiddleTenantTables()
    ensures IsScopingTable("clinics")
    ensures IsScopingTable("stores")
    ensures IsScopingTable("outlets")
    ensures IsScopingTable("franchises")
  {
    hide IsScopeTableName, Trim, Fold, Lower;
    TableIsScope(14, "clinics");
    TableIsScope(16, "stores");
    TableIsScope(22, "outlets");
    TableIsScope(24, "franchises");
  }

  lemma LastTenantTables()
    ensures IsScopingTable("workspaces")
    ensures IsScopingTable("organizations")
    ensures IsScopingTable("tenants")
  {
    hide IsScopeTableName, Trim, Fold;
    TableIsScope(11, "workspaces");
    TableIsScope(3, "organizations");
    TableIsScope(1, "tenants");
  }

  predicate TablesAreScoping(tenants: seq<Tenant>) {
    forall i :: 0 <= i < |tenants| ==> IsScopingTable(tenants[i].table)
  }

  lemma {:induction false} FirstMentionedIsBoundary(tenants: seq<Tenant>, nouns: set<string>)
    requires TablesAreScoping(tenants) && IsScopingTable(DEFAULT_TENANT.table)
    ensures IsScopingTable(FirstMentioned(tenants, nouns).table)
  {
    hide IsScopingTable;
    if tenants != [] {
      FirstMentionedIsBoundary(tenants[1..], nouns);
    }
  }

  /** The table added by the pass is always recognised as a boundary afterwards. */
  lemma TenantTablesAreScopeTables(signals: Signals)
    ensures IsScopingTable(TenantEntityFor(signals).table)
  {
    hide IsScopingTable, FirstMentioned;
    FirstTenantTables();
    MiddleTenantTables();
    LastTenantTables();
    FirstMentionedIsBoundary(TENANT_NOUNS, signals.tenantNouns);
  }

  // ---------- when the addition fires ----------

  lemma StripNounsAreScopeNouns(noun: string)
    requires noun in STRIP_NOUNS
    ensures noun in SCOPE_NOUNS
  {
    assert SCOPE_NOUNS[0] == "tenant" && SCOPE_NOUNS[1] == "organization" && SCOPE_NOUNS[3] == "org"
           && SCOPE_NOUNS[4] == "workspace" && SCOPE_NOUNS[5] == "company" && SCOPE_NOUNS[6] == "branch"
           && SCOPE_NOUNS[7] == "store" && SCOPE_NOUNS[8] == "merchant" && SCOPE_NOUNS[9] == "vendor";
  }

  predicate IsUnscoped(d: DatabaseDesign) {
    forall i :: 0 <= i < |d.entities| ==> !IsAlreadyScoped(d.entities[i])
  }

  lemma UnscopedDoesNotScope(e: Entity, name: string)
    requires !IsAlreadyScoped(e) && name in SCOPE_TABLES
    ensures !ScopesBy(e, name)
  {
    hide Trim;
    forall i | 0 <= i < |e.columns| ensures !IsStripColumn(e.columns[i].name) && !References(e.columns[i], name) {
      if IsStripColumn(e.columns[i].name) {
        StripNounsAreScopeNouns(ScopeNoun(e.columns[i].name).value);
      }
    }
  }

  lemma {:induction false} NoneScope(es: seq<Entity>, name: string)
    requires name in SCOPE_TABLES && forall i :: 0 <= i < |es| ==> !IsAlreadyScoped(es[i])
    ensures CountScoping(es, name) == 0
  {
    hide IsAlreadyScoped, ScopesBy, Fold;
    if es != [] {
      UnscopedDoesNotScope(es[0], name);
      NoneScope(es[1..], name);
    }
  }

  /** A schema has tenancy exactly when some table already carries scoping: a scope table
      implies a scoping key. */
  lemma HasTenancyIffScoped(d: DatabaseDesign)
    ensures HasTenancy(d) <==> !IsUnscoped(d)
  {
    hide IsAlreadyScoped, Trim, CountScoping;
    if IsUnscoped(d) {
      forall i | 0 <= i < |d.entities| ensures !IsStrippable(d.entities[i], d) {
        if IsScopeTableName(Trim(d.entities[i].name)) {
          NoneScope(d.entities, Fold(d.entities[i].name));
        }
      }
    }
  }

  // ---------- what it adds ----------

  /** Tables that are neither a pure junction nor described as shared, in order. */
  function OpenTables(es: seq<Entity>, ds: seq<Declaration>): seq<string> {
    if es == [] then []
    else OpenTables(es[..|es| - 1], ds) + (if IsOpen(es[|es| - 1], ds) then [es[|es| - 1].name] else [])
  }

  predicate IsOpen(e: Entity, ds: seq<Declaration>) { !IsPureJunction(e) && !IsShared(e.name, ds) }

  lemma OpenGetsKey(e: Entity, tenant: Tenant, ds: seq<Declaration>)
    requires !IsAlreadyScoped(e) && IsScopeColumn(tenant.column)
    ensures GetsKey(e, tenant, ds) <==> IsOpen(e, ds)
  {
    hide IsScopeColumn, IsPureJunction, IsShared;
  }

  lemma {:induction false} ScopedAreOpen(es: seq<Entity>, tenant: Tenant, ds: seq<Declaration>)
    requires IsScopeColumn(tenant.column) && forall i :: 0 <= i < |es| ==> !IsAlreadyScoped(es[i])
    ensures ScopedNames(es, tenant, ds) == OpenTables(es, ds)
  {
    hide IsScopeColumn, IsAlreadyScoped, GetsKey, IsOpen;
    if es != [] {
      ScopedAreOpen(es[..|es| - 1], tenant, ds);
      OpenGetsKey(es[|es| - 1], tenant, ds);
    }
  }

  /** When it fires: one new table in front; every open table gains exactly one mandatory key to
      it, right after its first primary key (at the front without one); every other table is
      untouched; and each open table gains exactly one ownership relation. */
  lemma AdditionIsExact(d: DatabaseDesign, signals: Signals, i: nat)
    requires MustAdd(d, signals) && i < |d.entities|
    ensures var tenant, e := TenantEntityFor(signals), d.entities[i];
            var after := EnsuredTenancy(d, signals);
            var k := KeyPlace(e.columns);
            && after.entities[0] == TenantTable(tenant) && |after.entities| == |d.entities| + 1
            && after.entities[i + 1] == (if IsOpen(e, signals.declarations)
                                         then e.(columns := e.columns[..k] + [ScopeKey(tenant)] + e.columns[k..]) else e)
            && !ScopeKey(tenant).nullable
            && (forall c :: c in e.columns && c.references.Some? ==> Fold(c.references.value.entity) != Fold(tenant.table))
            && after.relations == d.relations + Ownerships(tenant, OpenTables(d.entities, signals.declarations))
  {
    hide IsPureJunction, IsShared, IsScopeColumn, IsScopeTableName, TenantTable, HasTenancy, FirstMentioned, Fold, Trim;
    var tenant, e := TenantEntityFor(signals), d.entities[i];
    HasTenancyIffScoped(d);
    TenantKeysAreScopeColumns(signals);
    TenantTablesAreScopeTables(signals);
    OpenGetsKey(e, tenant, signals.declarations);
    ScopedAreOpen(d.entities, tenant, signals.declarations);
    forall c | c in e.columns && c.references.Some? ensures Fold(c.references.value.entity) != Fold(tenant.table) {
      var j :| 0 <= j < |e.columns| && e.columns[j] == c;
      UnscopedTarget(e, j, tenant.table);
    }
  }

  lemma UnscopedTarget(e: Entity, j: nat, table: string)
    requires !IsAlreadyScoped(e) && j < |e.columns| && e.columns[j].references.Some? && IsScopingTable(table)
    ensures Fold(e.columns[j].references.value.entity) != Fold(table)
  {
    hide Trim, IsScopeColumn;
  }

  // ---------- it happens once ----------

  lemma {:induction false} OpenTableExists(es: seq<Entity>, ds: seq<Declaration>)
    ensures OpenTables(es, ds) != [] <==> exists i :: 0 <= i < |es| && IsOpen(es[i], ds)
  {
    hide IsOpen;
    if es != [] {
      var front := es[..|es| - 1];
      OpenTableExists(front, ds);
      if exists i :: 0 <= i < |es| && IsOpen(es[i], ds) {
        var i :| 0 <= i < |es| && IsOpen(es[i], ds);
        if i < |front| { assert IsOpen(front[i], ds); }
      }
      if exists i :: 0 <= i < |front| && IsOpen(front[i], ds) {
        var i :| 0 <= i < |front| && IsOpen(front[i], ds);
        assert IsOpen(es[i], ds);
      }
    }
  }

  lemma KeyedIsScoped(e: Entity, tenant: Tenant)
    requires IsScopeColumn(tenant.column)
    ensures IsAlreadyScoped(Scoped(e, tenant))
  {
    hide IsScopeColumn, IsScopeTableName, Trim;
    var k := KeyPlace(e.columns);
    assert Scoped(e, tenant).columns[k] == ScopeKey(tenant);
  }

  lemma TenantTableIsUnscoped(tenant: Tenant)
    ensures !IsAlreadyScoped(TenantTable(tenant))
  {
    hide IsScopeColumn, IsScopeTableName, Trim;
    NotAScopeColumn("id");
    NotAScopeColumn("name");
    NotAScopeColumn("status");
    NotAScopeColumn("created_at");
    NotAScopeColumn("updated_at");
    assert |TenantTable(tenant).columns| == 5;
  }

  lemma NotAScopeColumn(name: string)
    requires |name| < 3 || name[|name| - 1] != 'd'
    requires forall c :: c in name ==> !('A' <= c <= 'Z')
    ensures !IsScopeColumn(name)
  {
    var low := Lower(name);
    if |name| >= 3 {
      assert name[|name| - 1] in name;
      assert low[|low| - 1] == name[|name| - 1];
      assert low[|low| - 3..][2] != "_id"[2];
    }
  }

  /** The schema has tenancy after the addition exactly when some table received a key. */
  lemma AddedHasTenancyIff(d: DatabaseDesign, signals: Signals)
    requires MustAdd(d, signals)
    ensures HasTenancy(EnsuredTenancy(d, signals)) <==> OpenTables(d.entities, signals.declarations) != []
  {
    hide IsAlreadyScoped, HasTenancy, TenantEntityFor, IsOpen, OpenTables, GetsKey, TenantTable, Scoped, ScopedNames;
    var tenant, ds, after := TenantEntityFor(signals), signals.declarations, EnsuredTenancy(d, signals);
    HasTenancyIffScoped(d);
    HasTenancyIffScoped(after);
    TenantKeysAreScopeColumns(signals);
    OpenTableExists(d.entities, ds);
    if OpenTables(d.entities, ds) != [] {
      var i :| 0 <= i < |d.entities| && IsOpen(d.entities[i], ds);
      OpenGetsKey(d.entities[i], tenant, ds);
      KeyedIsScoped(d.entities[i], tenant);
      assert after.entities[i + 1] == Scoped(d.entities[i], tenant);
    } else {
      TenantTableIsUnscoped(tenant);
      forall i | 0 <= i < |after.entities| ensures !IsAlreadyScoped(after.entities[i]) {
        if i > 0 {
          OpenGetsKey(d.entities[i - 1], tenant, ds);
          assert after.entities[i] == d.entities[i - 1];
        }
      }
    }
  }

  /** Adding again changes nothing exactly when the first call added nothing at all or scoped
      at least one table. */
  lemma AddingTwice(d: DatabaseDesign, signals: Signals)
    ensures EnsuredTenancy(EnsuredTenancy(d, signals), signals) == EnsuredTenancy(d, signals)
            <==> !MustAdd(d, signals) || OpenTables(d.entities, signals.declarations) != []
  {
    hide HasTenancy, TenantEntityFor, OpenTables, TenantTable, WithKeys, ScopedNames;
    if MustAdd(d, signals) {
      var after := EnsuredTenancy(d, signals);
      AddedHasTenancyIff(d, signals);
      if !HasTenancy(after) {
        assert |EnsuredTenancy(after, signals).entities| == |after.entities| + 1;
      }
    }
  }
}
