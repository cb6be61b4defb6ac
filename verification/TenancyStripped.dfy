/** What taking tenancy out of a schema leaves, written out. */
module TenancyStripped {
  import opened Text
  import opened Collections
  import opened Schema
  import opened Shared
  import opened Tenancy
  import opened SharedMatching

  /** The row hangs off the table: by a key to it, or by a column named like an organization's key. */
  predicate HangsOffTable(e: Entity, name: string) {
    exists i :: 0 <= i < |e.columns| &&
      (IsOrganizationKey(e.columns[i].name)
       || (e.columns[i].references.Some? && Fold(e.columns[i].references.value.entity) == name))
  }

  /** The other tables, and those of them that hang off this one. */
  function Others(es: seq<Entity>, name: string): seq<Entity> { Kept(es, (e: Entity) => Fold(e.name) != name) }

  function Dependents(es: seq<Entity>, name: string): seq<Entity> {
    Kept(es, (e: Entity) => Fold(e.name) != name && HangsOffTable(e, name))
  }

  /** A tenant table is called like a place, and most of the other tables hang off it. */
  predicate IsTenantTable(d: DatabaseDesign, name: string) {
    && IsPlaceTable(name)
    && |Others(d.entities, name)| > 0
    && |Dependents(d.entities, name)| * 2 > |Others(d.entities, name)|
  }

  lemma HangsOffIff(e: Entity, name: string)
    ensures ScopesBy(e, name) <==> HangsOffTable(e, name)
  {
    hide Fold, IsOrganizationKey, IsStripColumn;
    forall i | 0 <= i < |e.columns|
      ensures IsStripColumn(e.columns[i].name) <==> IsOrganizationKey(e.columns[i].name)
    {
      StripColumnIff(e.columns[i].name);
    }
  }

  lemma {:induction false} CountsAre(es: seq<Entity>, name: string)
    ensures CountOthers(es, name) == |Others(es, name)|
    ensures CountScoping(es, name) == |Dependents(es, name)|
  {
    hide Fold, HangsOffTable, ScopesBy;
    if es != [] {
      CountsAre(es[1..], name);
      HangsOffIff(es[0], name);
    }
  }

  lemma StrippableIff(e: Entity, d: DatabaseDesign)
    ensures IsStrippable(e, d) <==> IsTenantTable(d, Fold(e.name))
  {
    hide Lower, Trim, IsPlaceTable, Others, Dependents, CountOthers, CountScoping, IsScopeTableName;
    ScopeTableIff(Trim(e.name));
    CountsAre(d.entities, Fold(e.name));
  }

  /** Gone are exactly the tables of the schema that are tenants. */
  lemma GoneAreTenants(d: DatabaseDesign, name: string)
    ensures name in StrippedTables(d) <==>
              IsTenantTable(d, name) && exists i :: 0 <= i < |d.entities| && Fold(d.entities[i].name) == name
  {
    hide Fold, IsStrippable, IsTenantTable;
    forall i | 0 <= i < |d.entities| ensures IsStrippable(d.entities[i], d) <==> IsTenantTable(d, Fold(d.entities[i].name)) {
      StrippableIff(d.entities[i], d);
    }
  }

  /** A column goes with the tenant it references; one that references nothing goes by its name. */
  predicate GoesWith(c: Column, gone: set<string>) {
    if c.references.Some? then Fold(c.references.value.entity) in gone
    else IsOrganizationKey(c.name)
  }

  lemma {:induction false} ColumnsLeft(cs: seq<Column>, gone: set<string>)
    ensures KeptColumns(cs, gone) == Kept(cs, (c: Column) => !GoesWith(c, gone))
  {
    hide Fold, IsOrganizationKey, IsStripColumn;
    if cs != [] {
      ColumnsLeft(cs[1..], gone);
      StripColumnIff(cs[0].name);
    }
  }

  lemma {:induction false} RelationsLeft(rs: seq<Relation>, gone: set<string>)
    ensures UntouchedRelations(rs, gone) == Kept(rs, (r: Relation) => Fold(r.from) !in gone && Fold(r.to) !in gone)
  {
    hide Fold;
    if rs != [] {
      RelationsLeft(rs[1..], gone);
    }
  }

  predicate IsLeft(before: Entity, after: Entity, gone: set<string>) {
    after == Entity(before.name, before.description, Kept(before.columns, (c: Column) => !GoesWith(c, gone)))
  }

  lemma FirstIsLeft(e: Entity, gone: set<string>)
    ensures IsLeft(e, e.(columns := KeptColumns(e.columns, gone)), gone)
  {
    ColumnsLeft(e.columns, gone);
  }

  lemma {:induction false} TablesLeft(es: seq<Entity>, gone: set<string>)
    ensures var left, kept := KeptEntities(es, gone), Kept(es, (e: Entity) => Fold(e.name) !in gone);
            |left| == |kept| && forall i :: 0 <= i < |left| ==> IsLeft(kept[i], left[i], gone)
  {
    hide Fold, KeptColumns, IsLeft;
    if es != [] {
      TablesLeft(es[1..], gone);
      FirstIsLeft(es[0], gone);
    }
  }

  /** For a single business with a tenant in its schema, what is left is every other table without the
      columns that go with a tenant, and every relation that touches none. Otherwise nothing changes. */
  lemma StrippingIsWrittenOut(d: DatabaseDesign, signals: Signals)
    ensures var after, gone := EnforceTenancy(d, signals), StrippedTables(d);
            var kept := Kept(d.entities, (e: Entity) => Fold(e.name) !in gone);
            if signals.multiTenant || gone == {} then after == d
            else && after.databaseType == d.databaseType
                 && |after.entities| == |kept| && (forall i :: 0 <= i < |kept| ==> IsLeft(kept[i], after.entities[i], gone))
                 && after.relations == Kept(d.relations, (r: Relation) => Fold(r.from) !in gone && Fold(r.to) !in gone)
  {
    hide StrippedTables, Fold, IsLeft, KeptEntities, UntouchedRelations;
    TablesLeft(d.entities, StrippedTables(d));
    RelationsLeft(d.relations, StrippedTables(d));
  }
}
