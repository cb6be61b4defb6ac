/** Foreign keys and relations keep naming existing tables through every schema rewrite. */
module Closure {
  import opened Text
  import opened Schema
  import opened Shared
  import opened Tenancy
  import opened SupportTables

  /** How closely a reference must spell the table's name. */
  datatype Spelling = Exact | UpToSpace | UpToSpaceAndCase

  function Spelled(s: Spelling, name: string): string {
    match s
    case Exact => name
    case UpToSpace => Trim(name)
    case UpToSpaceAndCase => Fold(name)
  }

  function TableNames(es: seq<Entity>): set<string> { set e | e in es :: e.name }

  predicate HasTable(s: Spelling, names: set<string>, name: string) {
    exists n :: n in names && Spelled(s, n) == Spelled(s, name)
  }

  predicate KeysResolve(s: Spelling, names: set<string>, cs: seq<Column>) {
    forall c :: c in cs && c.references.Some? ==> HasTable(s, names, c.references.value.entity)
  }

  predicate EndsResolve(s: Spelling, names: set<string>, r: Relation) {
    HasTable(s, names, r.from) && HasTable(s, names, r.to)
  }

  /** Every foreign key and every relation end names a table of the design. */
  predicate IsClosed(s: Spelling, d: DatabaseDesign) {
    var names := TableNames(d.entities);
    && (forall e :: e in d.entities ==> KeysResolve(s, names, e.columns))
    && (forall r :: r in d.relations ==> EndsResolve(s, names, r))
  }

  /** A table whose name is outside `gone` (up to space and case) is still there. */
  lemma TableSurvives(s: Spelling, names: set<string>, gone: set<string>, left: set<string>, name: string)
    requires HasTable(s, names, name) && Fold(name) !in gone
    requires forall n :: n in names && Fold(n) !in gone ==> n in left
    ensures HasTable(s, left, name)
  {
    var n :| n in names && Spelled(s, n) == Spelled(s, name);
    assert Fold(n) == Fold(name);
  }

  lemma MoreTables(s: Spelling, names: set<string>, more: set<string>, cs: seq<Column>)
    requires KeysResolve(s, names, cs) && names <= more
    ensures KeysResolve(s, more, cs)
  {
    hide Spelled;
    forall c | c in cs && c.references.Some? ensures HasTable(s, more, c.references.value.entity) {
      assert HasTable(s, names, c.references.value.entity);
    }
  }

  lemma MoreEnds(s: Spelling, names: set<string>, more: set<string>, r: Relation)
    requires EndsResolve(s, names, r) && names <= more
    ensures EndsResolve(s, more, r)
  {
    hide Spelled;
  }

  lemma ListedResolves(s: Spelling, names: set<string>, name: string)
    requires name in names
    ensures HasTable(s, names, name)
  {
  }

  // ---------- stripping tenancy ----------

  lemma {:induction false} KeptEntitiesExact(es: seq<Entity>, gone: set<string>)
    ensures forall x :: x in KeptEntities(es, gone) <==>
              exists e :: e in es && Fold(e.name) !in gone && x == e.(columns := KeptColumns(e.columns, gone))
  {
    hide Fold, KeptColumns;
    if es != [] {
      KeptEntitiesExact(es[1..], gone);
      assert es == [es[0]] + es[1..];
    }
  }

  lemma KeptNames(es: seq<Entity>, gone: set<string>)
    ensures forall n :: n in TableNames(es) && Fold(n) !in gone ==> n in TableNames(KeptEntities(es, gone))
  {
    hide Fold, KeptColumns, KeptEntities;
    KeptEntitiesExact(es, gone);
    forall n | n in TableNames(es) && Fold(n) !in gone ensures n in TableNames(KeptEntities(es, gone)) {
      var e :| e in es && e.name == n;
      assert e.(columns := KeptColumns(e.columns, gone)) in KeptEntities(es, gone);
    }
  }

  lemma EnforceKeepsClosure(s: Spelling, d: DatabaseDesign, signals: Signals)
    requires IsClosed(s, d)
    ensures IsClosed(s, EnforceTenancy(d, signals))
  {
    hide Fold, HasTable, IsStrippable, IsStripColumn, KeptEntities, TableNames;
    var gone := StrippedTables(d);
    if !signals.multiTenant && gone != {} {
      var kept, names := KeptEntities(d.entities, gone), TableNames(d.entities);
      var left := TableNames(kept);
      KeptEntitiesExact(d.entities, gone);
      KeptNames(d.entities, gone);
      forall x | x in kept ensures KeysResolve(s, left, x.columns) {
        var e :| e in d.entities && Fold(e.name) !in gone && x == e.(columns := KeptColumns(e.columns, gone));
        forall c | c in x.columns && c.references.Some? ensures HasTable(s, left, c.references.value.entity) {
          assert c in e.columns && !IsStripped(c, gone);
          TableSurvives(s, names, gone, left, c.references.value.entity);
        }
      }
      forall r | r in UntouchedRelations(d.relations, gone) ensures EndsResolve(s, left, r) {
        assert EndsResolve(s, names, r);
        TableSurvives(s, names, gone, left, r.from);
        TableSurvives(s, names, gone, left, r.to);
      }
    }
  }

  // ---------- adding tenancy ----------

  lemma {:induction false} ScopedNamesAreTables(es: seq<Entity>, tenant: Tenant, ds: seq<Declaration>)
    ensures forall n :: n in ScopedNames(es, tenant, ds) ==> n in TableNames(es)
  {
    hide GetsKey;
    if es != [] {
      var front := es[..|es| - 1];
      ScopedNamesAreTables(front, tenant, ds);
      assert es == front + [es[|es| - 1]];
    }
  }

  lemma AddedNames(d: DatabaseDesign, tenant: Tenant, ds: seq<Declaration>)
    ensures TableNames(AddedTenancy(d, tenant, ds).entities) == TableNames(d.entities) + {tenant.table}
  {
    hide GetsKey, Ownerships, TenantTable;
    var es := AddedTenancy(d, tenant, ds).entities;
    assert es[0] == TenantTable(tenant) && es[0].name == tenant.table by { TenantTableName(tenant); }
    forall n | n in TableNames(d.entities) ensures n in TableNames(es) {
      var i :| 0 <= i < |d.entities| && d.entities[i].name == n;
      assert es[i + 1].name == n;
    }
    forall n | n in TableNames(es) ensures n in TableNames(d.entities) + {tenant.table} {
      var i :| 0 <= i < |es| && es[i].name == n;
      if i > 0 { assert d.entities[i - 1].name == n; }
    }
  }

  lemma TenantTableName(tenant: Tenant)
    ensures TenantTable(tenant).name == tenant.table
    ensures forall c :: c in TenantTable(tenant).columns ==> c.references.None?
  {
  }

  lemma ScopedKeysResolve(s: Spelling, names: set<string>, e: Entity, tenant: Tenant, ds: seq<Declaration>)
    requires KeysResolve(s, names, e.columns) && tenant.table in names
    ensures KeysResolve(s, names, WithKey(e, tenant, ds).columns)
  {
    hide HasTable, GetsKey;
    ListedResolves(s, names, tenant.table);
    forall c | c in WithKey(e, tenant, ds).columns && c.references.Some? ensures HasTable(s, names, c.references.value.entity) {
      assert c in e.columns || c == ScopeKey(tenant);
    }
  }

  lemma AddKeepsClosure(s: Spelling, d: DatabaseDesign, tenant: Tenant, ds: seq<Declaration>)
    requires IsClosed(s, d)
    ensures IsClosed(s, AddedTenancy(d, tenant, ds))
  {
    hide HasTable, WithKey, TableNames, TenantTable, ScopedNames;
    var after := AddedTenancy(d, tenant, ds);
    var names, more := TableNames(d.entities), TableNames(after.entities);
    AddedNames(d, tenant, ds);
    TenantTableName(tenant);
    ListedResolves(s, more, tenant.table);
    forall e | e in after.entities ensures KeysResolve(s, more, e.columns) {
      var i :| 0 <= i < |after.entities| && after.entities[i] == e;
      if i > 0 {
        var b := d.entities[i - 1];
        assert b in d.entities && e == WithKey(b, tenant, ds);
        MoreTables(s, names, more, b.columns);
        ScopedKeysResolve(s, more, b, tenant, ds);
      }
    }
    var scoped := ScopedNames(d.entities, tenant, ds);
    ScopedNamesAreTables(d.entities, tenant, ds);
    forall r | r in after.relations ensures EndsResolve(s, more, r) {
      if r in d.relations {
        MoreEnds(s, names, more, r);
      } else {
        var k :| 0 <= k < |scoped| && Ownerships(tenant, scoped)[k] == r;
        ListedResolves(s, more, scoped[k]);
      }
    }
  }

  lemma EnsureKeepsClosure(s: Spelling, d: DatabaseDesign, signals: Signals)
    requires IsClosed(s, d)
    ensures IsClosed(s, EnsuredTenancy(d, signals))
  {
    hide IsClosed, AddedTenancy, HasTenancy;
    if MustAdd(d, signals) {
      AddKeepsClosure(s, d, TenantEntityFor(signals), signals.declarations);
    }
  }

  // ---------- correcting shared records ----------

  lemma CorrectedNames(es: seq<Entity>, boundary: set<string>, ds: seq<Declaration>)
    ensures TableNames(CorrectedEntities(es, boundary, ds)) == TableNames(es)
  {
    hide IsSharedTable, DemotedColumns;
    var after := CorrectedEntities(es, boundary, ds);
    forall n ensures n in TableNames(after) <==> n in TableNames(es) {
      if n in TableNames(after) {
        var i :| 0 <= i < |after| && after[i].name == n;
        assert es[i].name == n;
      }
      if n in TableNames(es) {
        var i :| 0 <= i < |es| && es[i].name == n;
        assert after[i].name == n;
      }
    }
  }

  lemma CorrectedKeysResolve(s: Spelling, names: set<string>, e: Entity, boundary: set<string>, ds: seq<Declaration>)
    requires KeysResolve(s, names, e.columns)
    ensures KeysResolve(s, names, Corrected(e, boundary, ds).columns)
  {
    hide HasTable, IsSharedTable, NeedsDemotion;
    var after := Corrected(e, boundary, ds).columns;
    forall c | c in after && c.references.Some? ensures HasTable(s, names, c.references.value.entity) {
      var j :| 0 <= j < |after| && after[j] == c;
      assert e.columns[j] in e.columns && e.columns[j].references == c.references;
    }
  }

  lemma CorrectKeepsClosure(s: Spelling, d: DatabaseDesign, ds: seq<Declaration>, tenant: Tenant)
    requires IsClosed(s, d)
    ensures IsClosed(s, SharedCorrection(d, ds, tenant))
  {
    hide EndsResolve, KeysResolve, TableNames, Corrected, SharedNames, IsOwnership, Boundary;
    if ds != [] {
      var boundary := Boundary(d, tenant);
      var after := CorrectedDesign(d, boundary, ds);
      CorrectedNames(d.entities, boundary, ds);
      forall e | e in after.entities ensures KeysResolve(s, TableNames(d.entities), e.columns) {
        var i :| 0 <= i < |after.entities| && after.entities[i] == e;
        assert d.entities[i] in d.entities;
        CorrectedKeysResolve(s, TableNames(d.entities), d.entities[i], boundary, ds);
      }
    }
  }

  /** The whole tenancy pass keeps every foreign key and relation end resolving. */
  lemma ApplyKeepsClosure(s: Spelling, d: DatabaseDesign, signals: Signals)
    requires IsClosed(s, d)
    ensures IsClosed(s, AppliedTenancy(d, signals))
  {
    hide IsClosed, EnforceTenancy, EnsuredTenancy, SharedCorrection;
    if signals.multiTenant {
      EnsureKeepsClosure(s, d, signals);
      CorrectKeepsClosure(s, EnsuredTenancy(d, signals), signals.declarations, TenantEntityFor(signals));
    } else {
      EnforceKeepsClosure(s, d, signals);
    }
  }

  // ---------- removing log tables ----------

  lemma {:induction false} SurvivorsExact(es: seq<Entity>, doomed: seq<string>)
    ensures forall x :: x in Survivors(es, doomed) <==>
              exists e :: e in es && e.name !in doomed && x == e.(columns := SurvivingColumns(e.columns, doomed))
  {
    hide SurvivingColumns;
    if es != [] {
      SurvivorsExact(es[1..], doomed);
      assert es == [es[0]] + es[1..];
    }
  }

  /** A name that is not itself removed, although every table it can mean is. */
  predicate IsStranded(s: Spelling, es: seq<Entity>, doomed: seq<string>, name: string) {
    name !in doomed && forall e :: e in es && Spelled(s, e.name) == Spelled(s, name) ==> e.name in doomed
  }

  predicate StrandsKey(s: Spelling, d: DatabaseDesign, doomed: seq<string>) {
    exists e, c :: e in d.entities && e.name !in doomed && c in e.columns
                   && c.references.Some? && IsStranded(s, d.entities, doomed, c.references.value.entity)
  }

  predicate StrandsEnd(s: Spelling, d: DatabaseDesign, doomed: seq<string>) {
    exists r :: r in d.relations && r.from !in doomed && r.to !in doomed
                && (IsStranded(s, d.entities, doomed, r.from) || IsStranded(s, d.entities, doomed, r.to))
  }

  lemma SurvivingTableIff(s: Spelling, es: seq<Entity>, doomed: seq<string>, name: string)
    requires name !in doomed
    ensures HasTable(s, TableNames(Survivors(es, doomed)), name) <==> !IsStranded(s, es, doomed, name)
  {
    hide SurvivingColumns, Survivors, Spelled;
    var kept := Survivors(es, doomed);
    SurvivorsExact(es, doomed);
    if !IsStranded(s, es, doomed, name) {
      var e :| e in es && Spelled(s, e.name) == Spelled(s, name) && e.name !in doomed;
      assert e.(columns := SurvivingColumns(e.columns, doomed)) in kept;
      assert e.name in TableNames(kept);
    }
    if HasTable(s, TableNames(kept), name) {
      var n :| n in TableNames(kept) && Spelled(s, n) == Spelled(s, name);
      var x :| x in kept && x.name == n;
    }
  }

  lemma KeysCloseIff(s: Spelling, d: DatabaseDesign, doomed: seq<string>)
    ensures var kept := Survivors(d.entities, doomed);
            (forall x :: x in kept ==> KeysResolve(s, TableNames(kept), x.columns)) <==> !StrandsKey(s, d, doomed)
  {
    hide HasTable, Survivors, TableNames, IsStranded;
    var kept := Survivors(d.entities, doomed);
    var names := TableNames(kept);
    SurvivorsExact(d.entities, doomed);
    if StrandsKey(s, d, doomed) {
      var e, c :| e in d.entities && e.name !in doomed && c in e.columns
                  && c.references.Some? && IsStranded(s, d.entities, doomed, c.references.value.entity);
      StrandedStays(s, d.entities, doomed, c.references.value.entity);
      SurvivingTableIff(s, d.entities, doomed, c.references.value.entity);
      var x := e.(columns := SurvivingColumns(e.columns, doomed));
      assert x in kept && c in x.columns && !KeysResolve(s, names, x.columns);
    } else {
      forall x | x in kept ensures KeysResolve(s, names, x.columns) {
        var e :| e in d.entities && e.name !in doomed && x == e.(columns := SurvivingColumns(e.columns, doomed));
        forall c | c in x.columns && c.references.Some? ensures HasTable(s, names, c.references.value.entity) {
          assert c in e.columns && !Dangles(c, doomed);
          SurvivingTableIff(s, d.entities, doomed, c.references.value.entity);
        }
      }
    }
  }

  lemma StrandedStays(s: Spelling, es: seq<Entity>, doomed: seq<string>, name: string)
    requires IsStranded(s, es, doomed, name)
    ensures name !in doomed
  {
  }

  lemma EndsCloseIff(s: Spelling, d: DatabaseDesign, doomed: seq<string>)
    ensures var names := TableNames(Survivors(d.entities, doomed));
            (forall r :: r in SurvivingRelations(d.relations, doomed) ==> EndsResolve(s, names, r)) <==> !StrandsEnd(s, d, doomed)
  {
    hide HasTable, Survivors, TableNames, IsStranded;
    var names := TableNames(Survivors(d.entities, doomed));
    forall r | r in SurvivingRelations(d.relations, doomed)
      ensures EndsResolve(s, names, r)
              <==> !IsStranded(s, d.entities, doomed, r.from) && !IsStranded(s, d.entities, doomed, r.to)
    {
      SurvivingTableIff(s, d.entities, doomed, r.from);
      SurvivingTableIff(s, d.entities, doomed, r.to);
    }
    if StrandsEnd(s, d, doomed) {
      var r :| r in d.relations && r.from !in doomed && r.to !in doomed
               && (IsStranded(s, d.entities, doomed, r.from) || IsStranded(s, d.entities, doomed, r.to));
      assert r in SurvivingRelations(d.relations, doomed);
    }
  }

  /** However closely names must match: removal keeps a closed schema closed if and only if no key
      and no relation end that stays is stranded. */
  lemma StripKeepsClosureIff(s: Spelling, d: DatabaseDesign, demand: LogDemand)
    requires IsClosed(s, d)
    ensures var doomed := DoomedTables(d, demand);
            IsClosed(s, StrippedSupport(d, demand)) <==> !StrandsKey(s, d, doomed) && !StrandsEnd(s, d, doomed)
  {
    hide HasTable, Survivors, TableNames, Doomed, Candidates, IsStranded;
    var doomed := DoomedTables(d, demand);
    if doomed == [] {
      NobodyIsStranded(s, d);
    } else {
      var after := StrippedSupport(d, demand);
      assert after.entities == Survivors(d.entities, doomed) && after.relations == SurvivingRelations(d.relations, doomed);
      KeysCloseIff(s, d, doomed);
      EndsCloseIff(s, d, doomed);
    }
  }

  lemma NobodyIsStranded(s: Spelling, d: DatabaseDesign)
    requires IsClosed(s, d)
    ensures !StrandsKey(s, d, []) && !StrandsEnd(s, d, [])
  {
    hide Spelled, TableNames;
    var names := TableNames(d.entities);
    forall name | HasTable(s, names, name) ensures !IsStranded(s, d.entities, [], name) {
      TableIsThere(s, d.entities, name);
    }
    forall e, c | e in d.entities && c in e.columns && c.references.Some?
      ensures HasTable(s, names, c.references.value.entity)
    {
      assert KeysResolve(s, names, e.columns);
    }
    forall r | r in d.relations ensures HasTable(s, names, r.from) && HasTable(s, names, r.to) {
      assert EndsResolve(s, names, r);
    }
  }

  lemma TableIsThere(s: Spelling, es: seq<Entity>, name: string)
    requires HasTable(s, TableNames(es), name)
    ensures exists e :: e in es && Spelled(s, e.name) == Spelled(s, name)
  {
    hide Spelled;
    var n :| n in TableNames(es) && Spelled(s, n) == Spelled(s, name);
    var e :| e in es && e.name == n;
  }

  /** Removal keeps a closed schema closed, also when log tables reference each other in chains:
      a name spelled exactly is never stranded. */
  lemma StripKeepsClosure(d: DatabaseDesign, demand: LogDemand)
    requires IsClosed(Exact, d)
    ensures IsClosed(Exact, StrippedSupport(d, demand))
  {
    hide HasTable, TableNames, Doomed, Candidates, StrippedSupport;
    var doomed := DoomedTables(d, demand);
    StripKeepsClosureIff(Exact, d, demand);
    forall name | HasTable(Exact, TableNames(d.entities), name) ensures !IsStranded(Exact, d.entities, doomed, name) {
      TableIsThere(Exact, d.entities, name);
    }
    NoneStranded(Exact, d, doomed);
  }

  lemma NoneStranded(s: Spelling, d: DatabaseDesign, doomed: seq<string>)
    requires IsClosed(s, d)
    requires forall name :: HasTable(s, TableNames(d.entities), name) ==> !IsStranded(s, d.entities, doomed, name)
    ensures !StrandsKey(s, d, doomed) && !StrandsEnd(s, d, doomed)
  {
    hide HasTable, IsStranded, TableNames;
    forall e, c | e in d.entities && c in e.columns && c.references.Some?
      ensures HasTable(s, TableNames(d.entities), c.references.value.entity)
    {
      assert KeysResolve(s, TableNames(d.entities), e.columns);
    }
    forall r | r in d.relations ensures EndsResolve(s, TableNames(d.entities), r) {
    }
  }

  lemma {:induction false} CandidatesAreTrimmed(es: seq<Entity>, demand: LogDemand)
    ensures forall x :: x in Candidates(es, demand) ==> Trim(x) == x
  {
    hide IsUnrequested, Trim;
    if es != [] {
      CandidatesAreTrimmed(es[..|es| - 1], demand);
      TrimIdempotent(es[|es| - 1].name);
    }
  }

  /** Up to white space, what strands a name is a stray space in it: it spells a removed log
      otherwise than the log is named, and no other table is spelled like it. */
  lemma StrandedIsStray(d: DatabaseDesign, demand: LogDemand, name: string)
    requires HasTable(UpToSpace, TableNames(d.entities), name)
    ensures var doomed := DoomedTables(d, demand);
            IsStranded(UpToSpace, d.entities, doomed, name) <==>
              && Trim(name) != name && Trim(name) in doomed && name !in doomed
              && forall e :: e in d.entities && Trim(e.name) == Trim(name) ==> e.name == Trim(name)
  {
    hide Trim, Doomed, Candidates, TableNames;
    var doomed := DoomedTables(d, demand);
    CandidatesAreTrimmed(d.entities, demand);
    DoomedShrinks(Candidates(d.entities, demand), d.entities);
    TableIsThere(UpToSpace, d.entities, name);
  }

  /** References and relation ends are written without stray white space. */
  predicate IsTidy(d: DatabaseDesign) {
    && (forall e, c :: e in d.entities && c in e.columns && c.references.Some? ==> IsTrimmed(c.references.value.entity))
    && (forall r :: r in d.relations ==> IsTrimmed(r.from) && IsTrimmed(r.to))
  }

  /** In particular, a schema whose references and relation ends carry no white space at their ends
      stays closed, whatever the table names look like. */
  lemma StripKeepsTidyClosure(d: DatabaseDesign, demand: LogDemand)
    requires IsClosed(UpToSpace, d) && IsTidy(d)
    ensures IsClosed(UpToSpace, StrippedSupport(d, demand))
  {
    hide IsTrimmed, Trim, HasTable, StrippedSupport, TableNames, IsStranded, DoomedTables;
    var doomed, names := DoomedTables(d, demand), TableNames(d.entities);
    StripKeepsClosureIff(UpToSpace, d, demand);
    forall name | HasTable(UpToSpace, names, name) && IsTrimmed(name) ensures !IsStranded(UpToSpace, d.entities, doomed, name) {
      TrimOfTrimmed(name);
      StrandedIsStray(d, demand, name);
    }
    forall e, c | e in d.entities && c in e.columns && c.references.Some?
      ensures HasTable(UpToSpace, names, c.references.value.entity)
    {
      assert KeysResolve(UpToSpace, names, e.columns);
    }
    forall r | r in d.relations ensures EndsResolve(UpToSpace, names, r) {
    }
  }

  const STRAY := Entity("users", "", [LogLink("audit_logs ")])
  const AUDIT := Entity("audit_logs", "", [])
  const STRAY_DESIGN := DatabaseDesign("PostgreSQL", [STRAY, AUDIT], [])

  lemma StrayIsNotSeen()
    ensures DoomedTables(STRAY_DESIGN, LogDemand(false, false)) == ["audit_logs"]
  {
    hide Trim, IsUnrequested;
    var demand, es := LogDemand(false, false), STRAY_DESIGN.entities;
    PlainNames();
    SpacedName();
    assert es[..1] == [STRAY] && es[..1][..0] == [];
    assert Candidates([STRAY], demand) == [];
    var start := Candidates(es, demand);
    assert start == ["audit_logs"];
    assert STRAY.columns[..0] == [];
    assert Without(start, "audit_logs ") == start + Without(start[1..], "audit_logs ");
    assert SpareTargets(start, STRAY.columns) == SpareTarget(SpareTargets(start, []), STRAY.columns[0]) == start;
    assert Doomed(start, [STRAY]) == start;
  }

  lemma StrayIsLeft()
    ensures Survivors(STRAY_DESIGN.entities, ["audit_logs"]) == [STRAY]
  {
    hide Trim;
    var es, start := STRAY_DESIGN.entities, ["audit_logs"];
    assert |"audit_logs "| != |"audit_logs"| && |"users"| != |"audit_logs"|;
    CleanColumnsSurvive(STRAY.columns, start);
    assert es[0] == STRAY && STRAY.name !in start && AUDIT.name in start;
    assert es[1..] == [AUDIT] && es[1..][1..] == [];
    assert Survivors(es[1..], start) == [];
    assert Survivors(es, start) == [STRAY.(columns := STRAY.columns)] + [];
  }

  /** Up to white space it need not: a reference written with a stray space is not recognised
      as pointing at the removed log, and is left dangling. */
  lemma StripLeavesSpacedReference()
    ensures IsClosed(UpToSpace, STRAY_DESIGN)
    ensures !IsClosed(UpToSpace, StrippedSupport(STRAY_DESIGN, LogDemand(false, false)))
  {
    hide Trim, DoomedTables, Survivors;
    PlainNames();
    SpacedName();
    StrayIsNotSeen();
    StrayIsLeft();
    var es, left := STRAY_DESIGN.entities, [STRAY];
    assert STRAY in left && LogLink("audit_logs ") in STRAY.columns;
    assert AUDIT in es && AUDIT.name in TableNames(es);
    assert Spelled(UpToSpace, AUDIT.name) == Spelled(UpToSpace, "audit_logs ");
    assert |"users"| != |"audit_logs"|;
    assert !HasTable(UpToSpace, TableNames(left), "audit_logs ");
  }

  lemma SpacedName()
    ensures Trim("audit_logs ") == "audit_logs" && "audit_logs " != "audit_logs"
  {
    var s: string := "audit_logs ";
    assert TrimStart(s) == s;
    assert s[..|s| - 1] == "audit_logs";
  }
}
