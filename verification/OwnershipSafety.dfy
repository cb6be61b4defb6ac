/** The whole tenancy pass, from the design that comes in to the one that is stored. */
module OwnershipSafety {
  import opened Text
  import opened Schema
  import opened Shared
  import opened SharedSafety
  import opened Tenancy
  import opened TenancySafety

  // ---------- white space around a table name never changes what it is about ----------

  lemma {:induction false} WordsSkipFront(s: string)
    ensures Words(TrimStart(s)) == Words(s)
  {
    if s != "" && IsSpace(s[0]) {
      WordsSkipFront(s[1..]);
    }
  }

  lemma {:induction false} LettersSkipEnd(s: string, c: char)
    requires !IsLetter(c)
    ensures LeadingLetters(s + [c]) == LeadingLetters(s)
  {
    var t := s + [c];
    if s != "" {
      assert t[1..] == s[1..] + [c];
      LettersSkipEnd(s[1..], c);
    } else {
      assert t[0] == c;
    }
  }

  lemma {:induction false} WordsSkipLast(s: string, c: char)
    requires !IsLetter(c)
    ensures Words(s + [c]) == Words(s)
    decreases |s|
  {
    var t := s + [c];
    if s == "" {
      assert t[1..] == "";
    } else if !IsLetter(s[0]) {
      assert t[1..] == s[1..] + [c];
      WordsSkipLast(s[1..], c);
    } else {
      LettersSkipEnd(s, c);
      var n := |LeadingLetters(s)|;
      assert t[n..] == s[n..] + [c];
      WordsSkipLast(s[n..], c);
    }
  }

  lemma {:induction false} WordsSkipEnd(s: string)
    ensures Words(TrimEnd(s)) == Words(s)
  {
    hide Words;
    if s != "" && IsSpace(s[|s| - 1]) {
      WordsSkipEnd(s[..|s| - 1]);
      WordsSkipLast(s[..|s| - 1], s[|s| - 1]);
      assert s[..|s| - 1] + [s[|s| - 1]] == s;
    }
  }

  lemma TrimKeepsDeclaration(name: string, ds: seq<Declaration>)
    ensures DeclarationFor(Trim(name), ds) == DeclarationFor(name, ds)
  {
    hide Words, TrimStart, TrimEnd, Lower, FirstNaming, LongVariants, Heads;
    LowerTrim(name);
    WordsSkipFront(Lower(name));
    WordsSkipEnd(TrimStart(Lower(name)));
  }

  // ---------- adding the boundary never has to be corrected ----------

  /** After the addition, only scope tables are boundaries. */
  lemma AddedBoundary(d: DatabaseDesign, signals: Signals, n: string)
    requires MustAdd(d, signals)
    requires IsBoundary(n, EnsuredTenancy(d, signals), TenantEntityFor(signals))
    ensures n in SCOPE_TABLES
  {
    hide Trim, Lower, HasTenancy, IsScopeColumn, TenantEntityFor, TenantTable, GetsKey, IsScopeTableName;
    var tenant, after := TenantEntityFor(signals), EnsuredTenancy(d, signals);
    TenantTablesAreScopeTables(signals);
    HasTenancyIffScoped(d);
    ScopeNameFolds(tenant.table);
    if exists i :: 0 <= i < |after.entities| && IsScopeTableName(Trim(after.entities[i].name)) && Fold(after.entities[i].name) == n {
      var i :| 0 <= i < |after.entities| && IsScopeTableName(Trim(after.entities[i].name)) && Fold(after.entities[i].name) == n;
      ScopeNameFolds(after.entities[i].name);
    } else if exists i :: 0 <= i < |after.entities| && ScopesTo(after.entities[i], n) {
      var i :| 0 <= i < |after.entities| && ScopesTo(after.entities[i], n);
      if i == 0 {
        TenantTableIsUnscoped(tenant);
        assert false;
      } else {
        AddedScopes(d.entities[i - 1], tenant, signals.declarations, n);
      }
    }
  }

  lemma ScopeNameFolds(name: string)
    requires IsScopeTableName(Trim(name))
    ensures Fold(name) in SCOPE_TABLES
  {
    hide Trim, Lower;
  }

  lemma AddedScopes(e: Entity, tenant: Tenant, ds: seq<Declaration>, n: string)
    requires !IsAlreadyScoped(e) && ScopesTo(WithKey(e, tenant, ds), n)
    ensures n == Fold(tenant.table)
  {
    hide Fold, Trim, IsScopeColumn, GetsKey, IsScopeTableName;
    var w := WithKey(e, tenant, ds);
    var j :| 0 <= j < |w.columns| && IsScopeColumn(w.columns[j].name)
             && w.columns[j].references.Some? && Fold(w.columns[j].references.value.entity) == n;
    assert w.columns[j] in e.columns || w.columns[j] == ScopeKey(tenant);
  }

  lemma UnscopedHasNoOwner(e: Entity, boundary: set<string>)
    requires !IsAlreadyScoped(e) && forall n :: n in boundary ==> n in SCOPE_TABLES
    ensures DemotedColumns(e.columns, boundary) == e.columns
  {
    hide Trim, Lower, IsScopeColumn;
    forall i | 0 <= i < |e.columns| ensures DemotedColumns(e.columns, boundary)[i] == e.columns[i] {
      var c := e.columns[i];
      if IsOwnershipKey(c, boundary) && c.references.Some? {
        assert IsScopeTableName(Trim(c.references.value.entity));
      }
    }
  }

  lemma AddedIsSettled(e: Entity, tenant: Tenant, boundary: set<string>, ds: seq<Declaration>)
    requires !IsAlreadyScoped(e) && forall n :: n in boundary ==> n in SCOPE_TABLES
    ensures Corrected(WithKey(e, tenant, ds), boundary, ds) == WithKey(e, tenant, ds)
  {
    hide IsAlreadyScoped, DeclarationFor, Fold, Trim, DemotedColumns, IsPureJunction, HasColumn, Scoped;
    TrimKeepsDeclaration(e.name, ds);
    UnscopedHasNoOwner(e, boundary);
    ScopedKeepsName(e, tenant);
  }

  lemma ScopedKeepsName(e: Entity, tenant: Tenant)
    ensures Scoped(e, tenant).name == e.name
  {
  }

  lemma AllAreSettled(es: seq<Entity>, tenant: Tenant, boundary: set<string>, ds: seq<Declaration>)
    requires forall i :: 0 <= i < |es| ==> !IsAlreadyScoped(es[i])
    requires forall n :: n in boundary ==> n in SCOPE_TABLES
    ensures var added := [TenantTable(tenant)] + WithKeys(es, tenant, ds); CorrectedEntities(added, boundary, ds) == added
  {
    hide IsAlreadyScoped, TenantTable, Corrected, WithKey, SCOPE_TABLES;
    var added := [TenantTable(tenant)] + WithKeys(es, tenant, ds);
    TenantTableIsUnscoped(tenant);
    UnscopedIsSettled(TenantTable(tenant), boundary, ds);
    forall i | 0 <= i < |added| ensures Corrected(added[i], boundary, ds) == added[i] {
      if i > 0 {
        AddedIsSettled(es[i - 1], tenant, boundary, ds);
      }
    }
  }

  /** A freshly added boundary never puts an owner on a shared record: after the addition the
      correction finds no table to change. */
  lemma AdditionNeedsNoDemotion(d: DatabaseDesign, signals: Signals)
    requires MustAdd(d, signals)
    ensures AppliedTenancy(d, signals).entities == EnsuredTenancy(d, signals).entities
  {
    hide HasTenancy, TenantEntityFor, IsAlreadyScoped, TenantTable, WithKeys, KeptRelations, SharedNames, IsBoundary, CorrectedEntities, SCOPE_TABLES;
    var tenant, ds, after := TenantEntityFor(signals), signals.declarations, EnsuredTenancy(d, signals);
    if ds != [] {
      var boundary := Boundary(after, tenant);
      forall n | n in boundary ensures n in SCOPE_TABLES {
        AddedBoundary(d, signals, n);
      }
      HasTenancyIffScoped(d);
      AllAreSettled(d.entities, tenant, boundary, ds);
    }
  }

  lemma UnscopedIsSettled(e: Entity, boundary: set<string>, ds: seq<Declaration>)
    requires !IsAlreadyScoped(e) && forall n :: n in boundary ==> n in SCOPE_TABLES
    ensures Corrected(e, boundary, ds) == e
  {
    hide IsAlreadyScoped, IsSharedTable, DemotedColumns;
    UnscopedHasNoOwner(e, boundary);
  }

  // ---------- end to end ----------

  /** The table as the multi-tenant pass leaves it is owned by nobody. */
  predicate IsUnowned(e: Entity, boundary: set<string>) {
    forall j :: 0 <= j < |e.columns| && IsOwnershipKey(e.columns[j], boundary) ==> IsReferenceOnly(e.columns[j])
  }

  /** In a multi-tenant project, a table described as shared and not itself a boundary ends up
      without any owner: every ownership key on it is a nullable, non-unique, renamed reference, and
      no boundary table "has many" of it. Every other table comes out exactly as the addition left
      it; so among the tables described as shared, a boundary alone can keep an owner, and does
      exactly when it had one. */
  lemma SharedTablesAreUnowned(d: DatabaseDesign, signals: Signals, i: nat)
    requires signals.multiTenant && i < |EnsuredTenancy(d, signals).entities|
    ensures var scoped, after := EnsuredTenancy(d, signals), AppliedTenancy(d, signals);
            var boundary := Boundary(scoped, TenantEntityFor(signals));
            var name := scoped.entities[i].name;
            && |after.entities| == |scoped.entities| && after.entities[i].name == name
            && (if IsSharedTable(name, boundary, signals.declarations) then
                  && IsUnowned(after.entities[i], boundary)
                  && (forall r :: r in after.relations && Fold(r.from) in boundary && Fold(r.to) == Fold(name) ==> r.kind == ManyToMany)
                else after.entities[i] == scoped.entities[i])
            && (forall r :: r in after.relations ==> r in scoped.relations)
            && (DeclarationFor(Trim(name), signals.declarations).Some? ==>
                  (IsUnowned(after.entities[i], boundary) <==> Fold(name) !in boundary || IsUnowned(scoped.entities[i], boundary)))
  {
    hide EnsuredTenancy, TenantEntityFor, DeclarationFor, Fold, Trim, Demoted, IsOwnershipKey, IsReferenceOnly, KeptRelations, SharedNames, IsBoundary;
    var scoped, ds := EnsuredTenancy(d, signals), signals.declarations;
    var boundary := Boundary(scoped, TenantEntityFor(signals));
    if ds == [] {
      NoDeclarations(Trim(scoped.entities[i].name));
    } else {
      forall r | r in AppliedTenancy(d, signals).relations
        ensures r in scoped.relations
        ensures IsSharedTable(scoped.entities[i].name, boundary, ds) && Fold(r.from) in boundary && Fold(r.to) == Fold(scoped.entities[i].name)
                ==> r.kind == ManyToMany
      {
        NoOwnershipRelation(scoped, boundary, ds, r);
      }
      if IsSharedTable(scoped.entities[i].name, boundary, ds) {
        forall j | 0 <= j < |scoped.entities[i].columns|
          ensures var c := CorrectedDesign(scoped, boundary, ds).entities[i].columns[j];
                  IsOwnershipKey(c, boundary) ==> IsReferenceOnly(c)
        {
          SharedKeysAreReferenceOnly(scoped, boundary, ds, i, j);
        }
      }
    }
  }

  lemma NoDeclarations(name: string)
    ensures DeclarationFor(name, []).None?
  {
  }

  // ---------- stripping takes tenant scoping and nothing else ----------

  lemma {:induction false} KeptNone(cs: seq<Column>, gone: set<string>)
    requires forall c :: c in cs ==> !IsStripped(c, gone)
    ensures KeptColumns(cs, gone) == cs
  {
    hide IsStripped;
    if cs != [] {
      assert cs[0] in cs;
      KeptNone(cs[1..], gone);
    }
  }

  lemma {:induction false} KeptInPlace(es: seq<Entity>, gone: set<string>, i: nat)
    requires i < |es| && Fold(es[i].name) !in gone
    ensures es[i].(columns := KeptColumns(es[i].columns, gone)) in KeptEntities(es, gone)
  {
    hide Fold, KeptColumns;
    if i > 0 {
      KeptInPlace(es[1..], gone, i - 1);
    }
  }

  /** For a single business: only a scope-named table that most other tables hang off goes. Every
      other table stays, loses exactly its scoping columns, and keeps each key to a surviving
      table whatever that key is called; a table without such columns stays identical. */
  lemma StrippingIsNarrow(d: DatabaseDesign, signals: Signals, i: nat)
    requires i < |d.entities| && !signals.multiTenant
    ensures var e, gone, after := d.entities[i], StrippedTables(d), EnforceTenancy(d, signals);
            && (Fold(e.name) in gone ==> exists k :: 0 <= k < |d.entities| && IsStrippable(d.entities[k], d)
                                                      && Fold(d.entities[k].name) == Fold(e.name))
            && (Fold(e.name) !in gone ==>
                  exists kept :: kept in after.entities && KeepsAllButScoping(e, kept, gone))
  {
    hide Fold, IsStrippable, KeptColumns, IsStripped, KeptEntities;
    var e, gone := d.entities[i], StrippedTables(d);
    if Fold(e.name) !in gone {
      if gone == {} {
        UnstrippedIsSame(e);
        assert KeepsAllButScoping(e, e, gone);
      } else {
        KeptInPlace(d.entities, gone, i);
        KeptKeepsAllButScoping(e, gone);
      }
    }
  }

  /** The same table without the columns that scope it to a removed tenant. */
  predicate KeepsAllButScoping(e: Entity, kept: Entity, gone: set<string>) {
    && kept == e.(columns := kept.columns)
    && (forall c :: c in e.columns && c.references.Some? && Fold(c.references.value.entity) !in gone ==> c in kept.columns)
    && (forall c :: c in e.columns && c.references.None? && !IsStripColumn(c.name) ==> c in kept.columns)
    && (forall c :: c in kept.columns ==> c in e.columns)
    && ((forall c :: c in e.columns ==> !IsStripped(c, gone)) ==> kept == e)
  }

  lemma UnstrippedIsSame(e: Entity)
    ensures KeepsAllButScoping(e, e, {})
  {
    hide Fold, IsStripColumn;
  }

  lemma KeptKeepsAllButScoping(e: Entity, gone: set<string>)
    ensures KeepsAllButScoping(e, e.(columns := KeptColumns(e.columns, gone)), gone)
  {
    hide Fold, IsStripColumn;
    if forall c :: c in e.columns ==> !IsStripped(c, gone) {
      KeptNone(e.columns, gone);
    }
  }
}
