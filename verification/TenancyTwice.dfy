/** Regenerating: when a second tenancy pass changes nothing. */
module TenancyTwice {
  import opened Text
  import opened Schema
  import opened Shared
  import opened SharedSafety
  import opened Tenancy
  import opened TenancySafety
  import opened OwnershipSafety

  // ---------- a multi-tenant project ----------

  /** Some table is still scoped after the correction: by a scoping key that is not renamed, or by a
      reference to a table named like a boundary. */
  predicate KeepsScoping(d: DatabaseDesign, boundary: set<string>, ds: seq<Declaration>) {
    exists i :: 0 <= i < |d.entities| && StaysScoped(d.entities[i], boundary, ds)
  }

  predicate StaysScoped(e: Entity, boundary: set<string>, ds: seq<Declaration>) {
    exists j :: 0 <= j < |e.columns| &&
      (IsLastingScope(e, e.columns[j], boundary, ds)
       || (e.columns[j].references.Some? && IsScopeTableName(Trim(e.columns[j].references.value.entity))))
  }

  lemma StaysScopedIff(e: Entity, boundary: set<string>, ds: seq<Declaration>)
    ensures IsAlreadyScoped(Corrected(e, boundary, ds)) <==> StaysScoped(e, boundary, ds)
  {
    hide Trim, IsScopeColumn, IsScopeTableName, IsLastingScope, Corrected;
    var after := Corrected(e, boundary, ds);
    CorrectedShape(e, boundary, ds);
    forall j | 0 <= j < |e.columns|
      ensures IsScopeColumn(after.columns[j].name) <==> IsLastingScope(e, e.columns[j], boundary, ds)
      ensures after.columns[j].references == e.columns[j].references
    {
      LastingColumn(e, boundary, ds, j);
    }
  }

  lemma CorrectedHasTenancyIff(d: DatabaseDesign, tenant: Tenant, ds: seq<Declaration>)
    ensures HasTenancy(SharedCorrection(d, ds, tenant)) <==> KeepsScoping(d, Boundary(d, tenant), ds)
  {
    hide HasTenancy, IsAlreadyScoped, StaysScoped, Corrected, Boundary;
    var boundary, after := Boundary(d, tenant), SharedCorrection(d, ds, tenant);
    HasTenancyIffScoped(after);
    forall i | 0 <= i < |d.entities| ensures IsAlreadyScoped(after.entities[i]) <==> StaysScoped(d.entities[i], boundary, ds) {
      if ds == [] {
        NoCorrection(d.entities[i], boundary);
      }
      StaysScopedIff(d.entities[i], boundary, ds);
    }
  }

  lemma NoCorrection(e: Entity, boundary: set<string>)
    ensures Corrected(e, boundary, []) == e
  {
    hide Fold, Trim;
    NothingIsDeclared();
  }

  /** What the first pass must meet, read off the schema that went in. */
  predicate StaysReconciled(d: DatabaseDesign, signals: Signals) {
    var tenant, ds := TenantEntityFor(signals), signals.declarations;
    if MustAdd(d, signals) then OpenTables(d.entities, ds) != []
    else KeepsScoping(d, Boundary(d, tenant), ds) && !HasLateCorrection(d, ds, tenant)
  }

  lemma AddedBoundaryLasts(d: DatabaseDesign, signals: Signals, n: string)
    requires MustAdd(d, signals) && IsBoundary(n, EnsuredTenancy(d, signals), TenantEntityFor(signals))
    ensures IsLastingBoundary(n, EnsuredTenancy(d, signals), TenantEntityFor(signals), signals.declarations)
  {
    hide Trim, Lower, HasTenancy, IsScopeColumn, TenantEntityFor, TenantTable, GetsKey, IsScopeTableName, IsLastingScope, Boundary;
    var tenant, after := TenantEntityFor(signals), EnsuredTenancy(d, signals);
    HasTenancyIffScoped(d);
    if i :| 0 <= i < |after.entities| && ScopesTo(after.entities[i], n) {
      if i == 0 {
        TenantTableIsUnscoped(tenant);
        assert false;
      } else {
        AddedScopes(d.entities[i - 1], tenant, signals.declarations, n);
      }
    }
  }

  lemma AdditionIsNeverLate(d: DatabaseDesign, signals: Signals)
    requires MustAdd(d, signals)
    ensures !HasLateCorrection(EnsuredTenancy(d, signals), signals.declarations, TenantEntityFor(signals))
  {
    hide HasTenancy, TenantEntityFor, EnsuredTenancy, IsBoundary, IsLastingBoundary, IsOwned, Fold, DeclarationFor, Trim, Boundary;
    var tenant, after := TenantEntityFor(signals), EnsuredTenancy(d, signals);
    forall n | n in Boundary(after, tenant) ensures n in LastingBoundary(after, tenant, signals.declarations) {
      AddedBoundaryLasts(d, signals, n);
    }
  }

  /** One whole pass, then another: nothing changes if and only if the result still carries tenancy
      and the correction itself is settled. */
  lemma SecondPassIff(scoped: DatabaseDesign, signals: Signals)
    requires signals.multiTenant
    ensures var tenant, ds := TenantEntityFor(signals), signals.declarations;
            var after := SharedCorrection(scoped, ds, tenant);
            AppliedTenancy(after, signals) == after <==> HasTenancy(after) && !HasLateCorrection(scoped, ds, tenant)
  {
    hide HasTenancy, TenantEntityFor, HasLateCorrection, Boundary, CorrectedDesign, TenantTable, WithKeys, ScopedNames;
    var tenant, ds := TenantEntityFor(signals), signals.declarations;
    var after := SharedCorrection(scoped, ds, tenant);
    RerunIsStableIff(scoped, ds, tenant);
    if !HasTenancy(after) {
      CorrectionKeepsCount(EnsuredTenancy(after, signals), ds, tenant);
      assert |AppliedTenancy(after, signals).entities| == |after.entities| + 1;
    }
  }

  lemma CorrectionKeepsCount(d: DatabaseDesign, ds: seq<Declaration>, tenant: Tenant)
    ensures |SharedCorrection(d, ds, tenant).entities| == |d.entities|
  {
    hide Boundary, SharedNames, KeptRelations;
  }

  /** In a multi-tenant project a second pass changes nothing if and only if: after an addition,
      some table received a key; and without one, the correction leaves some table scoped and no
      table described as shared stops being a boundary while something still owns it. */
  lemma MultiTenantTwiceIff(d: DatabaseDesign, signals: Signals)
    requires signals.multiTenant
    ensures AppliedTenancy(AppliedTenancy(d, signals), signals) == AppliedTenancy(d, signals) <==> StaysReconciled(d, signals)
  {
    hide HasTenancy, TenantEntityFor, HasLateCorrection, KeepsScoping, Boundary, SharedCorrection, AddedTenancy, OpenTables;
    var tenant, ds, scoped := TenantEntityFor(signals), signals.declarations, EnsuredTenancy(d, signals);
    SecondPassIff(scoped, signals);
    if MustAdd(d, signals) {
      AdditionNeedsNoDemotion(d, signals);
      SameTablesSameTenancy(SharedCorrection(scoped, ds, tenant), scoped);
      AddedHasTenancyIff(d, signals);
      AdditionIsNeverLate(d, signals);
    } else {
      CorrectedHasTenancyIff(d, tenant, ds);
    }
  }

  lemma SameTablesSameTenancy(a: DatabaseDesign, b: DatabaseDesign)
    requires a.entities == b.entities
    ensures HasTenancy(a) <==> HasTenancy(b)
  {
    hide IsAlreadyScoped, HasTenancy;
    HasTenancyIffScoped(a);
    HasTenancyIffScoped(b);
  }

  // ---------- a single business ----------

  /** A key to a surviving table still scopes; a bare scoping column is stripped. */
  predicate StillScopesBy(e: Entity, name: string, gone: set<string>) {
    exists j :: 0 <= j < |e.columns| && e.columns[j].references.Some? && Fold(e.columns[j].references.value.entity) !in gone
                && (IsStripColumn(e.columns[j].name) || References(e.columns[j], name))
  }

  function OthersLeft(es: seq<Entity>, name: string, gone: set<string>): nat {
    if es == [] then 0
    else OthersLeft(es[1..], name, gone) + (if Fold(es[0].name) !in gone && Fold(es[0].name) != name then 1 else 0)
  }

  function ScopingLeft(es: seq<Entity>, name: string, gone: set<string>): nat {
    if es == [] then 0
    else
      ScopingLeft(es[1..], name, gone)
      + (if Fold(es[0].name) !in gone && Fold(es[0].name) != name && StillScopesBy(es[0], name, gone) then 1 else 0)
  }

  /** A scope-named table that stays, and that most of the other tables that stay hang off. */
  predicate IsPromoted(e: Entity, es: seq<Entity>, gone: set<string>) {
    var name := Fold(e.name);
    && name !in gone && IsScopeTableName(Trim(e.name))
    && OthersLeft(es, name, gone) > 0 && 2 * ScopingLeft(es, name, gone) > OthersLeft(es, name, gone)
  }

  predicate HasPromotion(d: DatabaseDesign) {
    var gone := StrippedTables(d);
    gone != {} && exists i :: 0 <= i < |d.entities| && IsPromoted(d.entities[i], d.entities, gone)
  }

  lemma KeptScopesIff(e: Entity, name: string, gone: set<string>)
    ensures ScopesBy(e.(columns := KeptColumns(e.columns, gone)), name) <==> StillScopesBy(e, name, gone)
  {
    hide Fold, IsStripColumn;
    var cs, kept := e.columns, KeptColumns(e.columns, gone);
    if i :| 0 <= i < |kept| && (IsStripColumn(kept[i].name) || References(kept[i], name)) {
      assert kept[i] in kept;
      var j :| 0 <= j < |cs| && cs[j] == kept[i];
    }
    if j :| 0 <= j < |cs| && cs[j].references.Some? && Fold(cs[j].references.value.entity) !in gone
            && (IsStripColumn(cs[j].name) || References(cs[j], name)) {
      assert cs[j] in kept;
      var i :| 0 <= i < |kept| && kept[i] == cs[j];
    }
  }

  lemma {:induction false} CountsLeft(es: seq<Entity>, name: string, gone: set<string>)
    ensures CountOthers(KeptEntities(es, gone), name) == OthersLeft(es, name, gone)
    ensures CountScoping(KeptEntities(es, gone), name) == ScopingLeft(es, name, gone)
  {
    hide Fold, ScopesBy, StillScopesBy, KeptColumns;
    if es != [] {
      CountsLeft(es[1..], name, gone);
      KeptScopesIff(es[0], name, gone);
      var rest, kept := KeptEntities(es[1..], gone), es[0].(columns := KeptColumns(es[0].columns, gone));
      assert ([kept] + rest)[1..] == rest;
      assert [] + rest == rest;
    }
  }

  lemma PromotedIff(d: DatabaseDesign, signals: Signals, e: Entity)
    requires !signals.multiTenant && StrippedTables(d) != {} && Fold(e.name) !in StrippedTables(d)
    ensures IsStrippable(e, EnforceTenancy(d, signals)) <==> IsPromoted(e, d.entities, StrippedTables(d))
  {
    hide Trim, Fold, StrippedTables, KeptEntities, CountOthers, CountScoping, OthersLeft, ScopingLeft, IsScopeTableName;
    CountsLeft(d.entities, Fold(e.name), StrippedTables(d));
  }

  lemma {:induction false} KeptIsListed(es: seq<Entity>, gone: set<string>, x: Entity) returns (i: nat)
    requires x in KeptEntities(es, gone)
    ensures i < |es| && Fold(es[i].name) !in gone && x == es[i].(columns := KeptColumns(es[i].columns, gone))
  {
    hide Fold, KeptColumns;
    if x in KeptEntities(es[1..], gone) {
      var k := KeptIsListed(es[1..], gone, x);
      i := k + 1;
    } else {
      i := 0;
    }
  }

  lemma StrippableByName(a: Entity, b: Entity, d: DatabaseDesign)
    requires a.name == b.name
    ensures IsStrippable(a, d) <==> IsStrippable(b, d)
  {
    hide CountOthers, CountScoping, Trim, Fold;
  }

  /** A second strip finds a table to remove exactly when the first one promoted one. */
  lemma SecondStripIff(d: DatabaseDesign, signals: Signals)
    requires !signals.multiTenant
    ensures StrippedTables(EnforceTenancy(d, signals)) == {} <==> !HasPromotion(d)
  {
    hide IsStrippable, IsPromoted, Fold, KeptColumns, KeptEntities;
    var gone, after := StrippedTables(d), EnforceTenancy(d, signals);
    if gone != {} {
      if i :| 0 <= i < |d.entities| && IsPromoted(d.entities[i], d.entities, gone) {
        PromotedStays(d.entities[i], d.entities, gone);
        PromotedIff(d, signals, d.entities[i]);
        KeptInPlace(d.entities, gone, i);
        var x := d.entities[i].(columns := KeptColumns(d.entities[i].columns, gone));
        var k :| 0 <= k < |after.entities| && after.entities[k] == x;
        StrippableByName(x, d.entities[i], after);
        assert Fold(after.entities[k].name) in StrippedTables(after);
      }
      if StrippedTables(after) != {} {
        var k :| 0 <= k < |after.entities| && IsStrippable(after.entities[k], after);
        var i := KeptIsListed(d.entities, gone, after.entities[k]);
        StrippableByName(after.entities[k], d.entities[i], after);
        PromotedIff(d, signals, d.entities[i]);
      }
    }
  }

  lemma PromotedStays(e: Entity, es: seq<Entity>, gone: set<string>)
    requires IsPromoted(e, es, gone)
    ensures Fold(e.name) !in gone
  {
    hide Fold, Trim, OthersLeft, ScopingLeft;
  }

  lemma {:induction false} RemovalShortens(es: seq<Entity>, gone: set<string>)
    ensures |KeptEntities(es, gone)| <= |es|
    ensures (exists i :: 0 <= i < |es| && Fold(es[i].name) in gone) ==> |KeptEntities(es, gone)| < |es|
  {
    hide Fold, KeptColumns;
    if es != [] {
      RemovalShortens(es[1..], gone);
      if i :| 0 <= i < |es| && Fold(es[i].name) in gone {
        if i > 0 { assert es[1..][i - 1] == es[i]; }
      }
    }
  }

  lemma StripChangesIff(d: DatabaseDesign, signals: Signals)
    requires !signals.multiTenant
    ensures EnforceTenancy(d, signals) == d <==> StrippedTables(d) == {}
  {
    hide IsStrippable, Fold, KeptEntities;
    var gone := StrippedTables(d);
    if gone != {} {
      var i :| 0 <= i < |d.entities| && IsStrippable(d.entities[i], d);
      assert Fold(d.entities[i].name) in gone;
      RemovalShortens(d.entities, gone);
    }
  }

  /** For a single business a second pass changes nothing if and only if the first one left no
      scope-named table that most of what stays hangs off. */
  lemma SingleBusinessTwiceIff(d: DatabaseDesign, signals: Signals)
    requires !signals.multiTenant
    ensures AppliedTenancy(AppliedTenancy(d, signals), signals) == AppliedTenancy(d, signals) <==> !HasPromotion(d)
  {
    hide EnforceTenancy, HasPromotion;
    SecondStripIff(d, signals);
    StripChangesIff(EnforceTenancy(d, signals), signals);
  }

  /** The tenancy pass is a fixed point of itself exactly then. */
  lemma AppliedTwiceIff(d: DatabaseDesign, signals: Signals)
    ensures AppliedTenancy(AppliedTenancy(d, signals), signals) == AppliedTenancy(d, signals)
            <==> if signals.multiTenant then StaysReconciled(d, signals) else !HasPromotion(d)
  {
    hide AppliedTenancy, StaysReconciled, HasPromotion;
    if signals.multiTenant {
      MultiTenantTwiceIff(d, signals);
    } else {
      SingleBusinessTwiceIff(d, signals);
    }
  }
}
