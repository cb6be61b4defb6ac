/** What the shared-record correction guarantees. */
module SharedSafety {
  import opened Text
  import opened Collections
  import opened Schema
  import opened Shared

  // ---------- safety ----------

  lemma DemotedIsReferenceOnly(c: Column, boundary: set<string>)
    ensures var r := Demoted(c, boundary);
            && (IsOwnershipKey(r, boundary) ==> IsReferenceOnly(r))
            && Demoted(r, boundary) == r
            && r == c.(name := r.name, nullable := r.nullable, unique := r.unique)
            && (NeedsDemotion(c, boundary) ==> IsReferenceOnly(r))
  {
    hide Fold, IsScopeColumn;
  }

  /** In the result, every ownership key of a shared table is nullable, not unique and renamed. */
  lemma SharedKeysAreReferenceOnly(d: DatabaseDesign, boundary: set<string>, ds: seq<Declaration>, i: nat, j: nat)
    requires i < |d.entities| && IsSharedTable(d.entities[i].name, boundary, ds) && j < |d.entities[i].columns|
    ensures var c := CorrectedDesign(d, boundary, ds).entities[i].columns[j];
            IsOwnershipKey(c, boundary) ==> IsReferenceOnly(c)
  {
    hide IsOwnershipKey, IsReferenceOnly, Demoted, IsSharedTable;
    DemotedIsReferenceOnly(d.entities[i].columns[j], boundary);
  }

  /** No boundary table "has many" of a shared table any more; every other relation is kept. */
  lemma NoOwnershipRelation(d: DatabaseDesign, boundary: set<string>, ds: seq<Declaration>, r: Relation)
    ensures r in CorrectedDesign(d, boundary, ds).relations <==>
              r in d.relations
              && !(Fold(r.from) in boundary && r.kind != ManyToMany
                   && exists i :: 0 <= i < |d.entities| && IsSharedTable(d.entities[i].name, boundary, ds)
                                  && Fold(d.entities[i].name) == Fold(r.to))
  {
    hide IsSharedTable, Fold;
    SharedNamesExact(d.entities, boundary, ds);
  }

  /** The correction touches shared tables only, there ownership keys only, and of those only
      the name and the two flags. */
  lemma CorrectionIsNarrow(d: DatabaseDesign, boundary: set<string>, ds: seq<Declaration>, i: nat)
    requires i < |d.entities|
    ensures var before, after := d.entities[i], CorrectedDesign(d, boundary, ds).entities[i];
            && (!IsSharedTable(before.name, boundary, ds) ==> after == before)
            && after == before.(columns := after.columns) && |after.columns| == |before.columns|
            && (forall j :: 0 <= j < |before.columns| ==>
                  var b, a := before.columns[j], after.columns[j];
                  && a == b.(name := a.name, nullable := a.nullable, unique := a.unique)
                  && (!NeedsDemotion(b, boundary) ==> a == b))
  {
    hide IsOwnershipKey, IsReferenceOnly, IsSharedTable;
  }

  // ---------- running it again ----------

  lemma {:induction false} KeptTwice(rs: seq<Relation>, boundary: set<string>, shared: set<string>)
    ensures KeptRelations(KeptRelations(rs, boundary, shared), boundary, shared) == KeptRelations(rs, boundary, shared)
  {
    hide IsOwnership;
    if rs != [] {
      var front := KeptRelations(rs[..|rs| - 1], boundary, shared);
      KeptTwice(rs[..|rs| - 1], boundary, shared);
      var all := KeptRelations(rs, boundary, shared);
      if all != front {
        assert all[..|all| - 1] == front;
      }
    }
  }

  lemma {:induction false} SharedNamesByName(es: seq<Entity>, fs: seq<Entity>, boundary: set<string>, ds: seq<Declaration>)
    requires |es| == |fs| && forall i :: 0 <= i < |es| ==> es[i].name == fs[i].name
    ensures SharedNames(es, boundary, ds) == SharedNames(fs, boundary, ds)
  {
    hide IsSharedTable, Fold;
    if es != [] {
      SharedNamesByName(es[..|es| - 1], fs[..|fs| - 1], boundary, ds);
    }
  }

  lemma CorrectedTwice(e: Entity, boundary: set<string>, ds: seq<Declaration>)
    ensures Corrected(Corrected(e, boundary, ds), boundary, ds) == Corrected(e, boundary, ds)
  {
    hide IsSharedTable, Demoted;
    var once := DemotedColumns(e.columns, boundary);
    forall i | 0 <= i < |once| ensures DemotedColumns(once, boundary)[i] == once[i] {
      DemotedIsReferenceOnly(e.columns[i], boundary);
    }
    assert DemotedColumns(once, boundary) == once;
  }

  /** With the same boundary, a second run leaves the schema as it is. */
  lemma CorrectingTwice(d: DatabaseDesign, boundary: set<string>, ds: seq<Declaration>)
    ensures var once := CorrectedDesign(d, boundary, ds); CorrectedDesign(once, boundary, ds) == once
  {
    hide IsSharedTable, DemotedColumns;
    var once := CorrectedDesign(d, boundary, ds);
    forall i | 0 <= i < |d.entities| ensures CorrectedEntities(once.entities, boundary, ds)[i] == once.entities[i] {
      CorrectedTwice(d.entities[i], boundary, ds);
    }
    assert CorrectedEntities(once.entities, boundary, ds) == once.entities;
    SharedNamesByName(once.entities, d.entities, boundary, ds);
    KeptTwice(d.relations, boundary, SharedNames(d.entities, boundary, ds));
  }

  /** The boundary read off the corrected schema never grows: renamed keys stop naming one. */
  lemma BoundaryShrinks(d: DatabaseDesign, tenant: Tenant, ds: seq<Declaration>, n: string)
    requires IsBoundary(n, CorrectedDesign(d, Boundary(d, tenant), ds), tenant)
    ensures IsBoundary(n, d, tenant)
  {
    hide Fold, IsScopeColumn, IsScopeTableName, Trim, IsSharedTable;
    var boundary := Boundary(d, tenant);
    var after := CorrectedDesign(d, boundary, ds);
    if exists i :: 0 <= i < |after.entities| && IsScopeTableName(Trim(after.entities[i].name)) && Fold(after.entities[i].name) == n {
      var i :| 0 <= i < |after.entities| && IsScopeTableName(Trim(after.entities[i].name)) && Fold(after.entities[i].name) == n;
      assert d.entities[i].name == after.entities[i].name;
    } else if exists i :: 0 <= i < |after.entities| && ScopesTo(after.entities[i], n) {
      var i :| 0 <= i < |after.entities| && ScopesTo(after.entities[i], n);
      var j :| 0 <= j < |after.entities[i].columns| && IsScopeColumn(after.entities[i].columns[j].name)
               && after.entities[i].columns[j].references.Some?
               && Fold(after.entities[i].columns[j].references.value.entity) == n;
      ScopeColumnIsOld(d.entities[i], boundary, ds, j);
      assert ScopesTo(d.entities[i], n);
    }
  }

  lemma ScopeColumnIsOld(e: Entity, boundary: set<string>, ds: seq<Declaration>, j: nat)
    requires j < |e.columns| && IsScopeColumn(Corrected(e, boundary, ds).columns[j].name)
    ensures Corrected(e, boundary, ds).columns[j] == e.columns[j]
  {
    hide Fold, IsScopeColumn, IsSharedTable;
    var c := Corrected(e, boundary, ds).columns[j];
    if REFERENCE_ONLY_PREFIX <= c.name {
      PrefixedIsNoScopeColumn(c.name);
    }
  }

  /** The key keeps naming a boundary: it is not one the correction renames. */
  predicate IsLastingScope(e: Entity, c: Column, boundary: set<string>, ds: seq<Declaration>) {
    IsScopeColumn(c.name) && !(IsSharedTable(e.name, boundary, ds) && NeedsDemotion(c, boundary))
  }

  predicate ScopesLastingly(e: Entity, target: string, boundary: set<string>, ds: seq<Declaration>) {
    exists j :: 0 <= j < |e.columns| && IsLastingScope(e, e.columns[j], boundary, ds)
                && e.columns[j].references.Some? && Fold(e.columns[j].references.value.entity) == target
  }

  /** A boundary for reasons the correction leaves in place: the chosen tenant table, a table named
      like one, or the target of a scoping key that is not demoted. */
  predicate IsLastingBoundary(n: string, d: DatabaseDesign, tenant: Tenant, ds: seq<Declaration>) {
    || n == Fold(tenant.table)
    || (exists i :: 0 <= i < |d.entities| && IsScopeTableName(Trim(d.entities[i].name)) && Fold(d.entities[i].name) == n)
    || (exists i :: 0 <= i < |d.entities| && ScopesLastingly(d.entities[i], n, Boundary(d, tenant), ds))
  }

  lemma LastingColumn(e: Entity, boundary: set<string>, ds: seq<Declaration>, j: nat)
    requires j < |e.columns|
    ensures var c := Corrected(e, boundary, ds).columns[j];
            && (IsScopeColumn(c.name) <==> IsLastingScope(e, e.columns[j], boundary, ds))
            && c.references == e.columns[j].references
  {
    hide Fold, IsScopeColumn, IsSharedTable;
    var c := Corrected(e, boundary, ds).columns[j];
    if REFERENCE_ONLY_PREFIX <= c.name {
      PrefixedIsNoScopeColumn(c.name);
    }
  }

  lemma LastingTargets(e: Entity, boundary: set<string>, ds: seq<Declaration>, n: string)
    ensures ScopesTo(Corrected(e, boundary, ds), n) <==> ScopesLastingly(e, n, boundary, ds)
  {
    hide Fold, IsScopeColumn, IsLastingScope, Corrected;
    var after := Corrected(e, boundary, ds);
    CorrectedShape(e, boundary, ds);
    forall j | 0 <= j < |e.columns|
      ensures IsScopeColumn(after.columns[j].name) <==> IsLastingScope(e, e.columns[j], boundary, ds)
      ensures after.columns[j].references == e.columns[j].references
    {
      LastingColumn(e, boundary, ds, j);
    }
  }

  lemma CorrectedShape(e: Entity, boundary: set<string>, ds: seq<Declaration>)
    ensures var after := Corrected(e, boundary, ds); |after.columns| == |e.columns| && after.name == e.name
  {
  }

  /** The boundary of the corrected schema, read off the schema that went in. */
  lemma BoundaryAfter(d: DatabaseDesign, tenant: Tenant, ds: seq<Declaration>, n: string)
    ensures IsBoundary(n, CorrectedDesign(d, Boundary(d, tenant), ds), tenant) <==> IsLastingBoundary(n, d, tenant, ds)
  {
    hide Fold, Trim, IsScopeTableName, ScopesTo, ScopesLastingly, Corrected, Boundary;
    var boundary := Boundary(d, tenant);
    var after := CorrectedDesign(d, boundary, ds);
    forall i | 0 <= i < |d.entities|
      ensures after.entities[i].name == d.entities[i].name
      ensures ScopesTo(after.entities[i], n) <==> ScopesLastingly(d.entities[i], n, boundary, ds)
    {
      CorrectedShape(d.entities[i], boundary, ds);
      LastingTargets(d.entities[i], boundary, ds, n);
    }
  }

  function LastingBoundary(d: DatabaseDesign, tenant: Tenant, ds: seq<Declaration>): set<string> {
    set n | n in Boundary(d, tenant) && IsLastingBoundary(n, d, tenant, ds)
  }

  lemma LastingIsBoundaryAfter(d: DatabaseDesign, tenant: Tenant, ds: seq<Declaration>)
    ensures Boundary(CorrectedDesign(d, Boundary(d, tenant), ds), tenant) == LastingBoundary(d, tenant, ds)
  {
    hide IsBoundary, IsLastingBoundary, CorrectedDesign, Boundary;
    var after := CorrectedDesign(d, Boundary(d, tenant), ds);
    forall n ensures n in Boundary(after, tenant) <==> n in LastingBoundary(d, tenant, ds) {
      BoundaryAfter(d, tenant, ds, n);
      if n in Boundary(after, tenant) {
        BoundaryShrinks(d, tenant, ds, n);
      }
    }
  }

  // ---------- a table that stops being a boundary ----------

  /** A table described as shared that is a boundary at first and not any more afterwards. */
  predicate LeavesBoundary(e: Entity, boundary: set<string>, less: set<string>, ds: seq<Declaration>) {
    DeclarationFor(Trim(e.name), ds).Some? && Fold(e.name) in boundary && Fold(e.name) !in less
  }

  predicate IsOwned(e: Entity, rs: seq<Relation>, boundary: set<string>) {
    || HasDemotion(e.columns, boundary)
    || (exists r :: r in rs && Fold(r.from) in boundary && Fold(r.to) == Fold(e.name) && r.kind != ManyToMany)
  }

  /** Such a table exists and something still owns it. */
  predicate HasLateCorrection(d: DatabaseDesign, ds: seq<Declaration>, tenant: Tenant) {
    var boundary, less := Boundary(d, tenant), LastingBoundary(d, tenant, ds);
    exists i :: 0 <= i < |d.entities| && LeavesBoundary(d.entities[i], boundary, less, ds)
                && IsOwned(d.entities[i], d.relations, less)
  }

  lemma TableSettledIff(e: Entity, boundary: set<string>, less: set<string>, ds: seq<Declaration>)
    requires less <= boundary
    ensures Corrected(Corrected(e, boundary, ds), less, ds) == Corrected(e, boundary, ds)
            <==> !(LeavesBoundary(e, boundary, less, ds) && HasDemotion(e.columns, less))
  {
    hide Fold, DeclarationFor, Trim, IsScopeColumn, DemotedColumns, HasDemotion;
    var once := Corrected(e, boundary, ds);
    if LeavesBoundary(e, boundary, less, ds) {
      DemotionChanges(e.columns, less);
    } else if IsSharedTable(e.name, less, ds) {
      SettledColumns(e.columns, boundary, less);
    }
  }

  lemma DemotionChanges(cs: seq<Column>, boundary: set<string>)
    ensures DemotedColumns(cs, boundary) == cs <==> !HasDemotion(cs, boundary)
  {
    hide IsOwnershipKey;
    if HasDemotion(cs, boundary) {
      var i :| 0 <= i < |cs| && NeedsDemotion(cs[i], boundary);
      assert DemotedColumns(cs, boundary)[i] != cs[i];
    }
  }

  lemma SettledColumns(cs: seq<Column>, boundary: set<string>, less: set<string>)
    requires less <= boundary
    ensures DemotedColumns(DemotedColumns(cs, boundary), less) == DemotedColumns(cs, boundary)
  {
    hide Fold, IsScopeColumn;
    var once := DemotedColumns(cs, boundary);
    forall i | 0 <= i < |once| ensures DemotedColumns(once, less)[i] == once[i] {
      DemotedIsReferenceOnly(cs[i], boundary);
    }
  }

  lemma RelationsSettledIff(d: DatabaseDesign, boundary: set<string>, less: set<string>, ds: seq<Declaration>)
    requires less <= boundary
    ensures var after := CorrectedDesign(d, boundary, ds);
            KeptRelations(after.relations, less, SharedNames(after.entities, less, ds)) == after.relations
            <==> !exists i, r :: 0 <= i < |d.entities| && LeavesBoundary(d.entities[i], boundary, less, ds)
                   && r in d.relations && Fold(r.from) in less && Fold(r.to) == Fold(d.entities[i].name) && r.kind != ManyToMany
  {
    hide Fold, DeclarationFor, Trim, DemotedColumns;
    var after := CorrectedDesign(d, boundary, ds);
    SharedNamesExact(after.entities, less, ds);
    SharedNamesExact(d.entities, boundary, ds);
    var shared, sharedNow := SharedNames(d.entities, boundary, ds), SharedNames(after.entities, less, ds);
    if i, r :| 0 <= i < |d.entities| && LeavesBoundary(d.entities[i], boundary, less, ds)
               && r in d.relations && Fold(r.from) in less && Fold(r.to) == Fold(d.entities[i].name) && r.kind != ManyToMany {
      assert IsSharedTable(after.entities[i].name, less, ds);
      assert Fold(r.to) in sharedNow && Fold(r.to) !in shared;
      assert r in after.relations && IsOwnership(r, less, sharedNow);
    } else {
      forall r | r in after.relations ensures !IsOwnership(r, less, sharedNow) {
      }
      AllKept(after.relations, less, sharedNow);
    }
  }

  /** A second run, which reads the boundary off afresh, changes nothing if and only if no table
      described as shared stopped being a boundary while something still owned it. */
  lemma RerunIsStableIff(d: DatabaseDesign, ds: seq<Declaration>, tenant: Tenant)
    ensures var after := SharedCorrection(d, ds, tenant);
            SharedCorrection(after, ds, tenant) == after <==> !HasLateCorrection(d, ds, tenant)
  {
    hide Fold, DeclarationFor, IsBoundary, Trim, Boundary, LastingBoundary, Corrected, KeptRelations, SharedNames, HasDemotion;
    if ds == [] {
      NothingIsDeclared();
    } else {
      var first, less, after := Boundary(d, tenant), LastingBoundary(d, tenant, ds), SharedCorrection(d, ds, tenant);
      LastingIsBoundaryAfter(d, tenant, ds);
      LastingIsLess(d, tenant, ds);
      RelationsSettledIff(d, first, less, ds);
      forall i | 0 <= i < |d.entities|
        ensures Corrected(after.entities[i], less, ds) == after.entities[i]
                <==> !(LeavesBoundary(d.entities[i], first, less, ds) && HasDemotion(d.entities[i].columns, less))
      {
        TableSettledIff(d.entities[i], first, less, ds);
      }
      SettledAsAWhole(after, less, ds);
    }
  }

  lemma NothingIsDeclared()
    ensures forall table :: DeclarationFor(table, []).None?
  {
  }

  lemma LastingIsLess(d: DatabaseDesign, tenant: Tenant, ds: seq<Declaration>)
    ensures LastingBoundary(d, tenant, ds) <= Boundary(d, tenant)
  {
    hide Boundary, IsLastingBoundary;
  }

  lemma SettledAsAWhole(d: DatabaseDesign, boundary: set<string>, ds: seq<Declaration>)
    ensures CorrectedDesign(d, boundary, ds) == d <==>
              && (forall i :: 0 <= i < |d.entities| ==> Corrected(d.entities[i], boundary, ds) == d.entities[i])
              && KeptRelations(d.relations, boundary, SharedNames(d.entities, boundary, ds)) == d.relations
  {
    hide Corrected, KeptRelations, SharedNames;
    var es := CorrectedEntities(d.entities, boundary, ds);
    if forall i :: 0 <= i < |d.entities| ==> Corrected(d.entities[i], boundary, ds) == d.entities[i] {
      assert es == d.entities;
    } else {
      var i :| 0 <= i < |d.entities| && Corrected(d.entities[i], boundary, ds) != d.entities[i];
      assert es[i] != d.entities[i];
    }
  }

  lemma {:induction false} AllKept(rs: seq<Relation>, boundary: set<string>, shared: set<string>)
    requires forall r :: r in rs ==> !IsOwnership(r, boundary, shared)
    ensures KeptRelations(rs, boundary, shared) == rs
  {
    hide IsOwnership;
    if rs != [] {
      var front, last := rs[..|rs| - 1], rs[|rs| - 1];
      assert rs == front + [last];
      assert forall r :: r in front ==> r in rs;
      AllKept(front, boundary, shared);
      assert last in rs;
    }
  }

  // ---------- a correction is never silent ----------

  lemma {:induction false} DemotionsListed(es: seq<Entity>, boundary: set<string>, ds: seq<Declaration>, i: nat)
    requires i < |es|
    ensures DemotionOf(es[i], boundary, ds) != [] ==> DemotionOf(es[i], boundary, ds)[0] in Demotions(es, boundary, ds)
  {
    hide IsSharedTable, HasDemotion, StatementFor, Trim;
    if i < |es| - 1 {
      DemotionsListed(es[..|es| - 1], boundary, ds, i);
    }
  }

  lemma {:induction false} DropsListed(rs: seq<Relation>, boundary: set<string>, shared: set<string>, ds: seq<Declaration>, i: nat)
    requires i < |rs| && IsOwnership(rs[i], boundary, shared)
    ensures Correction(rs[i].to, DroppedOwnership, StatementFor(rs[i].to, ds)) in Drops(rs, boundary, shared, ds)
  {
    hide IsOwnership, StatementFor;
    if i < |rs| - 1 {
      DropsListed(rs[..|rs| - 1], boundary, shared, ds, i);
    }
  }

  lemma {:induction false} UnansweredListed(ds: seq<Declaration>, matched: set<nat>, n: nat, i: nat)
    requires i < n <= |ds| && i !in matched
    ensures Correction("", Unmatched, ds[i].statement) in Unanswered(ds, matched, n)
  {
    if i < n - 1 {
      UnansweredListed(ds, matched, n - 1, i);
    }
  }

  /** Every changed table and every dropped relation is reported with the statement that caused it. */
  lemma ChangesAreReported(d: DatabaseDesign, boundary: set<string>, ds: seq<Declaration>, i: nat)
    ensures i < |d.entities| && CorrectedDesign(d, boundary, ds).entities[i] != d.entities[i] ==>
              Correction(Trim(d.entities[i].name), Demotion, StatementFor(Trim(d.entities[i].name), ds)) in Report(d, boundary, ds)
    ensures i < |d.relations| && d.relations[i] !in CorrectedDesign(d, boundary, ds).relations ==>
              Correction(d.relations[i].to, DroppedOwnership, StatementFor(d.relations[i].to, ds)) in Report(d, boundary, ds)
  {
    hide IsSharedTable, HasDemotion, StatementFor, Trim, IsOwnership, SharedNames, MatchedStatements, Unanswered;
    if i < |d.entities| && CorrectedDesign(d, boundary, ds).entities[i] != d.entities[i] {
      if !HasDemotion(d.entities[i].columns, boundary) {
        NoDemotionNoChange(d.entities[i].columns, boundary);
      }
      DemotionsListed(d.entities, boundary, ds, i);
    }
    if i < |d.relations| && d.relations[i] !in CorrectedDesign(d, boundary, ds).relations {
      DropsListed(d.relations, boundary, SharedNames(d.entities, boundary, ds), ds, i);
    }
  }

  lemma {:induction false} MatchedExact(es: seq<Entity>, boundary: set<string>, ds: seq<Declaration>, k: nat)
    ensures k in MatchedStatements(es, boundary, ds) <==>
              exists i :: 0 <= i < |es| && IsSharedTable(es[i].name, boundary, ds) && DeclarationFor(Trim(es[i].name), ds) == Some(k)
  {
    hide Fold, Trim, DeclarationFor;
    if es != [] {
      var front, e := es[..|es| - 1], es[|es| - 1];
      MatchedExact(front, boundary, ds, k);
      if k in MatchedStatements(front, boundary, ds) {
        var i :| 0 <= i < |front| && IsSharedTable(front[i].name, boundary, ds) && DeclarationFor(Trim(front[i].name), ds) == Some(k);
        assert es[i] == front[i];
      }
      forall i | 0 <= i < |es| && IsSharedTable(es[i].name, boundary, ds) && DeclarationFor(Trim(es[i].name), ds) == Some(k)
        ensures k in MatchedStatements(es, boundary, ds)
      {
        if i < |front| { assert front[i] == es[i]; }
      }
    }
  }

  /** A statement no shared table answered to is reported too. */
  lemma UnansweredAreReported(d: DatabaseDesign, boundary: set<string>, ds: seq<Declaration>, k: nat)
    requires k < |ds|
    requires forall i :: 0 <= i < |d.entities| && IsSharedTable(d.entities[i].name, boundary, ds) ==>
               DeclarationFor(Trim(d.entities[i].name), ds) != Some(k)
    ensures Correction("", Unmatched, ds[k].statement) in Report(d, boundary, ds)
  {
    hide IsSharedTable, DeclarationFor, Trim, Demotions, Drops, SharedNames;
    MatchedExact(d.entities, boundary, ds, k);
    UnansweredListed(ds, MatchedStatements(d.entities, boundary, ds), |ds|, k);
  }
}
