/** What the shared-record correction drops and what it reports, written out. */
module SharedReport {
  import opened Text
  import opened Collections
  import opened Schema
  import opened Shared
  import opened SharedSafety
  import opened SharedMatching
  import opened DemotedNames

  // ---------- the boundary ----------

  /** The tenant's own table, a table called like a place, or what a key named after a place points at. */
  lemma BoundaryIs(d: DatabaseDesign, tenant: Tenant, name: string)
    ensures name in Boundary(d, tenant) <==>
              || name == Fold(tenant.table)
              || (exists i :: 0 <= i < |d.entities| && Fold(d.entities[i].name) == name && IsPlaceTable(name))
              || (exists i :: 0 <= i < |d.entities| && PointsAtPlace(d.entities[i], name))
  {
    hide Fold, IsPlaceTable, IsPlaceKey, IsScopeColumn, IsScopeTableName, Trim;
    forall i | 0 <= i < |d.entities|
      ensures IsScopeTableName(Trim(d.entities[i].name)) <==> IsPlaceTable(Fold(d.entities[i].name))
      ensures ScopesTo(d.entities[i], name) <==> PointsAtPlace(d.entities[i], name)
    {
      TrimmedPlace(d.entities[i].name);
      PointsIff(d.entities[i], name);
    }
  }

  lemma TrimmedPlace(name: string)
    ensures IsScopeTableName(Trim(name)) <==> IsPlaceTable(Fold(name))
  {
    hide Trim, Lower, IsPlaceTable, IsScopeTableName;
    ScopeTableIff(Trim(name));
  }

  predicate PointsAtPlace(e: Entity, name: string) {
    exists j :: 0 <= j < |e.columns| && IsPlaceKey(e.columns[j].name) && e.columns[j].references.Some?
                && Fold(e.columns[j].references.value.entity) == name
  }

  lemma PointsIff(e: Entity, name: string)
    ensures ScopesTo(e, name) <==> PointsAtPlace(e, name)
  {
    hide Fold, IsPlaceKey, IsScopeColumn;
    forall j | 0 <= j < |e.columns| ensures IsScopeColumn(e.columns[j].name) <==> IsPlaceKey(e.columns[j].name) {
      ScopeColumnIff(e.columns[j].name);
    }
  }

  // ---------- shared tables ----------

  predicate IsDescribed(table: string, ds: seq<Declaration>) {
    exists i :: 0 <= i < |ds| && IsAboutTable(ds[i], table)
  }

  /** The statement that counts: the first one about the table, or nothing. */
  predicate IsStatementFor(statement: string, table: string, ds: seq<Declaration>) {
    if IsDescribed(table, ds)
    then exists i :: 0 <= i < |ds| && IsAboutTable(ds[i], table) && (forall j :: 0 <= j < i ==> !IsAboutTable(ds[j], table))
                     && ds[i].statement == statement
    else statement == ""
  }

  lemma DescribedIff(table: string, ds: seq<Declaration>)
    ensures DeclarationFor(table, ds).Some? <==> IsDescribed(table, ds)
    ensures IsStatementFor(StatementFor(table, ds), table, ds)
  {
    hide IsAboutTable, EntityCandidates;
    var at := DeclarationFor(table, ds);
    if at.Some? {
      DeclarationIff(table, ds, at.value);
    } else if IsDescribed(table, ds) {
      var i := FirstDescribed(table, ds);
      DeclarationIff(table, ds, i);
    }
  }

  lemma FirstDescribed(table: string, ds: seq<Declaration>) returns (i: nat)
    requires IsDescribed(table, ds)
    ensures i < |ds| && IsAboutTable(ds[i], table) && forall j :: 0 <= j < i ==> !IsAboutTable(ds[j], table)
  {
    hide IsAboutTable;
    i := 0;
    while !IsAboutTable(ds[i], table)
      invariant i < |ds| && forall j :: 0 <= j < i ==> !IsAboutTable(ds[j], table)
      decreases |ds| - i
    {
      i := i + 1;
    }
  }

  /** A statement describes the table, and it is no boundary. */
  predicate IsUnowned(e: Entity, boundary: set<string>, ds: seq<Declaration>) {
    Fold(e.name) !in boundary && IsDescribed(Trim(e.name), ds)
  }

  lemma UnownedIff(e: Entity, boundary: set<string>, ds: seq<Declaration>)
    ensures IsSharedTable(e.name, boundary, ds) <==> IsUnowned(e, boundary, ds)
  {
    hide Fold, Trim, IsDescribed, DeclarationFor;
    DescribedIff(Trim(e.name), ds);
  }

  // ---------- relations ----------

  /** A boundary has many, or one, of a shared table. */
  predicate Owns(r: Relation, d: DatabaseDesign, boundary: set<string>, ds: seq<Declaration>) {
    && Fold(r.from) in boundary && (r.kind == OneToMany || r.kind == OneToOne)
    && exists i :: 0 <= i < |d.entities| && IsUnowned(d.entities[i], boundary, ds) && Fold(d.entities[i].name) == Fold(r.to)
  }

  lemma OwnsIff(r: Relation, d: DatabaseDesign, boundary: set<string>, ds: seq<Declaration>)
    ensures IsOwnership(r, boundary, SharedNames(d.entities, boundary, ds)) <==> Owns(r, d, boundary, ds)
  {
    hide Fold, IsSharedTable, IsUnowned;
    SharedNamesExact(d.entities, boundary, ds);
    forall i | 0 <= i < |d.entities| ensures IsSharedTable(d.entities[i].name, boundary, ds) <==> IsUnowned(d.entities[i], boundary, ds) {
      UnownedIff(d.entities[i], boundary, ds);
    }
  }

  lemma {:induction false} RelationsKept(rs: seq<Relation>, d: DatabaseDesign, boundary: set<string>, ds: seq<Declaration>)
    ensures KeptRelations(rs, boundary, SharedNames(d.entities, boundary, ds)) == Kept(rs, (r: Relation) => !Owns(r, d, boundary, ds))
  {
    hide Owns, IsOwnership, SharedNames;
    if rs != [] {
      RelationsKept(rs[..|rs| - 1], d, boundary, ds);
      OwnsIff(rs[|rs| - 1], d, boundary, ds);
      KeptSnoc(rs[..|rs| - 1], rs[|rs| - 1], (r: Relation) => !Owns(r, d, boundary, ds));
      assert rs == rs[..|rs| - 1] + [rs[|rs| - 1]];
    }
  }

  /** Exactly the owning relations go; the others stay, in order. */
  lemma RelationsAreWrittenOut(d: DatabaseDesign, boundary: set<string>, ds: seq<Declaration>)
    ensures CorrectedDesign(d, boundary, ds).relations == Kept(d.relations, (r: Relation) => !Owns(r, d, boundary, ds))
  {
    RelationsKept(d.relations, d, boundary, ds);
  }

  // ---------- the report ----------

  /** A key of the table is demoted. */
  predicate LosesOwner(e: Entity, boundary: set<string>, ds: seq<Declaration>) {
    IsUnowned(e, boundary, ds) && exists j :: 0 <= j < |e.columns| && IsDemoted(e.columns[j], boundary)
  }

  predicate TellsDemotion(c: Correction, e: Entity, ds: seq<Declaration>) {
    c.entity == Trim(e.name) && c.action == Demotion && IsStatementFor(c.statement, Trim(e.name), ds)
  }

  predicate TellsDrop(c: Correction, r: Relation, ds: seq<Declaration>) {
    c.entity == r.to && c.action == DroppedOwnership && IsStatementFor(c.statement, r.to, ds)
  }

  predicate TellDemotions(cs: seq<Correction>, es: seq<Entity>, ds: seq<Declaration>) {
    |cs| == |es| && forall i :: 0 <= i < |cs| ==> TellsDemotion(cs[i], es[i], ds)
  }

  predicate TellDrops(cs: seq<Correction>, rs: seq<Relation>, ds: seq<Declaration>) {
    |cs| == |rs| && forall i :: 0 <= i < |cs| ==> TellsDrop(cs[i], rs[i], ds)
  }

  lemma LosesOwnerIff(e: Entity, boundary: set<string>, ds: seq<Declaration>)
    ensures IsSharedTable(e.name, boundary, ds) && HasDemotion(e.columns, boundary) <==> LosesOwner(e, boundary, ds)
  {
    hide IsSharedTable, IsUnowned, NeedsDemotion, IsDemoted;
    UnownedIff(e, boundary, ds);
    forall j | 0 <= j < |e.columns| ensures NeedsDemotion(e.columns[j], boundary) <==> IsDemoted(e.columns[j], boundary) {
      DemotedIff(e.columns[j], boundary);
    }
  }

  lemma {:induction false} DemotionsTold(es: seq<Entity>, boundary: set<string>, ds: seq<Declaration>)
    ensures TellDemotions(Demotions(es, boundary, ds), Kept(es, (e: Entity) => LosesOwner(e, boundary, ds)), ds)
  {
    hide LosesOwner, IsSharedTable, HasDemotion, IsStatementFor, StatementFor, Trim;
    if es != [] {
      var front, last := es[..|es| - 1], es[|es| - 1];
      DemotionsTold(front, boundary, ds);
      LosesOwnerIff(last, boundary, ds);
      KeptSnoc(front, last, (e: Entity) => LosesOwner(e, boundary, ds));
      assert es == front + [last];
      DescribedIff(Trim(last.name), ds);
    }
  }

  lemma {:induction false} DropsTold(rs: seq<Relation>, d: DatabaseDesign, boundary: set<string>, ds: seq<Declaration>)
    ensures TellDrops(Drops(rs, boundary, SharedNames(d.entities, boundary, ds), ds), Kept(rs, (r: Relation) => Owns(r, d, boundary, ds)), ds)
  {
    hide Owns, IsOwnership, SharedNames, IsStatementFor, StatementFor;
    if rs != [] {
      var front, last := rs[..|rs| - 1], rs[|rs| - 1];
      DropsTold(front, d, boundary, ds);
      OwnsIff(last, d, boundary, ds);
      KeptSnoc(front, last, (r: Relation) => Owns(r, d, boundary, ds));
      assert rs == front + [last];
      DescribedIff(last.to, ds);
    }
  }

  /** No shared table answers to the statement: for each it is another one that counts, if any. */
  predicate IsUnanswered(d: DatabaseDesign, boundary: set<string>, ds: seq<Declaration>, k: nat)
    requires k < |ds|
  {
    forall i :: 0 <= i < |d.entities| && IsUnowned(d.entities[i], boundary, ds) && IsAboutTable(ds[k], Trim(d.entities[i].name)) ==>
      exists j :: 0 <= j < k && IsAboutTable(ds[j], Trim(d.entities[i].name))
  }

  lemma UnansweredIff(d: DatabaseDesign, boundary: set<string>, ds: seq<Declaration>, k: nat)
    requires k < |ds|
    ensures k !in MatchedStatements(d.entities, boundary, ds) <==> IsUnanswered(d, boundary, ds, k)
  {
    hide Fold, Trim, DeclarationFor, IsAboutTable, IsSharedTable, IsUnowned;
    MatchedExact(d.entities, boundary, ds, k);
    forall i | 0 <= i < |d.entities|
      ensures IsSharedTable(d.entities[i].name, boundary, ds) <==> IsUnowned(d.entities[i], boundary, ds)
      ensures DeclarationFor(Trim(d.entities[i].name), ds) == Some(k) <==>
                IsAboutTable(ds[k], Trim(d.entities[i].name)) && forall j :: 0 <= j < k ==> !IsAboutTable(ds[j], Trim(d.entities[i].name))
    {
      UnownedIff(d.entities[i], boundary, ds);
      DeclarationIff(Trim(d.entities[i].name), ds, k);
    }
  }

  /** The statements nothing answered to, in order. */
  function Unheard(d: DatabaseDesign, boundary: set<string>, ds: seq<Declaration>, n: nat): seq<Correction>
    requires n <= |ds|
  {
    if n == 0 then []
    else Unheard(d, boundary, ds, n - 1)
         + (if IsUnanswered(d, boundary, ds, n - 1) then [Correction("", Unmatched, ds[n - 1].statement)] else [])
  }

  lemma {:induction false} UnansweredTold(d: DatabaseDesign, boundary: set<string>, ds: seq<Declaration>, n: nat)
    requires n <= |ds|
    ensures Unanswered(ds, MatchedStatements(d.entities, boundary, ds), n) == Unheard(d, boundary, ds, n)
  {
    hide IsUnanswered, MatchedStatements;
    if n > 0 {
      UnansweredTold(d, boundary, ds, n - 1);
      UnansweredIff(d, boundary, ds, n - 1);
    }
  }

  lemma PartsAreTold(d: DatabaseDesign, boundary: set<string>, ds: seq<Declaration>)
    ensures var demoted := Kept(d.entities, (e: Entity) => LosesOwner(e, boundary, ds));
            var dropped := Kept(d.relations, (r: Relation) => Owns(r, d, boundary, ds));
            var report, a, b := Report(d, boundary, ds), |demoted|, |demoted| + |dropped|;
            && |report| >= b
            && TellDemotions(report[..a], demoted, ds) && TellDrops(report[a..b], dropped, ds)
            && report[b..] == Unheard(d, boundary, ds, |ds|)
  {
    hide Demotions, Drops, Unanswered, Unheard, TellsDemotion, TellsDrop, LosesOwner, Owns, SharedNames, MatchedStatements;
    DemotionsTold(d.entities, boundary, ds);
    DropsTold(d.relations, d, boundary, ds);
    UnansweredTold(d, boundary, ds, |ds|);
    var x, y := Demotions(d.entities, boundary, ds), Drops(d.relations, boundary, SharedNames(d.entities, boundary, ds), ds);
    var z := Unanswered(ds, MatchedStatements(d.entities, boundary, ds), |ds|);
    assert Report(d, boundary, ds)[..|x|] == x && Report(d, boundary, ds)[|x|..|x| + |y|] == y && Report(d, boundary, ds)[|x| + |y|..] == z;
  }

  /** Without statements there is nothing to tell. */
  lemma NothingStated(d: DatabaseDesign, boundary: set<string>)
    ensures Kept(d.entities, (e: Entity) => LosesOwner(e, boundary, [])) == []
    ensures Kept(d.relations, (r: Relation) => Owns(r, d, boundary, [])) == []
  {
    NothingKept(d.entities, (e: Entity) => LosesOwner(e, boundary, []));
    NothingKept(d.relations, (r: Relation) => Owns(r, d, boundary, []));
  }

  /** The report of the pass: one row for each table whose keys are demoted, one for each relation dropped, both
      with the first statement about the table, and one for each statement nothing answers to. Nothing else is
      reported. */
  lemma ReportIsWrittenOut(d: DatabaseDesign, ds: seq<Declaration>, tenant: Tenant)
    ensures var boundary := Boundary(d, tenant);
            var demoted := Kept(d.entities, (e: Entity) => LosesOwner(e, boundary, ds));
            var dropped := Kept(d.relations, (r: Relation) => Owns(r, d, boundary, ds));
            var report, a, b := SharedReport(d, ds, tenant), |demoted|, |demoted| + |dropped|;
            && |report| >= b
            && TellDemotions(report[..a], demoted, ds) && TellDrops(report[a..b], dropped, ds)
            && report[b..] == Unheard(d, boundary, ds, |ds|)
  {
    hide Boundary, Report, LosesOwner, Owns, TellsDemotion, TellsDrop;
    PartsAreTold(d, Boundary(d, tenant), ds);
    if ds == [] {
      NothingStated(d, Boundary(d, tenant));
    }
  }
}
