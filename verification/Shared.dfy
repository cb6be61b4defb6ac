/** Cross-tenant shared records: the tables a multi-tenant schema must not let one tenant own. */
module Shared {
  import opened Text
  import opened Collections
  import opened Schema

  // ---------- what a tenant boundary looks like ----------

  const SCOPE_NOUNS: seq<string> := [
    "tenant", "organization", "organisation", "org", "workspace", "company", "branch", "store",
    "merchant", "vendor", "clinic", "hospital", "school", "campus", "warehouse", "outlet",
    "practice", "franchise", "location", "site", "facility", "department"]

  const SCOPE_TABLES: seq<string> := [
    "tenant", "tenants", "organization", "organizations", "organisation", "organisations", "org", "orgs",
    "account", "accounts", "workspace", "workspaces", "companies", "branches", "clinics", "hospitals",
    "stores", "merchants", "vendors", "schools", "campuses", "warehouses", "outlets", "practices",
    "franchises", "locations", "sites", "facilities"]

  /** The noun of a `<noun>_id` column, lower-cased. */
  function ScopeNoun(column: string): Option<string> {
    var low := Lower(column);
    if EndsWith(low, "_id") then Some(low[..|low| - 3]) else None
  }

  /** A key column whose noun is one of the places or organizations a business has. */
  predicate IsScopeColumn(column: string) {
    ScopeNoun(column).Some? && ScopeNoun(column).value in SCOPE_NOUNS
  }

  /** A table called like such a place or organization. */
  predicate IsScopeTableName(name: string) {
    Lower(name) in SCOPE_TABLES
  }

  const REFERENCE_ONLY_PREFIX := "registered_at_"

  /** A renamed key is never read as tenant scoping again. */
  lemma PrefixedIsNoScopeColumn(column: string)
    requires REFERENCE_ONLY_PREFIX <= column
    ensures !IsScopeColumn(column)
  {
    var low := Lower(column);
    assert column[0] == REFERENCE_ONLY_PREFIX[0] && low[0] == 'r';
    if ScopeNoun(column).Some? {
      if |low| > 3 {
        assert ScopeNoun(column).value[0] == 'r';
        NoScopeNounStartsWithR(ScopeNoun(column).value);
      }
    }
  }

  lemma NoScopeNounStartsWithR(noun: string)
    requires noun != "" && noun[0] == 'r'
    ensures noun !in SCOPE_NOUNS
  {
    assert forall i :: 0 <= i < |SCOPE_NOUNS| ==> |SCOPE_NOUNS[i]| > 0 && SCOPE_NOUNS[i][0] != 'r';
  }

  // ---------- matching a table against the statements ----------

  /** A statement that some record is shared: the stemmed nouns its subject may name. */
  datatype Declaration = Declaration(candidates: seq<string>, statement: string)

  const CONTAINER_NOUNS: seq<string> := [
    "record", "data", "datum", "information", "info", "profile", "file", "history", "entry",
    "detail", "list", "table", "entity", "account", "master", "chart", "document", "row"]

  predicate IsLetter(c: char) { 'a' <= c <= 'z' }

  function LeadingLetters(s: string): (r: string)
    ensures r <= s
  {
    if s != "" && IsLetter(s[0]) then [s[0]] + LeadingLetters(s[1..]) else ""
  }

  /** The maximal runs of letters. */
  function Words(s: string): seq<string>
    decreases |s|
  {
    if s == "" then []
    else if !IsLetter(s[0]) then Words(s[1..])
    else [LeadingLetters(s)] + Words(s[|LeadingLetters(s)|..])
  }

  /** Walking back over container nouns to the first real one. */
  function Heads(words: seq<string>): seq<string> {
    if words == [] then []
    else
      var last := SingularNoun(words[|words| - 1]);
      [last] + (if last in CONTAINER_NOUNS then Heads(words[..|words| - 1]) else [])
  }

  /** A noun, and the noun a `-ship` word derives from. */
  function NounVariants(word: string): seq<string> {
    var base := SingularNoun(word);
    if EndsWith(base, "ship") && |base| > 6 then [base, base[..|base| - 4]] else [base]
  }

  function LongVariants(heads: seq<string>): seq<string> {
    if heads == [] then []
    else LongOnes(NounVariants(heads[0])) + LongVariants(heads[1..])
  }

  function LongOnes(words: seq<string>): seq<string> {
    if words == [] then [] else (if |words[0]| >= 3 then [words[0]] else []) + LongOnes(words[1..])
  }

  /** The singular nouns a table's name can be matched by. */
  function EntityCandidates(table: string): seq<string> {
    LongVariants(Heads(Words(Lower(table))))
  }

  predicate Names(d: Declaration, heads: seq<string>) {
    exists i :: 0 <= i < |d.candidates| && d.candidates[i] in heads
  }

  /** The position of the first statement about this table. */
  function DeclarationFor(table: string, ds: seq<Declaration>): (r: Option<nat>)
    ensures r.Some? ==> r.value < |ds|
  {
    FirstNaming(ds, EntityCandidates(table))
  }

  function FirstNaming(ds: seq<Declaration>, heads: seq<string>): (r: Option<nat>)
    ensures r.Some? ==> r.value < |ds| && Names(ds[r.value], heads)
    ensures r.None? ==> forall i :: 0 <= i < |ds| ==> !Names(ds[i], heads)
  {
    if ds == [] then None
    else if Names(ds[0], heads) then Some(0)
    else
      match FirstNaming(ds[1..], heads)
      case Some(i) => Some(i + 1)
      case None => None
  }

  // ---------- the boundary of one design ----------

  datatype Tenant = Tenant(table: string, column: string)

  /** Some key of this entity, named as a scope, points at `target`. */
  predicate ScopesTo(e: Entity, target: string) {
    exists j :: 0 <= j < |e.columns| && IsScopeColumn(e.columns[j].name)
                && e.columns[j].references.Some? && Fold(e.columns[j].references.value.entity) == target
  }

  /** The tables acting as the tenant boundary: the chosen one, those named like one, and
      whatever a scoping key points at. */
  predicate IsBoundary(name: string, design: DatabaseDesign, tenant: Tenant) {
    || name == Fold(tenant.table)
    || (exists i :: 0 <= i < |design.entities| && IsScopeTableName(Trim(design.entities[i].name))
                    && Fold(design.entities[i].name) == name)
    || (exists i :: 0 <= i < |design.entities| && ScopesTo(design.entities[i], name))
  }

  method TenantTablesOf(design: DatabaseDesign, tenant: Tenant) returns (names: set<string>)
    ensures forall n :: n in names <==> IsBoundary(n, design, tenant)
  {
    hide Fold, IsScopeColumn, IsScopeTableName, Trim;
    var es := design.entities;
    names := {Fold(tenant.table)};
    for i := 0 to |es|
      invariant forall n :: n in names <==>
        (n == Fold(tenant.table)
         || exists k :: 0 <= k < i && IsScopeTableName(Trim(es[k].name)) && Fold(es[k].name) == n)
    {
      if IsScopeTableName(Trim(es[i].name)) {
        names := names + {Fold(es[i].name)};
      }
    }
    ghost var named := names;
    for i := 0 to |es|
      invariant forall n :: n in names <==> (n in named || exists k :: 0 <= k < i && ScopesTo(es[k], n))
    {
      var columns := es[i].columns;
      ghost var before := names;
      for j := 0 to |columns|
        invariant forall n :: n in names <==>
          (n in before
           || exists k :: 0 <= k < j && IsScopeColumn(columns[k].name)
                          && columns[k].references.Some? && Fold(columns[k].references.value.entity) == n)
      {
        if columns[j].references.Some? && IsScopeColumn(columns[j].name) {
          names := names + {Fold(columns[j].references.value.entity)};
        }
      }
      assert forall n :: n in names <==> n in before || ScopesTo(es[i], n);
    }
  }

  // ---------- the correction ----------

  /** A single-tenant ownership key. */
  predicate IsOwnershipKey(c: Column, boundary: set<string>) {
    && !c.primaryKey
    && match c.references
       case Some(r) => Fold(r.entity) != "" && Fold(r.entity) in boundary
       case None => IsScopeColumn(c.name)
  }

  predicate IsReferenceOnly(c: Column) {
    c.nullable && !c.unique && REFERENCE_ONLY_PREFIX <= c.name
  }

  predicate NeedsDemotion(c: Column, boundary: set<string>) {
    IsOwnershipKey(c, boundary) && !IsReferenceOnly(c)
  }

  function Demoted(c: Column, boundary: set<string>): Column {
    if !NeedsDemotion(c, boundary) then c
    else c.(name := if REFERENCE_ONLY_PREFIX <= c.name then c.name else REFERENCE_ONLY_PREFIX + c.name,
            nullable := true, unique := false)
  }

  function DemotedColumns(cs: seq<Column>, boundary: set<string>): (r: seq<Column>)
    ensures |r| == |cs| && forall i :: 0 <= i < |cs| ==> r[i] == Demoted(cs[i], boundary)
  {
    seq(|cs|, i requires 0 <= i < |cs| => Demoted(cs[i], boundary))
  }

  /** Described as shared by some statement, and not a boundary itself. */
  predicate IsSharedTable(name: string, boundary: set<string>, ds: seq<Declaration>) {
    Fold(name) !in boundary && DeclarationFor(Trim(name), ds).Some?
  }

  function Corrected(e: Entity, boundary: set<string>, ds: seq<Declaration>): Entity {
    if IsSharedTable(e.name, boundary, ds) then e.(columns := DemotedColumns(e.columns, boundary)) else e
  }

  function CorrectedEntities(es: seq<Entity>, boundary: set<string>, ds: seq<Declaration>): (r: seq<Entity>)
    ensures |r| == |es| && forall i :: 0 <= i < |es| ==> r[i] == Corrected(es[i], boundary, ds)
  {
    seq(|es|, i requires 0 <= i < |es| => Corrected(es[i], boundary, ds))
  }

  function SharedNames(es: seq<Entity>, boundary: set<string>, ds: seq<Declaration>): set<string> {
    if es == [] then {}
    else
      var e := es[|es| - 1];
      SharedNames(es[..|es| - 1], boundary, ds) + SharedName(e, boundary, ds)
  }

  lemma {:induction false} SharedNamesExact(es: seq<Entity>, boundary: set<string>, ds: seq<Declaration>)
    ensures forall n :: n in SharedNames(es, boundary, ds) <==>
              exists i :: 0 <= i < |es| && IsSharedTable(es[i].name, boundary, ds) && Fold(es[i].name) == n
  {
    hide IsSharedTable, Fold;
    if es != [] {
      var front := es[..|es| - 1];
      SharedNamesExact(front, boundary, ds);
      forall n | n in SharedNames(es, boundary, ds)
        ensures exists i :: 0 <= i < |es| && IsSharedTable(es[i].name, boundary, ds) && Fold(es[i].name) == n
      {
        if n in SharedNames(front, boundary, ds) {
          var i :| 0 <= i < |front| && IsSharedTable(front[i].name, boundary, ds) && Fold(front[i].name) == n;
          assert es[i] == front[i];
        } else {
          assert IsSharedTable(es[|es| - 1].name, boundary, ds);
        }
      }
      forall n, i | 0 <= i < |es| && IsSharedTable(es[i].name, boundary, ds) && Fold(es[i].name) == n
        ensures n in SharedNames(es, boundary, ds)
      {
        if i < |front| { assert front[i] == es[i]; }
      }
    }
  }

  /** A "tenant has many of these" relation to a shared table. */
  predicate IsOwnership(r: Relation, boundary: set<string>, shared: set<string>) {
    Fold(r.from) in boundary && Fold(r.to) in shared && r.kind != ManyToMany
  }

  function KeptRelations(rs: seq<Relation>, boundary: set<string>, shared: set<string>): (r: seq<Relation>)
    ensures forall x :: x in r <==> x in rs && !IsOwnership(x, boundary, shared)
  {
    if rs == [] then []
    else
      KeptRelations(rs[..|rs| - 1], boundary, shared)
      + (if IsOwnership(rs[|rs| - 1], boundary, shared) then [] else [rs[|rs| - 1]])
  }

  function CorrectedDesign(d: DatabaseDesign, boundary: set<string>, ds: seq<Declaration>): DatabaseDesign {
    d.(entities := CorrectedEntities(d.entities, boundary, ds),
       relations := KeptRelations(d.relations, boundary, SharedNames(d.entities, boundary, ds)))
  }

  // ---------- the report ----------

  datatype Action = Demotion | DroppedOwnership | Unmatched

  datatype Correction = Correction(entity: string, action: Action, statement: string)

  predicate HasDemotion(cs: seq<Column>, boundary: set<string>) {
    exists i :: 0 <= i < |cs| && NeedsDemotion(cs[i], boundary)
  }

  function StatementFor(name: string, ds: seq<Declaration>): string {
    match DeclarationFor(name, ds)
    case Some(i) => ds[i].statement
    case None => ""
  }

  function DemotionOf(e: Entity, boundary: set<string>, ds: seq<Declaration>): seq<Correction> {
    if IsSharedTable(e.name, boundary, ds) && HasDemotion(e.columns, boundary) then
      [Correction(Trim(e.name), Demotion, StatementFor(Trim(e.name), ds))]
    else []
  }

  function Demotions(es: seq<Entity>, boundary: set<string>, ds: seq<Declaration>): seq<Correction> {
    if es == [] then []
    else Demotions(es[..|es| - 1], boundary, ds) + DemotionOf(es[|es| - 1], boundary, ds)
  }

  function Drops(rs: seq<Relation>, boundary: set<string>, shared: set<string>, ds: seq<Declaration>): seq<Correction> {
    if rs == [] then []
    else
      var r := rs[|rs| - 1];
      Drops(rs[..|rs| - 1], boundary, shared, ds)
      + (if IsOwnership(r, boundary, shared) then [Correction(r.to, DroppedOwnership, StatementFor(r.to, ds))] else [])
  }

  /** The statements some shared table answered to. */
  function MatchedStatements(es: seq<Entity>, boundary: set<string>, ds: seq<Declaration>): set<nat> {
    if es == [] then {}
    else
      var e := es[|es| - 1];
      MatchedStatements(es[..|es| - 1], boundary, ds) + MatchedStatement(e, boundary, ds)
  }

  function Unanswered(ds: seq<Declaration>, matched: set<nat>, n: nat): seq<Correction>
    requires n <= |ds|
  {
    if n == 0 then []
    else Unanswered(ds, matched, n - 1)
         + (if n - 1 in matched then [] else [Correction("", Unmatched, ds[n - 1].statement)])
  }

  function Report(d: DatabaseDesign, boundary: set<string>, ds: seq<Declaration>): seq<Correction> {
    Demotions(d.entities, boundary, ds)
    + Drops(d.relations, boundary, SharedNames(d.entities, boundary, ds), ds)
    + Unanswered(ds, MatchedStatements(d.entities, boundary, ds), |ds|)
  }

  function Boundary(d: DatabaseDesign, tenant: Tenant): (r: set<string>)
    ensures forall n :: n in r <==> IsBoundary(n, d, tenant)
  {
    hide Fold, IsScopeColumn, IsScopeTableName, Trim;
    var es := d.entities;
    {Fold(tenant.table)}
    + (set i | 0 <= i < |es| && IsScopeTableName(Trim(es[i].name)) :: Fold(es[i].name))
    + (set i, j | 0 <= i < |es| && 0 <= j < |es[i].columns| && IsScopeColumn(es[i].columns[j].name)
                  && es[i].columns[j].references.Some? :: Fold(es[i].columns[j].references.value.entity))
  }

  function SharedCorrection(d: DatabaseDesign, ds: seq<Declaration>, tenant: Tenant): DatabaseDesign {
    if ds == [] then d else CorrectedDesign(d, Boundary(d, tenant), ds)
  }

  function SharedReport(d: DatabaseDesign, ds: seq<Declaration>, tenant: Tenant): seq<Correction> {
    if ds == [] then [] else Report(d, Boundary(d, tenant), ds)
  }

  // ---------- the pass as it runs ----------

  method DemoteColumns(cs: seq<Column>, boundary: set<string>) returns (out: seq<Column>, demoted: seq<string>)
    ensures out == DemotedColumns(cs, boundary)
    ensures demoted == [] <==> !HasDemotion(cs, boundary)
  {
    hide NeedsDemotion;
    out, demoted := [], [];
    for i := 0 to |cs|
      invariant |out| == i && forall k :: 0 <= k < i ==> out[k] == Demoted(cs[k], boundary)
      invariant demoted == [] <==> !exists k :: 0 <= k < i && NeedsDemotion(cs[k], boundary)
    {
      if NeedsDemotion(cs[i], boundary) {
        demoted := demoted + [cs[i].name];
      }
      out := out + [Demoted(cs[i], boundary)];
    }
    assert out == DemotedColumns(cs, boundary);
  }

  lemma NoDemotionNoChange(cs: seq<Column>, boundary: set<string>)
    requires !HasDemotion(cs, boundary)
    ensures DemotedColumns(cs, boundary) == cs
  {
    hide NeedsDemotion;
  }

  function SharedName(e: Entity, boundary: set<string>, ds: seq<Declaration>): set<string> {
    if IsSharedTable(e.name, boundary, ds) then {Fold(e.name)} else {}
  }

  function MatchedStatement(e: Entity, boundary: set<string>, ds: seq<Declaration>): set<nat> {
    if IsSharedTable(e.name, boundary, ds) then {DeclarationFor(Trim(e.name), ds).value} else {}
  }

  method CorrectEntity(e: Entity, boundary: set<string>, ds: seq<Declaration>)
    returns (out: Entity, corrections: seq<Correction>, shared: set<string>, matched: set<nat>)
    ensures out == Corrected(e, boundary, ds) && corrections == DemotionOf(e, boundary, ds)
    ensures shared == SharedName(e, boundary, ds) && matched == MatchedStatement(e, boundary, ds)
  {
    hide Fold, Trim, DeclarationFor, HasDemotion, DemotedColumns;
    var at := DeclarationFor(Trim(e.name), ds);
    if Fold(e.name) in boundary || at.None? {
      return e, [], {}, {};
    }
    var columns, demoted := DemoteColumns(e.columns, boundary);
    shared, matched := {Fold(e.name)}, {at.value};
    if demoted == [] {
      NoDemotionNoChange(e.columns, boundary);
      return e, [], shared, matched;
    }
    out, corrections := e.(columns := columns), [Correction(Trim(e.name), Demotion, ds[at.value].statement)];
  }

  method CorrectEntities(es: seq<Entity>, boundary: set<string>, ds: seq<Declaration>)
    returns (out: seq<Entity>, corrections: seq<Correction>, shared: set<string>, matched: set<nat>)
    ensures out == CorrectedEntities(es, boundary, ds)
    ensures corrections == Demotions(es, boundary, ds)
    ensures shared == SharedNames(es, boundary, ds) && matched == MatchedStatements(es, boundary, ds)
  {
    hide Corrected, DemotionOf, SharedName, MatchedStatement;
    out, corrections, shared, matched := [], [], {}, {};
    for i := 0 to |es|
      invariant |out| == i && forall k :: 0 <= k < i ==> out[k] == Corrected(es[k], boundary, ds)
      invariant corrections == Demotions(es[..i], boundary, ds)
      invariant shared == SharedNames(es[..i], boundary, ds) && matched == MatchedStatements(es[..i], boundary, ds)
    {
      assert es[..i + 1][..i] == es[..i];
      var e, more, name, statement := CorrectEntity(es[i], boundary, ds);
      out, corrections, shared, matched := out + [e], corrections + more, shared + name, matched + statement;
    }
    assert es[..|es|] == es;
    assert out == CorrectedEntities(es, boundary, ds);
  }

  method DropOwnership(rs: seq<Relation>, boundary: set<string>, shared: set<string>, ds: seq<Declaration>)
    returns (kept: seq<Relation>, corrections: seq<Correction>)
    ensures kept == KeptRelations(rs, boundary, shared) && corrections == Drops(rs, boundary, shared, ds)
  {
    hide IsOwnership, StatementFor;
    kept, corrections := [], [];
    for i := 0 to |rs|
      invariant kept == KeptRelations(rs[..i], boundary, shared)
      invariant corrections == Drops(rs[..i], boundary, shared, ds)
    {
      assert rs[..i + 1][..i] == rs[..i];
      if IsOwnership(rs[i], boundary, shared) {
        corrections := corrections + [Correction(rs[i].to, DroppedOwnership, StatementFor(rs[i].to, ds))];
      } else {
        kept := kept + [rs[i]];
      }
    }
    assert rs[..|rs|] == rs;
  }

  method NoteUnanswered(ds: seq<Declaration>, matched: set<nat>) returns (corrections: seq<Correction>)
    ensures corrections == Unanswered(ds, matched, |ds|)
  {
    corrections := [];
    for i := 0 to |ds|
      invariant corrections == Unanswered(ds, matched, i)
    {
      if i !in matched {
        corrections := corrections + [Correction("", Unmatched, ds[i].statement)];
      }
    }
  }

  method ReconcileSharedEntities(d: DatabaseDesign, ds: seq<Declaration>, tenant: Tenant)
    returns (r: DatabaseDesign, corrections: seq<Correction>)
    ensures r == SharedCorrection(d, ds, tenant)
    ensures corrections == SharedReport(d, ds, tenant)
  {
    hide IsBoundary, KeptRelations, Drops, Demotions, CorrectedEntities, SharedNames, MatchedStatements, Unanswered;
    if ds == [] {
      return d, [];
    }
    var boundary := TenantTablesOf(d, tenant);
    assert boundary == Boundary(d, tenant);
    var entities, shared, matched;
    entities, corrections, shared, matched := CorrectEntities(d.entities, boundary, ds);
    var kept, drops := DropOwnership(d.relations, boundary, shared, ds);
    var unanswered := NoteUnanswered(ds, matched);
    corrections := corrections + drops + unanswered;
    r := d.(entities := entities, relations := kept);
  }
}
