/** The names the shared-record correction gives to the keys it demotes. */
module DemotedNames {
  import opened Text
  import opened Schema
  import opened Shared

  /** The key ties the row to one boundary: it references one, or, referencing nothing, is named like a
      scoping key. */
  predicate TiesToBoundary(c: Column, boundary: set<string>) {
    && !c.primaryKey
    && (if c.references.Some? then Fold(c.references.value.entity) != "" && Fold(c.references.value.entity) in boundary
        else IsScopeColumn(c.name))
  }

  predicate IsMarked(name: string) { "registered_at_" <= name }

  /** Such a key is demoted unless it is optional, not unique and marked already. */
  predicate IsDemoted(c: Column, boundary: set<string>) {
    TiesToBoundary(c, boundary) && !(c.nullable && !c.unique && IsMarked(c.name))
  }

  /** The mark goes in front of the key's own name, once. */
  function NameAfter(c: Column, boundary: set<string>): string {
    if IsDemoted(c, boundary) && !IsMarked(c.name) then "registered_at_" + c.name else c.name
  }

  lemma DemotedIff(c: Column, boundary: set<string>)
    ensures NeedsDemotion(c, boundary) <==> IsDemoted(c, boundary)
  {
    hide Fold, IsScopeColumn;
  }

  /** Every column of a shared table keeps its place, type, key and reference; a demoted one is marked in its
      name, optional and not unique; any other is as before. Other tables stay. */
  lemma ColumnsAreWrittenOut(d: DatabaseDesign, boundary: set<string>, ds: seq<Declaration>, i: nat, j: nat)
    requires i < |d.entities| && j < |d.entities[i].columns|
    ensures var before, after := d.entities[i], CorrectedDesign(d, boundary, ds).entities[i];
            var c := before.columns[j];
            && |after.columns| == |before.columns|
            && (IsSharedTable(before.name, boundary, ds) ==>
                  after.columns[j] == Column(NameAfter(c, boundary), c.columnType, IsDemoted(c, boundary) || c.nullable,
                                             c.primaryKey, c.unique && !IsDemoted(c, boundary), c.references))
            && (!IsSharedTable(before.name, boundary, ds) ==> after.columns[j] == c)
  {
    hide Fold, IsScopeColumn, IsSharedTable, IsDemoted, NeedsDemotion;
    DemotedIff(d.entities[i].columns[j], boundary);
  }

  predicate DistinctColumns(cs: seq<Column>) {
    forall i, j :: 0 <= i < j < |cs| ==> cs[i].name != cs[j].name
  }

  /** One column has the name another one is about to get. */
  predicate IsTaken(cs: seq<Column>, boundary: set<string>) {
    exists i, j :: 0 <= i < |cs| && 0 <= j < |cs| && IsDemoted(cs[i], boundary) && !IsMarked(cs[i].name)
                   && cs[j].name == "registered_at_" + cs[i].name
  }

  lemma SameTail(a: string, b: string)
    ensures "registered_at_" + a == "registered_at_" + b <==> a == b
  {
    assert ("registered_at_" + a)[14..] == a && ("registered_at_" + b)[14..] == b;
  }

  lemma MarkedKeepsName(c: Column, boundary: set<string>, name: string)
    requires c.name == "registered_at_" + name
    ensures IsMarked(c.name) && NameAfter(c, boundary) == c.name && name != c.name
  {
    assert c.name[..14] == "registered_at_";
    assert |c.name| == |name| + 14;
  }

  lemma NamesDiffer(cs: seq<Column>, boundary: set<string>, i: nat, j: nat)
    requires i < |cs| && j < |cs| && cs[i].name != cs[j].name && !IsTaken(cs, boundary)
    ensures NameAfter(cs[i], boundary) != NameAfter(cs[j], boundary)
  {
    hide IsDemoted, IsMarked;
    SameTail(cs[i].name, cs[j].name);
  }

  lemma NamesAfter(e: Entity, boundary: set<string>, ds: seq<Declaration>)
    requires IsSharedTable(e.name, boundary, ds)
    ensures var after := Corrected(e, boundary, ds).columns;
            |after| == |e.columns| && forall i :: 0 <= i < |after| ==> after[i].name == NameAfter(e.columns[i], boundary)
  {
    hide Fold, IsScopeColumn, IsSharedTable, IsDemoted, NeedsDemotion;
    forall i | 0 <= i < |e.columns| ensures NeedsDemotion(e.columns[i], boundary) <==> IsDemoted(e.columns[i], boundary) {
      DemotedIff(e.columns[i], boundary);
    }
  }

  /** Columns with distinct names still have distinct names if and only if no column had the name of a
      demoted one already. */
  lemma NamesStayDistinctIff(e: Entity, boundary: set<string>, ds: seq<Declaration>)
    requires IsSharedTable(e.name, boundary, ds) && DistinctColumns(e.columns)
    ensures DistinctColumns(Corrected(e, boundary, ds).columns) <==> !IsTaken(e.columns, boundary)
  {
    hide IsSharedTable, IsDemoted, IsMarked, Corrected, NameAfter;
    var cs, after := e.columns, Corrected(e, boundary, ds).columns;
    NamesAfter(e, boundary, ds);
    if IsTaken(cs, boundary) {
      var i, j :| 0 <= i < |cs| && 0 <= j < |cs| && IsDemoted(cs[i], boundary) && !IsMarked(cs[i].name)
                  && cs[j].name == "registered_at_" + cs[i].name;
      MarkedKeepsName(cs[j], boundary, cs[i].name);
      NameOfDemoted(cs[i], boundary);
      assert after[i].name == after[j].name && i != j;
    } else {
      forall i, j | 0 <= i < j < |after| ensures after[i].name != after[j].name {
        NamesDiffer(cs, boundary, i, j);
      }
    }
  }

  lemma NameOfDemoted(c: Column, boundary: set<string>)
    requires IsDemoted(c, boundary) && !IsMarked(c.name)
    ensures NameAfter(c, boundary) == "registered_at_" + c.name
  {
  }
}
