/** What a documented list endpoint may be filtered by. */
module ListQuery {
  import opened Text
  import opened Schema
  import opened RestApi

  predicate DistinctNames(fields: seq<SchemaField>) {
    forall i, j :: 0 <= i < j < |fields| ==> fields[i].name != fields[j].name
  }

  predicate IsDate(c: Column) {
    Lower(c.name) == "created_at" || "timestamp" <= Fold(c.columnType) || Fold(c.columnType) == "date"
  }

  predicate IsDateBound(f: SchemaField, c: Column) {
    IsDate(c) && f.fieldType == "string" && (f.name == DateBase(c.name) + "_from" || f.name == DateBase(c.name) + "_to")
  }

  /** The schema gives a reason for this filter. */
  predicate IsGrounded(f: SchemaField, e: Entity, demand: ListQueryDemand) {
    && !f.required
    && exists j :: 0 <= j < |e.columns| && IsGroundedIn(f, e.columns[j], demand)
  }

  predicate IsGroundedIn(f: SchemaField, c: Column, demand: ListQueryDemand) {
    || (demand.search && f.name == "search" && f.fieldType == "string" && IsSearchable(c))
    || (demand.status && IsStatusColumn(c) && f.name == c.name && f.fieldType == c.columnType)
    || (IsForeignKey(c) && f.name == c.name && f.fieldType == c.columnType)
    || (demand.dateRange && IsDateBound(f, c))
  }

  /** Pagination first, no name twice, and nothing the schema gives no reason for. */
  predicate IsSound(params: seq<SchemaField>, e: Entity, demand: ListQueryDemand) {
    && PAGINATION <= params && DistinctNames(params)
    && forall i :: 2 <= i < |params| ==> IsGrounded(params[i], e, demand)
  }

  lemma PushIsSound(params: seq<SchemaField>, name: string, fieldType: string, e: Entity, demand: ListQueryDemand, c: Column)
    requires IsSound(params, e, demand) && c in e.columns
    requires IsGroundedIn(SchemaField(name, fieldType, false), c, demand)
    ensures var r := PushField(params, name, fieldType);
            IsSound(r, e, demand) && HasName(r, name) && params <= r && |r| <= |params| + 1
  {
    hide IsGroundedIn;
    var r := PushField(params, name, fieldType);
    if r != params {
      assert r[|params|].name == name;
      assert IsGrounded(r[|params|], e, demand);
    }
  }

  lemma {:induction false} FksAreSound(params: seq<SchemaField>, fks: seq<Column>, n: nat, e: Entity, demand: ListQueryDemand)
    requires IsSound(params, e, demand) && n <= |fks|
    requires forall i :: 0 <= i < |fks| ==> fks[i] in e.columns && IsForeignKey(fks[i])
    ensures var r := PushFks(params, fks, n);
            && IsSound(r, e, demand) && params <= r && |r| <= |params| + n
            && forall k :: 0 <= k < n ==> HasName(r, fks[k].name)
  {
    hide IsSound, IsForeignKey;
    if n > 0 {
      FksAreSound(params, fks, n - 1, e, demand);
      var before, c := PushFks(params, fks, n - 1), fks[n - 1];
      FkIsGrounded(c, demand);
      PushIsSound(before, c.name, c.columnType, e, demand, c);
      forall k | 0 <= k < n - 1 ensures HasName(PushFks(params, fks, n), fks[k].name) {
        var i :| 0 <= i < |before| && before[i].name == fks[k].name;
        assert PushFks(params, fks, n)[i] == before[i];
      }
    }
  }

  lemma FkIsGrounded(c: Column, demand: ListQueryDemand)
    requires IsForeignKey(c)
    ensures IsGroundedIn(SchemaField(c.name, c.columnType, false), c, demand)
  {
  }

  lemma SearchAndStatusAreSound(e: Entity, demand: ListQueryDemand)
    ensures var r := SearchAndStatus(e, demand);
            && IsSound(r, e, demand) && |r| <= 4
            && (demand.search && (exists c :: c in e.columns && IsSearchable(c)) ==> HasName(r, "search"))
            && (demand.status ==> forall c :: c in e.columns && IsStatusColumn(c) ==>
                                    exists s :: s in e.columns && IsStatusColumn(s) && HasName(r, s.name))
  {
    hide IsSearchable, IsStatusColumn, IsDate, IsForeignKey, IsGrounded;
    var search := FindColumn(e.columns, c => IsSearchable(c));
    var found := if demand.search && search.Some? then PushField(PAGINATION, "search", "string") else PAGINATION;
    if demand.search && search.Some? {
      PushIsSound(PAGINATION, "search", "string", e, demand, search.value);
    }
    var status := FindColumn(e.columns, c => IsStatusColumn(c));
    if demand.status && status.Some? {
      PushIsSound(found, status.value.name, status.value.columnType, e, demand, status.value);
    }
  }

  lemma DateColumnIsDate(columns: seq<Column>)
    ensures DateColumn(columns).Some? ==> IsDate(DateColumn(columns).value)
    ensures DateColumn(columns).None? ==> forall c :: c in columns ==> !IsDate(c)
  {
    hide Fold, Lower;
  }

  lemma DateBoundsAreSound(params: seq<SchemaField>, e: Entity, demand: ListQueryDemand)
    requires IsSound(params, e, demand)
    ensures var r := DateBounds(params, e, demand);
            IsSound(r, e, demand) && params <= r && |r| <= |params| + 2
  {
    hide IsSound, IsDate, DateColumn, DateBase;
    DateColumnIsDate(e.columns);
    var date := DateColumn(e.columns);
    if demand.dateRange && date.Some? {
      var base := DateBase(date.value.name);
      PushIsSound(params, base + "_from", "string", e, demand, date.value);
      PushIsSound(PushField(params, base + "_from", "string"), base + "_to", "string", e, demand, date.value);
    }
  }

  /** Every filter is grounded in a column with that column's own type, no name is documented
      twice, and each foreign key within the allowance is a filter. */
  lemma QueryParamsAreSound(e: Entity, demand: ListQueryDemand)
    ensures var r, fks := QueryParams(e, demand), ForeignKeys(e.columns);
            && IsSound(r, e, demand)
            && |r| <= 6 + demand.maxFkFilters
            && (forall k :: 0 <= k < |fks| && k < demand.maxFkFilters ==> HasName(r, fks[k].name))
  {
    hide IsSound, IsForeignKey, HasName, SearchAndStatus, DateBounds;
    var fks := ForeignKeys(e.columns);
    SearchAndStatusAreSound(e, demand);
    DateBoundsAreSound(SearchAndStatus(e, demand), e, demand);
    FksAreSound(DateBounds(SearchAndStatus(e, demand), e, demand), fks, AtMost(demand.maxFkFilters, |fks|), e, demand);
  }
}
