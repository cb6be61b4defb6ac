/** The endpoints of a deterministic build, written out: which there are, what each accepts
    and what it returns. */
module RestContract {
  import opened Text
  import opened Collections
  import opened Schema
  import opened RestApi
  import opened QueryOffers

  // ---------- fields ----------

  /** A column as a field: the same name and type, required unless the column may be empty. */
  function Shown(c: Column): SchemaField {
    SchemaField(c.name, c.columnType, if c.nullable then false else true)
  }

  /** The fields show exactly these columns, in order. */
  predicate Shows(fields: seq<SchemaField>, columns: seq<Column>) {
    |fields| == |columns| && forall i :: 0 <= i < |fields| ==> fields[i] == Shown(columns[i])
  }

  /** The columns a client owns, but for the one named `except`. */
  function Owned(columns: seq<Column>, except: Option<string>): seq<Column> {
    Kept(columns, (c: Column) => IsClientColumn(c) && except != Some(c.name))
  }

  lemma ResponseShowsAll(columns: seq<Column>)
    ensures Shows(ResponseFields(columns), columns)
  {
  }

  lemma {:induction false} WritableShowsOwned(columns: seq<Column>, except: Option<string>)
    ensures Shows(WritableFields(columns, except), Owned(columns, except))
  {
    hide IsServerManaged, IsClientColumn;
    if columns != [] {
      WritableShowsOwned(columns[1..], except);
      OwnedIff(columns[0]);
    }
  }

  // ---------- keys of a child table ----------

  predicate IsKeyTo(c: Column, table: string) {
    table != "" && c.references.Some? && c.references.value.entity == table
  }

  predicate IsKeyElsewhere(c: Column, table: string) {
    c.references.Some? && c.references.value.entity !in ["", table]
  }

  /** The column by which the child names its parent: its first key to it. */
  function ParentColumn(e: Entity, parent: string): Option<string> {
    var keys := Kept(e.columns, (c: Column) => IsKeyTo(c, parent));
    if keys == [] then None else Some(keys[0].name)
  }

  /** The path parameter of a link: the first key that leads on to another side. */
  function LinkParameter(e: Entity, parent: string): string {
    var keys := Kept(e.columns, (c: Column) => IsKeyElsewhere(c, parent));
    if keys == [] then "linkId" else keys[0].name
  }

  lemma {:induction false} FirstKeyIsFirst(columns: seq<Column>, test: Column -> bool, keep: Column -> bool)
    requires forall c :: keep(c) <==> IsForeignKey(c) && test(c)
    ensures var found, kept := FindColumn(ForeignKeys(columns), test), Kept(columns, keep);
            found == if kept == [] then None else Some(kept[0])
  {
    hide IsForeignKey;
    if columns != [] {
      var first, rest := columns[0], columns[1..];
      FirstKeyIsFirst(rest, test, keep);
      if IsForeignKey(first) {
        assert ForeignKeys(columns) == [first] + ForeignKeys(rest);
        FindCons(first, ForeignKeys(rest), test);
      } else {
        assert ForeignKeys(columns) == ForeignKeys(rest);
      }
      KeptCons(first, rest, keep);
      assert columns == [first] + rest;
    }
  }

  lemma ParentKeyIsFirst(e: Entity, parent: string)
    ensures ParentKey(e, parent) == ParentColumn(e, parent)
  {
    FirstKeyIsFirst(e.columns, (c: Column) => c.references.Some? && c.references.value.entity == parent, (c: Column) => IsKeyTo(c, parent));
  }

  lemma LinkColumnIsFirst(e: Entity, parent: string)
    ensures LinkColumn(e, parent) == LinkParameter(e, parent)
  {
    FirstKeyIsFirst(e.columns, (c: Column) => c.references.Some? && c.references.value.entity != parent, (c: Column) => IsKeyElsewhere(c, parent));
  }

  // ---------- whose child a table is ----------

  predicate IsTable(all: seq<Entity>, name: string) { exists k :: 0 <= k < |all| && all[k].name == name }

  /** A key that leads to another known table. */
  predicate IsOutward(all: seq<Entity>, e: Entity, c: Column) {
    c.references.Some? && c.references.value.entity !in ["", e.name] && IsTable(all, c.references.value.entity)
  }

  /** A table hangs off the target of its first key to another known table. */
  function ParentTable(all: seq<Entity>, e: Entity): Option<string> {
    var keys := Kept(e.columns, (c: Column) => IsOutward(all, e, c));
    if keys == [] || keys[0].references.None? then None else Some(keys[0].references.value.entity)
  }

  /** A table that is nothing but a link: at least two keys, and besides them only what the server keeps. */
  predicate IsLinkTable(e: Entity) {
    && |Kept(e.columns, (c: Column) => IsKey(c))| >= 2
    && forall j :: 0 <= j < |e.columns| ==> IsKey(e.columns[j]) || e.columns[j].primaryKey || !IsClientColumn(e.columns[j])
  }

  lemma LinkTableIff(e: Entity)
    ensures IsJunctionEntity(e) <==> IsLinkTable(e)
  {
    hide IsServerManaged, IsClientColumn, IsForeignKey, IsKey;
    KeysAreKept(e.columns);
    forall c: Column ensures (IsServerManaged(c.name) <==> !IsClientColumn(c)) && (IsForeignKey(c) <==> IsKey(c)) {
      OwnedIff(c);
      KeyIff(c);
    }
  }

  lemma KeyIff(c: Column)
    ensures IsForeignKey(c) <==> IsKey(c)
  {
  }

  lemma OutwardIff(all: seq<Entity>, e: Entity, c: Column)
    ensures IsOutward(all, e, c) <==>
              IsForeignKey(c) && c.references.value.entity != e.name && ByName(all, c.references.value.entity).Some?
  {
    if IsForeignKey(c) && ByName(all, c.references.value.entity).Some? {
      var p := ByName(all, c.references.value.entity).value;
      var k :| 0 <= k < |all| && all[k] == p;
      assert IsTable(all, c.references.value.entity);
    }
  }

  lemma ParentAmongStep(all: seq<Entity>, e: Entity, c: Column, rest: seq<Column>)
    requires IsForeignKey(c) && forall i :: 0 <= i < |rest| ==> IsForeignKey(rest[i])
    ensures ParentAmong(all, e, [c] + rest) ==
              if IsOutward(all, e, c) then ByName(all, c.references.value.entity) else ParentAmong(all, e, rest)
  {
    hide IsOutward, IsTable;
    OutwardIff(all, e, c);
    assert ([c] + rest)[1..] == rest;
  }

  lemma NoParentAmong(all: seq<Entity>, e: Entity)
    ensures ParentAmong(all, e, []) == None
  {
  }

  lemma {:induction false} ParentAmongKeys(all: seq<Entity>, e: Entity, columns: seq<Column>)
    ensures var parent, keys := ParentAmong(all, e, ForeignKeys(columns)), Kept(columns, (c: Column) => IsOutward(all, e, c));
            && (parent.None? <==> keys == [])
            && (keys != [] ==> keys[0].references.Some? && parent.value.name == keys[0].references.value.entity)
  {
    hide IsOutward, ParentAmong;
    NoParentAmong(all, e);
    if columns != [] {
      var c, rest := columns[0], columns[1..];
      ParentAmongKeys(all, e, rest);
      OutwardIff(all, e, c);
      KeptCons(c, rest, (x: Column) => IsOutward(all, e, x));
      assert columns == [c] + rest;
      if IsForeignKey(c) {
        assert ForeignKeys(columns) == [c] + ForeignKeys(rest);
        ParentAmongStep(all, e, c, ForeignKeys(rest));
      } else {
        assert ForeignKeys(columns) == ForeignKeys(rest);
      }
    }
  }

  lemma ParentIs(all: seq<Entity>, e: Entity)
    ensures ParentTable(all, e) == match ParentOf(all, e) case Some(p) => Some(p.name) case None => None
  {
    hide IsOutward, ParentAmong;
    ParentAmongKeys(all, e, e.columns);
  }

  // ---------- one endpoint ----------

  predicate Answers(ep: ApiEndpoint, verb: HttpMethod, path: string, codes: seq<int>, summary: string) {
    ep.verb == verb && ep.path == path && ep.statusCodes == codes && ep.summary == summary
  }

  /** The five endpoints of a table with a group of its own: list, create, read, replace, delete. */
  predicate IsCrud(es: seq<ApiEndpoint>, e: Entity, demand: ListQueryDemand) {
    var base, one := "/api/" + e.name, Singular(e.name);
    && |es| == 5
    && Answers(es[0], GET, base, [200], "List " + e.name + ".")
    && es[0].requestSchema == NamedOnce(Offers(e, demand)) && Shows(es[0].responseSchema, e.columns)
    && Answers(es[1], POST, base, [201, 400], "Create a " + one + ".")
    && Shows(es[1].requestSchema, Owned(e.columns, None)) && Shows(es[1].responseSchema, e.columns)
    && Answers(es[2], GET, base + "/:id", [200, 404], "Get a " + one + " by id.")
    && es[2].requestSchema == [] && Shows(es[2].responseSchema, e.columns)
    && Answers(es[3], PUT, base + "/:id", [200, 400, 404], "Update a " + one + ".")
    && Shows(es[3].requestSchema, Owned(e.columns, None)) && Shows(es[3].responseSchema, e.columns)
    && Answers(es[4], DELETE, base + "/:id", [204, 404], "Delete a " + one + ".")
    && es[4].requestSchema == [] && es[4].responseSchema == []
  }

  lemma EntityEndpointsAreCrud(e: Entity, demand: ListQueryDemand)
    ensures IsCrud(EntityEndpoints(e, demand), e, demand)
  {
    hide QueryParams, WritableFields, ResponseFields, Shows, Owned, NamedOnce, Offers, Singular;
    QueryIsOffers(e, demand);
    ResponseShowsAll(e.columns);
    WritableShowsOwned(e.columns, None);
  }

  /** What a link leads to: the target of its first key away from the parent. */
  function OtherTable(e: Entity, parent: string): string {
    var keys := Kept(e.columns, (c: Column) => IsKeyElsewhere(c, parent));
    if keys == [] || keys[0].references.None? then "the linked resource" else keys[0].references.value.entity
  }

  /** The three endpoints of a link table below its parent: list, link, unlink. */
  predicate IsLinked(es: seq<ApiEndpoint>, e: Entity, parent: string) {
    var base, one, other := "/api/" + parent + "/:id/" + e.name, Singular(parent), OtherTable(e, parent);
    && |es| == 3
    && Answers(es[0], GET, base, [200, 404], "List " + other + " linked to a " + one + ".")
    && es[0].requestSchema == [] && Shows(es[0].responseSchema, e.columns)
    && Answers(es[1], POST, base, [201, 400, 404], "Link " + other + " to a " + one + ".")
    && Shows(es[1].requestSchema, Owned(e.columns, ParentColumn(e, parent))) && Shows(es[1].responseSchema, e.columns)
    && Answers(es[2], DELETE, base + "/:" + LinkParameter(e, parent), [204, 404], "Unlink " + other + " from a " + one + ".")
    && es[2].requestSchema == [] && es[2].responseSchema == []
  }

  lemma OtherSideIs(e: Entity, parent: string)
    ensures OtherSide(e, parent) == OtherTable(e, parent)
  {
    FirstKeyIsFirst(e.columns, (c: Column) => c.references.Some? && c.references.value.entity != parent, (c: Column) => IsKeyElsewhere(c, parent));
  }

  lemma NestedPathIs(parent: string, child: string)
    ensures NestedPath(parent, child) == "/api/" + parent + "/:id/" + child
  {
  }

  lemma JunctionEndpointsAreLinked(e: Entity, parent: string)
    ensures IsLinked(JunctionEndpoints(e, parent), e, parent)
  {
    hide WritableFields, ResponseFields, Shows, Owned, Singular, ParentColumn, LinkParameter;
    hide OtherTable, OtherSide, LinkColumn, ParentKey, NestedPath;
    OtherSideIs(e, parent);
    NestedPathIs(parent, e.name);
    ParentKeyIsFirst(e, parent);
    LinkColumnIsFirst(e, parent);
    ResponseShowsAll(e.columns);
    WritableShowsOwned(e.columns, ParentKey(e, parent));
    var to, from := " to a " + Singular(parent) + ".", " from a " + Singular(parent) + ".";
    assert "List " + OtherTable(e, parent) + " linked" + to == "List " + OtherTable(e, parent) + " linked to a " + Singular(parent) + ".";
  }

  /** The list of a child table below its parent: the child's own filters, but for the parent. */
  predicate IsChildList(ep: ApiEndpoint, e: Entity, parent: string, demand: ListQueryDemand) {
    && Answers(ep, GET, "/api/" + parent + "/:id/" + e.name, [200, 404], "List " + e.name + " for a " + Singular(parent) + ".")
    && ep.requestSchema == Kept(NamedOnce(Offers(e, demand)), (f: SchemaField) => ParentColumn(e, parent) != Some(f.name))
    && Shows(ep.responseSchema, e.columns)
  }

  lemma {:induction false} ExceptIsKept(fields: seq<SchemaField>, key: Option<string>)
    ensures FieldsExcept(fields, key) == Kept(fields, (f: SchemaField) => key != Some(f.name))
  {
    if fields != [] {
      ExceptIsKept(fields[1..], key);
    }
  }

  lemma ChildEndpointIsList(e: Entity, parent: string, demand: ListQueryDemand)
    ensures IsChildList(ChildCollectionEndpoint(e, parent, demand), e, parent, demand)
  {
    hide QueryParams, ResponseFields, Shows, NamedOnce, Offers, Singular, ParentColumn, ParentKey, NestedPath;
    QueryIsOffers(e, demand);
    ExceptIsKept(QueryParams(e, demand), ParentKey(e, parent));
    ParentKeyIsFirst(e, parent);
    NestedPathIs(parent, e.name);
    ResponseShowsAll(e.columns);
  }

  /** How much a list may be narrowed: without findings everything, on a small system what the
      requirements ask for. */
  function DemandOf(qs: Option<QueryScope>, e: Entity): ListQueryDemand {
    match qs
    case None => ListQueryDemand(true, true, true, 5)
    case Some(s) =>
      match s.tier
      case Small => ListQueryDemand(e.name in s.searched, true, e.name in s.dated, 2)
      case Medium => ListQueryDemand(true, true, true, 3)
      case Large => ListQueryDemand(true, true, true, 5)
  }

  lemma DemandIs(qs: Option<QueryScope>, e: Entity)
    ensures DemandFor(qs, e) == DemandOf(qs, e)
  {
  }
}
