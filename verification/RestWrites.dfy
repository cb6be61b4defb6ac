/** What the generated write endpoints accept. */
module RestWrites {
  import opened Collections
  import opened Schema
  import opened RestApi

  /** Exactly the columns a client owns, each with its type and whether it must be given. */
  lemma {:induction false} WritableFieldsExact(columns: seq<Column>, except: Option<string>)
    ensures forall f :: f in WritableFields(columns, except) <==>
              exists c :: c in columns && f == FieldOf(c) && !IsServerManaged(c.name) && except != Some(c.name)
  {
    hide IsServerManaged;
    if columns != [] {
      WritableFieldsExact(columns[1..], except);
      assert columns == [columns[0]] + columns[1..];
    }
  }

  /** Only a read may name a field the server manages. */
  predicate IsClientWrite(e: ApiEndpoint) {
    e.verb != GET ==> forall f :: f in e.requestSchema ==> !IsServerManaged(f.name)
  }

  predicate AreClientWrites(es: seq<ApiEndpoint>) { forall i :: 0 <= i < |es| ==> IsClientWrite(es[i]) }

  predicate IsWriteSafe(t: Table<ApiModule>) { forall i :: 0 <= i < |t| ==> AreClientWrites(t[i].value.endpoints) }

  lemma EntityWrites(e: Entity, demand: ListQueryDemand)
    ensures AreClientWrites(EntityEndpoints(e, demand))
  {
    hide IsServerManaged, QueryParams, WritableFields, ResponseFields;
    WritableFieldsExact(e.columns, None);
  }

  lemma JunctionWrites(e: Entity, parent: string)
    ensures AreClientWrites(JunctionEndpoints(e, parent))
  {
    hide IsServerManaged, WritableFields, ResponseFields, LinkColumn, OtherSide, ParentKey;
    WritableFieldsExact(e.columns, ParentKey(e, parent));
  }

  lemma PutWrites(t: Table<ApiModule>, key: string, m: ApiModule)
    requires IsWriteSafe(t) && AreClientWrites(m.endpoints)
    ensures IsWriteSafe(Put(t, key, m))
  {
    hide AreClientWrites;
  }

  lemma AddWrites(t: Table<ApiModule>, key: string, extra: seq<ApiEndpoint>)
    requires IsWriteSafe(t) && Has(t, key) && AreClientWrites(extra)
    ensures IsWriteSafe(AddEndpoints(t, key, extra))
  {
    hide IsClientWrite;
    var m := t[Position(t, key)].value;
    PutWrites(t, key, m.(endpoints := m.endpoints + extra));
  }

  lemma {:induction false} TopLevelWrites(all: seq<Entity>, inScope: set<string>, scope: seq<Entity>, qs: Option<QueryScope>, n: nat)
    requires n <= |scope|
    ensures IsWriteSafe(TopLevel(all, inScope, scope, qs, n))
  {
    hide IsNested, AreClientWrites, EntityEndpoints, DemandFor, Put;
    if n > 0 {
      TopLevelWrites(all, inScope, scope, qs, n - 1);
      var e := scope[n - 1];
      EntityWrites(e, DemandFor(qs, e));
      PutWrites(TopLevel(all, inScope, scope, qs, n - 1), e.name, EntityModule(e, DemandFor(qs, e)));
    }
  }

  lemma {:induction false} NestWrites(all: seq<Entity>, inScope: set<string>, scope: seq<Entity>, qs: Option<QueryScope>,
                                      start: Groups, n: nat)
    requires n <= |scope| && IsWriteSafe(start.modules)
    ensures IsWriteSafe(Nest(all, inScope, scope, qs, start, n).modules)
  {
    hide IsNested, BuiltParent, AreClientWrites, EntityEndpoints, JunctionEndpoints, JunctionReason, AddEndpoints, DemandFor, Put, IsWriteSafe;
    if n > 0 {
      NestWrites(all, inScope, scope, qs, start, n - 1);
      var g, e := Nest(all, inScope, scope, qs, start, n - 1), scope[n - 1];
      var parent := BuiltParent(all, inScope, e);
      EntityWrites(e, DemandFor(qs, e));
      PutWrites(g.modules, e.name, EntityModule(e, DemandFor(qs, e)));
      if parent.Some? && Has(g.modules, parent.value) {
        JunctionWrites(e, parent.value);
        AddWrites(g.modules, parent.value, JunctionEndpoints(e, parent.value));
      }
    }
  }

  lemma ReadWritesNothing(e: ApiEndpoint)
    requires e.verb == GET
    ensures AreClientWrites([e])
  {
    hide IsServerManaged;
  }

  lemma ChildWrites(t: Table<ApiModule>, parent: string, e: Entity, demand: ListQueryDemand)
    requires IsWriteSafe(t) && Has(t, parent)
    ensures IsWriteSafe(AddEndpoints(t, parent, [ChildCollectionEndpoint(e, parent, demand)]))
  {
    hide IsWriteSafe, AreClientWrites, AddEndpoints, QueryParams, FieldsExcept, ResponseFields, Has;
    ReadWritesNothing(ChildCollectionEndpoint(e, parent, demand));
    AddWrites(t, parent, [ChildCollectionEndpoint(e, parent, demand)]);
  }

  lemma {:induction false} ChildrenWrites(all: seq<Entity>, inScope: set<string>, scope: seq<Entity>, qs: Option<QueryScope>,
                                          start: Table<ApiModule>, n: nat)
    requires n <= |scope| && IsWriteSafe(start)
    ensures IsWriteSafe(Children(all, inScope, scope, qs, start, n))
  {
    hide IsNested, BuiltParent, ChildCollectionEndpoint, AddEndpoints, DemandFor, IsWriteSafe, Has;
    if n > 0 {
      ChildrenWrites(all, inScope, scope, qs, start, n - 1);
      var t, e := Children(all, inScope, scope, qs, start, n - 1), scope[n - 1];
      var parent := BuiltParent(all, inScope, e);
      if parent.Some? && Has(t, parent.value) {
        ChildWrites(t, parent.value, e, DemandFor(qs, e));
      }
    }
  }

  /** No write endpoint of a generated API, nested or not, accepts a field the server manages,
      whatever the schema. */
  lemma BuildAcceptsOnlyClientFields(db: DatabaseDesign, only: Option<seq<string>>, qs: Option<QueryScope>)
    ensures IsWriteSafe(BuiltGroups(db, only, qs).modules)
  {
    hide IsWriteSafe, TopLevel, Nest, Children, Scope, NamesOf;
    var all, scope := db.entities, Scope(db.entities, only);
    var inScope := NamesOf(scope);
    var top := TopLevel(all, inScope, scope, qs, |scope|);
    TopLevelWrites(all, inScope, scope, qs, |scope|);
    NestWrites(all, inScope, scope, qs, Groups(top, []), |scope|);
    ChildrenWrites(all, inScope, scope, qs, Nest(all, inScope, scope, qs, Groups(top, []), |scope|).modules, |scope|);
  }
}
