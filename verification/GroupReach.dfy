/** Following what the tables of a schema contribute to the groups of its deterministic build. */
module GroupReach {
  import opened Collections
  import opened Schema
  import opened RestApi
  import opened RestPartition

  /** Something said of an endpoint inside the group of a table. */
  type Mark = (string, ApiEndpoint) -> bool

  /** Which tables bring marked endpoints: into their own group, nested under a parent, or as a child
      collection of one. */
  datatype Sources = Sources(own: Entity -> bool, nested: (Entity, string) -> bool, child: (Entity, string) -> bool)

  predicate HasMark(mark: Mark, key: string, es: seq<ApiEndpoint>) {
    exists i :: 0 <= i < |es| && mark(key, es[i])
  }

  /** The sources say exactly which blocks of endpoints carry the mark. */
  ghost predicate Explains(sources: Sources, mark: Mark, qs: Option<QueryScope>) {
    && (forall e: Entity :: sources.own(e) <==> HasMark(mark, e.name, EntityEndpoints(e, DemandFor(qs, e))))
    && (forall e: Entity, parent: string :: sources.nested(e, parent) <==> HasMark(mark, parent, JunctionEndpoints(e, parent)))
    && (forall e: Entity, parent: string :: sources.child(e, parent) <==>
          HasMark(mark, parent, [ChildCollectionEndpoint(e, parent, DemandFor(qs, e))]))
  }

  // ---------- read off the schema ----------

  /** The tables that have a group so far, and the groups the mark has reached. */
  datatype Reach = Reach(grouped: set<string>, reached: set<string>)
  {
    function Own(name: string, marked: bool): Reach {
      Reach(grouped + {name}, if marked then reached + {name} else reached - {name})
    }

    function Below(parent: string, marked: bool): Reach {
      if marked then this.(reached := reached + {parent}) else this
    }
  }

  /** A table outside any other has a group of its own. */
  function ReachTop(all: seq<Entity>, inScope: set<string>, scope: seq<Entity>, sources: Sources, n: nat): Reach
    requires n <= |scope|
  {
    if n == 0 then Reach({}, {})
    else
      var before, e := ReachTop(all, inScope, scope, sources, n - 1), scope[n - 1];
      if IsNested(all, inScope, e) then before else before.Own(e.name, sources.own(e))
  }

  /** A nested junction goes to its parent's group, or to its own when there is none. */
  function ReachNested(all: seq<Entity>, inScope: set<string>, scope: seq<Entity>, sources: Sources, n: nat): Reach
    requires n <= |scope|
  {
    if n == 0 then ReachTop(all, inScope, scope, sources, |scope|)
    else
      var before, e := ReachNested(all, inScope, scope, sources, n - 1), scope[n - 1];
      if !IsNested(all, inScope, e) then before
      else
        var parent := BuiltParent(all, inScope, e).value;
        if parent in before.grouped then before.Below(parent, sources.nested(e, parent)) else before.Own(e.name, sources.own(e))
  }

  /** Any other child is listed in its parent's group as well. */
  function ReachChildren(all: seq<Entity>, inScope: set<string>, scope: seq<Entity>, sources: Sources, n: nat): Reach
    requires n <= |scope|
  {
    if n == 0 then ReachNested(all, inScope, scope, sources, |scope|)
    else
      var before, e := ReachChildren(all, inScope, scope, sources, n - 1), scope[n - 1];
      var parent := BuiltParent(all, inScope, e);
      if IsNested(all, inScope, e) || parent.None? || parent.value !in before.grouped then before
      else before.Below(parent.value, sources.child(e, parent.value))
  }

  function ReachOf(db: DatabaseDesign, only: Option<seq<string>>, sources: Sources): Reach {
    var scope := Scope(db.entities, only);
    ReachChildren(db.entities, NamesOf(scope), scope, sources, |scope|)
  }

  predicate NeverOf(e: Entity) { false }

  predicate NeverBelow(e: Entity, parent: string) { false }

  /** The tables that get a group of their own. */
  function GroupedTables(db: DatabaseDesign, only: Option<seq<string>>): set<string> {
    ReachOf(db, only, Sources(NeverOf, NeverBelow, NeverBelow)).grouped
  }

  // ---------- the build follows ----------

  /** The groups are those of `r`, and the marked ones are those it reached. */
  predicate Reflects(t: Table<ApiModule>, r: Reach, mark: Mark) {
    && GoodTable(t) && KeySet(t) == r.grouped
    && forall i :: 0 <= i < |t| ==> (t[i].key in r.reached <==> HasMark(mark, t[i].key, t[i].value.endpoints))
  }

  lemma OwnReflects(t: Table<ApiModule>, r: Reach, e: Entity, sources: Sources, mark: Mark, qs: Option<QueryScope>)
    requires Reflects(t, r, mark) && Explains(sources, mark, qs)
    ensures Reflects(Put(t, e.name, EntityModule(e, DemandFor(qs, e))), r.Own(e.name, sources.own(e)), mark)
  {
    hide HasMark, EntityEndpoints, GoodModule, JunctionEndpoints, ChildCollectionEndpoint;
    EntityModuleIsGood(e, DemandFor(qs, e));
    PutGood(t, e.name, EntityModule(e, DemandFor(qs, e)));
  }

  lemma MoreMarks(mark: Mark, key: string, a: seq<ApiEndpoint>, b: seq<ApiEndpoint>)
    ensures HasMark(mark, key, a + b) <==> HasMark(mark, key, a) || HasMark(mark, key, b)
  {
    if i :| 0 <= i < |a| && mark(key, a[i]) {
      assert (a + b)[i] == a[i];
    }
    if i :| 0 <= i < |b| && mark(key, b[i]) {
      assert (a + b)[|a| + i] == b[i];
    }
  }

  lemma BelowReflects(t: Table<ApiModule>, r: Reach, parent: string, extra: seq<ApiEndpoint>, marked: bool, mark: Mark)
    requires Reflects(t, r, mark) && Has(t, parent) && (HasMark(mark, parent, extra) <==> marked)
    requires forall i :: 0 <= i < |extra| ==> Under(BasePath(parent), extra[i].path)
    ensures Reflects(AddEndpoints(t, parent, extra), r.Below(parent, marked), mark)
  {
    hide HasMark, GoodModule, BasePath, Under;
    AddEndpointsGood(t, parent, extra);
    MoreMarks(mark, parent, t[Position(t, parent)].value.endpoints, extra);
  }

  lemma {:induction false} TopReflects(all: seq<Entity>, inScope: set<string>, scope: seq<Entity>, qs: Option<QueryScope>,
                                       sources: Sources, mark: Mark, n: nat)
    requires n <= |scope| && Explains(sources, mark, qs)
    ensures Reflects(TopLevel(all, inScope, scope, qs, n), ReachTop(all, inScope, scope, sources, n), mark)
  {
    hide IsNested, EntityModule, DemandFor, Reflects, Explains;
    if n == 0 {
      NothingReflects(mark);
    } else {
      TopReflects(all, inScope, scope, qs, sources, mark, n - 1);
      OwnReflects(TopLevel(all, inScope, scope, qs, n - 1), ReachTop(all, inScope, scope, sources, n - 1), scope[n - 1], sources, mark, qs);
    }
  }

  lemma NothingReflects(mark: Mark)
    ensures Reflects([], Reach({}, {}), mark)
  {
  }

  lemma HasReflected(t: Table<ApiModule>, r: Reach, mark: Mark, name: string)
    requires Reflects(t, r, mark)
    ensures Has(t, name) <==> name in r.grouped
  {
    hide GoodModule, HasMark;
    HasIff(t, name);
  }

  lemma JunctionReflects(t: Table<ApiModule>, r: Reach, e: Entity, parent: string, sources: Sources, mark: Mark, qs: Option<QueryScope>)
    requires Reflects(t, r, mark) && Explains(sources, mark, qs) && Has(t, parent)
    ensures Reflects(AddEndpoints(t, parent, JunctionEndpoints(e, parent)), r.Below(parent, sources.nested(e, parent)), mark)
  {
    hide Reflects, HasMark, EntityEndpoints, JunctionEndpoints, ChildCollectionEndpoint, AddEndpoints, Has, Under, BasePath;
    forall i | 0 <= i < |JunctionEndpoints(e, parent)| ensures Under(BasePath(parent), JunctionEndpoints(e, parent)[i].path) {
      JunctionIsUnder(e, parent, i);
    }
    BelowReflects(t, r, parent, JunctionEndpoints(e, parent), sources.nested(e, parent), mark);
  }

  lemma ChildReflects(t: Table<ApiModule>, r: Reach, e: Entity, parent: string, sources: Sources, mark: Mark, qs: Option<QueryScope>)
    requires Reflects(t, r, mark) && Explains(sources, mark, qs) && Has(t, parent)
    ensures Reflects(AddEndpoints(t, parent, [ChildCollectionEndpoint(e, parent, DemandFor(qs, e))]),
                     r.Below(parent, sources.child(e, parent)), mark)
  {
    hide Reflects, HasMark, EntityEndpoints, JunctionEndpoints, ChildCollectionEndpoint, AddEndpoints, Has, Under, BasePath;
    ChildIsUnder(e, parent, DemandFor(qs, e));
    BelowReflects(t, r, parent, [ChildCollectionEndpoint(e, parent, DemandFor(qs, e))], sources.child(e, parent), mark);
  }

  lemma {:induction false} NestReflects(all: seq<Entity>, inScope: set<string>, scope: seq<Entity>, qs: Option<QueryScope>,
                                        sources: Sources, mark: Mark, n: nat)
    requires n <= |scope| && Explains(sources, mark, qs)
    ensures Reflects(Nest(all, inScope, scope, qs, Groups(TopLevel(all, inScope, scope, qs, |scope|), []), n).modules,
                     ReachNested(all, inScope, scope, sources, n), mark)
  {
    hide BuiltParent, EntityModule, DemandFor, Reflects, JunctionEndpoints, JunctionReason, AddEndpoints, Has, IsJunctionEntity, TopLevel, Explains;
    var start := Groups(TopLevel(all, inScope, scope, qs, |scope|), []);
    if n == 0 {
      TopReflects(all, inScope, scope, qs, sources, mark, |scope|);
    } else {
      NestReflects(all, inScope, scope, qs, sources, mark, n - 1);
      var g, e := Nest(all, inScope, scope, qs, start, n - 1), scope[n - 1];
      var r := ReachNested(all, inScope, scope, sources, n - 1);
      if IsNested(all, inScope, e) {
        var parent := BuiltParent(all, inScope, e).value;
        HasReflected(g.modules, r, mark, parent);
        if parent in r.grouped {
          JunctionReflects(g.modules, r, e, parent, sources, mark, qs);
        } else {
          OwnReflects(g.modules, r, e, sources, mark, qs);
        }
      }
    }
  }

  lemma {:induction false} ChildrenReflect(all: seq<Entity>, inScope: set<string>, scope: seq<Entity>, qs: Option<QueryScope>,
                                           sources: Sources, mark: Mark, n: nat)
    requires n <= |scope| && Explains(sources, mark, qs)
    ensures var start := Nest(all, inScope, scope, qs, Groups(TopLevel(all, inScope, scope, qs, |scope|), []), |scope|).modules;
            Reflects(Children(all, inScope, scope, qs, start, n), ReachChildren(all, inScope, scope, sources, n), mark)
  {
    hide BuiltParent, DemandFor, Reflects, ChildCollectionEndpoint, AddEndpoints, Has, IsNested, TopLevel, Nest, Explains;
    var start := Nest(all, inScope, scope, qs, Groups(TopLevel(all, inScope, scope, qs, |scope|), []), |scope|).modules;
    if n == 0 {
      NestReflects(all, inScope, scope, qs, sources, mark, |scope|);
    } else {
      ChildrenReflect(all, inScope, scope, qs, sources, mark, n - 1);
      var t, e, r := Children(all, inScope, scope, qs, start, n - 1), scope[n - 1], ReachChildren(all, inScope, scope, sources, n - 1);
      var parent := BuiltParent(all, inScope, e);
      if parent.Some? {
        HasReflected(t, r, mark, parent.value);
        if parent.value in r.grouped {
          ChildReflects(t, r, e, parent.value, sources, mark, qs);
        }
      }
    }
  }

  /** The groups of a build that carry a mark are exactly those the sources reach on the schema. */
  lemma BuildReflects(db: DatabaseDesign, only: Option<seq<string>>, qs: Option<QueryScope>, sources: Sources, mark: Mark)
    requires Explains(sources, mark, qs)
    ensures Reflects(BuiltGroups(db, only, qs).modules, ReachOf(db, only, sources), mark)
  {
    hide Reflects, TopLevel, Nest, Children, ReachChildren, Scope, NamesOf, Explains;
    var scope := Scope(db.entities, only);
    ChildrenReflect(db.entities, NamesOf(scope), scope, qs, sources, mark, |scope|);
  }

  predicate NoMark(key: string, e: ApiEndpoint) { false }

  lemma NothingExplainsNoMark(qs: Option<QueryScope>)
    ensures Explains(Sources(NeverOf, NeverBelow, NeverBelow), NoMark, qs)
  {
    hide EntityEndpoints, JunctionEndpoints, ChildCollectionEndpoint;
  }

  lemma GroupedAreKeys(db: DatabaseDesign, only: Option<seq<string>>, qs: Option<QueryScope>)
    ensures GroupedTables(db, only) == KeySet(BuiltGroups(db, only, qs).modules)
  {
    hide BuiltGroups, ReachOf, GoodTable, Explains;
    NothingExplainsNoMark(qs);
    BuildReflects(db, only, qs, Sources(NeverOf, NeverBelow, NeverBelow), NoMark);
  }

  /** A schema of one table without foreign keys: its group is the only one. */
  lemma LoneTable(db: DatabaseDesign, e: Entity, sources: Sources)
    requires db.entities == [e] && ForeignKeys(e.columns) == []
    ensures ReachOf(db, None, sources) == Reach({}, {}).Own(e.name, sources.own(e))
  {
    var es := db.entities;
    assert es[1..] == [];
    assert Scope(es, None) == [e] + Scope([], None) == es;
    assert !IsNested(es, NamesOf(es), e) && BuiltParent(es, NamesOf(es), e).None?;
    assert ReachTop(es, NamesOf(es), es, sources, 0) == Reach({}, {});
    assert ReachTop(es, NamesOf(es), es, sources, 1) == Reach({}, {}).Own(e.name, sources.own(e));
    assert ReachNested(es, NamesOf(es), es, sources, 1) == ReachNested(es, NamesOf(es), es, sources, 0);
    assert ReachChildren(es, NamesOf(es), es, sources, 1) == ReachChildren(es, NamesOf(es), es, sources, 0);
  }
}
