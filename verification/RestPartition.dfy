/** What the builder guarantees about its groups: they split the scope, and own their paths. */
module RestPartition {
  import opened Text
  import opened Collections
  import opened Schema
  import opened Coverage
  import opened Merge
  import opened RestApi

  /** `path` is `base`, or continues it with a path parameter. */
  predicate Under(base: string, path: string) {
    path == base || base + "/:" <= path
  }

  /** The group of entity `key`, not stamped yet: it serves that entity alone, on its own paths. */
  predicate GoodModule(key: string, m: ApiModule) {
    && m.name == Capitalize(key)
    && m.basePath == BasePath(key)
    && m.coveredEntities == Some([key])
    && m.source == None
    && forall i :: 0 <= i < |m.endpoints| ==> Under(m.basePath, m.endpoints[i].path)
  }

  predicate GoodTable(t: Table<ApiModule>) {
    && UniqueKeys(t)
    && forall i :: 0 <= i < |t| ==> GoodModule(t[i].key, t[i].value)
  }

  lemma EntityModuleIsGood(e: Entity, demand: ListQueryDemand)
    ensures GoodModule(e.name, EntityModule(e, demand))
  {
    assert BasePath(e.name) + "/:id" == BasePath(e.name) + "/:" + "id";
  }

  lemma NestedIsUnder(parent: string, rest: string)
    ensures Under(BasePath(parent), NestedPath(parent, rest))
  {
    assert NestedPath(parent, rest) == BasePath(parent) + "/:" + ("id/" + rest);
  }

  lemma JunctionIsUnder(e: Entity, parent: string, i: nat)
    requires i < |JunctionEndpoints(e, parent)|
    ensures Under(BasePath(parent), JunctionEndpoints(e, parent)[i].path)
  {
    NestedIsUnder(parent, e.name);
    var tail := "/:" + LinkColumn(e, parent);
    NestedIsUnder(parent, e.name + tail);
    assert NestedPath(parent, e.name) + "/:" + LinkColumn(e, parent) == NestedPath(parent, e.name + tail);
  }

  lemma ChildIsUnder(e: Entity, parent: string, demand: ListQueryDemand)
    ensures Under(BasePath(parent), ChildCollectionEndpoint(e, parent, demand).path)
  {
    NestedIsUnder(parent, e.name);
  }

  lemma PutGood(t: Table<ApiModule>, key: string, m: ApiModule)
    requires GoodTable(t) && GoodModule(key, m)
    ensures GoodTable(Put(t, key, m)) && KeySet(Put(t, key, m)) == KeySet(t) + {key}
  {
    PutKeepsKeys(t, key, m);
  }

  lemma AddEndpointsGood(t: Table<ApiModule>, key: string, extra: seq<ApiEndpoint>)
    requires GoodTable(t) && Has(t, key)
    requires forall i :: 0 <= i < |extra| ==> Under(BasePath(key), extra[i].path)
    ensures GoodTable(AddEndpoints(t, key, extra)) && KeySet(AddEndpoints(t, key, extra)) == KeySet(t)
  {
    var m := t[Position(t, key)].value;
    var more := m.(endpoints := m.endpoints + extra);
    forall i | 0 <= i < |more.endpoints| ensures Under(more.basePath, more.endpoints[i].path) {
      if i >= |m.endpoints| { assert more.endpoints[i] == extra[i - |m.endpoints|]; }
    }
    PutGood(t, key, more);
    HasIff(t, key);
  }

  // ---------- the three passes ----------

  function TopNames(all: seq<Entity>, inScope: set<string>, scope: seq<Entity>, n: nat): set<string>
    requires n <= |scope|
  {
    set i | 0 <= i < n && !IsNested(all, inScope, scope[i]) :: scope[i].name
  }

  function NestedNames(all: seq<Entity>, inScope: set<string>, scope: seq<Entity>, n: nat): set<string>
    requires n <= |scope|
  {
    set i | 0 <= i < n && IsNested(all, inScope, scope[i]) :: scope[i].name
  }

  lemma NamesStep(all: seq<Entity>, inScope: set<string>, scope: seq<Entity>, n: nat)
    requires 0 < n <= |scope|
    ensures var e := scope[n - 1]; var nested := IsNested(all, inScope, e);
            && TopNames(all, inScope, scope, n)
               == TopNames(all, inScope, scope, n - 1) + (if nested then {} else {e.name})
            && NestedNames(all, inScope, scope, n)
               == NestedNames(all, inScope, scope, n - 1) + (if nested then {e.name} else {})
  {
  }

  lemma NamesStart(all: seq<Entity>, inScope: set<string>, scope: seq<Entity>)
    ensures TopNames(all, inScope, scope, 0) == {} == NestedNames(all, inScope, scope, 0)
  {
  }

  lemma {:induction false} TopLevelGood(all: seq<Entity>, inScope: set<string>, scope: seq<Entity>, qs: Option<QueryScope>, n: nat)
    requires n <= |scope|
    ensures var t := TopLevel(all, inScope, scope, qs, n);
            GoodTable(t) && KeySet(t) == TopNames(all, inScope, scope, n)
  {
    hide EntityModule, IsNested, DemandFor, TopNames, NestedNames;
    if n == 0 {
      NamesStart(all, inScope, scope);
    } else {
      TopLevelGood(all, inScope, scope, qs, n - 1);
      var t, e := TopLevel(all, inScope, scope, qs, n - 1), scope[n - 1];
      NamesStep(all, inScope, scope, n);
      if !IsNested(all, inScope, e) {
        EntityModuleIsGood(e, DemandFor(qs, e));
        PutGood(t, e.name, EntityModule(e, DemandFor(qs, e)));
      }
    }
  }

  predicate DistinctEntities(es: seq<Entity>) {
    forall i, j :: 0 <= i < j < |es| ==> es[i].name != es[j].name
  }

  predicate DistinctExcluded(es: seq<ExcludedEntity>) {
    forall i, j :: 0 <= i < j < |es| ==> es[i].entity != es[j].entity
  }

  /** Groups and reasoned exclusions account for exactly `names`. */
  predicate Places(g: Groups, names: set<string>) {
    && GoodTable(g.modules)
    && KeySet(g.modules) + EntitiesOf(g.excluded) == names
    && forall i :: 0 <= i < |g.excluded| ==> IsJustified(g.excluded[i]) && IsTrimmed(g.excluded[i].reason)
  }

  /** And for each of them in one way. */
  predicate Accounts(g: Groups, names: set<string>) {
    && Places(g, names)
    && KeySet(g.modules) !! EntitiesOf(g.excluded)
    && DistinctExcluded(g.excluded)
  }

  lemma ReasonIsJustified(e: Entity, parent: string, group: ApiModule)
    ensures var r := JunctionReason(e, parent, group);
            IsTrimmed(r) && Trim(r) == r && IsJustified(ExcludedEntity(e.name, r))
  {
    var r := JunctionReason(e, parent, group);
    assert r[0] == 'J' && r[|r| - 1] == '.';
    TrimOfTrimmed(r);
  }

  lemma NestOnePlaces(all: seq<Entity>, inScope: set<string>, e: Entity, qs: Option<QueryScope>, g: Groups, names: set<string>)
    requires Places(g, names) && IsNested(all, inScope, e)
    ensures Places(NestOne(all, inScope, e, qs, g), names + {e.name})
    ensures var after := NestOne(all, inScope, e, qs, g);
            || (KeySet(after.modules) == KeySet(g.modules) && |after.excluded| == |g.excluded| + 1
                && after.excluded[..|g.excluded|] == g.excluded && after.excluded[|g.excluded|].entity == e.name)
            || (KeySet(after.modules) == KeySet(g.modules) + {e.name} && after.excluded == g.excluded)
  {
    hide GoodTable, IsJustified, IsTrimmed, JunctionReason, EntityModule, JunctionEndpoints, BuiltParent;
    var parent := BuiltParent(all, inScope, e).value;
    if Has(g.modules, parent) {
      var group := g.modules[Position(g.modules, parent)].value;
      forall i | 0 <= i < |JunctionEndpoints(e, parent)|
        ensures Under(BasePath(parent), JunctionEndpoints(e, parent)[i].path)
      {
        JunctionIsUnder(e, parent, i);
      }
      AddEndpointsGood(g.modules, parent, JunctionEndpoints(e, parent));
      ReasonIsJustified(e, parent, group);
      AppendedEntities(g.excluded, ExcludedEntity(e.name, JunctionReason(e, parent, group)));
    } else {
      EntityModuleIsGood(e, DemandFor(qs, e));
      PutGood(g.modules, e.name, EntityModule(e, DemandFor(qs, e)));
    }
  }

  lemma NestOneAccounts(all: seq<Entity>, inScope: set<string>, e: Entity, qs: Option<QueryScope>, g: Groups, names: set<string>)
    requires Accounts(g, names) && e.name !in names && IsNested(all, inScope, e)
    ensures Accounts(NestOne(all, inScope, e, qs, g), names + {e.name})
  {
    hide GoodTable, IsJustified, IsTrimmed, NestOne, IsNested;
    NestOnePlaces(all, inScope, e, qs, g, names);
    var after := NestOne(all, inScope, e, qs, g);
    forall i | 0 <= i < |g.excluded| ensures g.excluded[i].entity != e.name {
      assert g.excluded[i].entity in EntitiesOf(g.excluded);
    }
    if after.excluded != g.excluded {
      assert after.excluded == g.excluded + [after.excluded[|g.excluded|]];
      AppendedEntities(g.excluded, after.excluded[|g.excluded|]);
    }
  }

  lemma NestedIsNew(all: seq<Entity>, inScope: set<string>, scope: seq<Entity>, n: nat)
    requires 0 < n <= |scope| && DistinctEntities(scope) && IsNested(all, inScope, scope[n - 1])
    ensures scope[n - 1].name !in TopNames(all, inScope, scope, |scope|) + NestedNames(all, inScope, scope, n - 1)
  {
    hide IsNested;
  }

  lemma {:induction false} NestPlaces(all: seq<Entity>, inScope: set<string>, scope: seq<Entity>, qs: Option<QueryScope>,
                                      start: Groups, n: nat)
    requires n <= |scope| && Places(start, TopNames(all, inScope, scope, |scope|))
    ensures Places(Nest(all, inScope, scope, qs, start, n),
                   TopNames(all, inScope, scope, |scope|) + NestedNames(all, inScope, scope, n))
  {
    hide IsNested, NestOne, Places, TopNames, NestedNames;
    var top := TopNames(all, inScope, scope, |scope|);
    if n == 0 {
      NamesStart(all, inScope, scope);
      assert top + {} == top;
    } else {
      NestPlaces(all, inScope, scope, qs, start, n - 1);
      NamesStep(all, inScope, scope, n);
      var e, before := scope[n - 1], NestedNames(all, inScope, scope, n - 1);
      var after := NestedNames(all, inScope, scope, n);
      if IsNested(all, inScope, e) {
        NestOnePlaces(all, inScope, e, qs, Nest(all, inScope, scope, qs, start, n - 1), top + before);
        assert top + after == top + before + {e.name};
      } else {
        assert after == before;
      }
    }
  }

  lemma StartAccounts(t: Table<ApiModule>)
    requires GoodTable(t)
    ensures Accounts(Groups(t, []), KeySet(t))
  {
    assert EntitiesOf([]) == {};
  }

  lemma {:induction false} NestAccounts(all: seq<Entity>, inScope: set<string>, scope: seq<Entity>, qs: Option<QueryScope>,
                                        start: Groups, n: nat)
    requires n <= |scope| && DistinctEntities(scope) && Accounts(start, TopNames(all, inScope, scope, |scope|))
    ensures Accounts(Nest(all, inScope, scope, qs, start, n),
                     TopNames(all, inScope, scope, |scope|) + NestedNames(all, inScope, scope, n))
  {
    hide IsNested, NestOne, Accounts, TopNames, NestedNames, DistinctEntities;
    var top := TopNames(all, inScope, scope, |scope|);
    if n == 0 {
      NamesStart(all, inScope, scope);
      assert top + {} == top;
    } else {
      NestAccounts(all, inScope, scope, qs, start, n - 1);
      NamesStep(all, inScope, scope, n);
      var e, before := scope[n - 1], NestedNames(all, inScope, scope, n - 1);
      var after := NestedNames(all, inScope, scope, n);
      if IsNested(all, inScope, e) {
        NestedIsNew(all, inScope, scope, n);
        NestOneAccounts(all, inScope, e, qs, Nest(all, inScope, scope, qs, start, n - 1), top + before);
        assert top + after == top + before + {e.name};
      } else {
        assert after == before;
      }
    }
  }

  lemma {:induction false} ChildrenGood(all: seq<Entity>, inScope: set<string>, scope: seq<Entity>, qs: Option<QueryScope>,
                                        start: Table<ApiModule>, n: nat)
    requires n <= |scope| && GoodTable(start)
    ensures var t := Children(all, inScope, scope, qs, start, n); GoodTable(t) && KeySet(t) == KeySet(start)
  {
    hide IsNested, BuiltParent, AddEndpoints, ChildCollectionEndpoint, DemandFor;
    if n > 0 {
      ChildrenGood(all, inScope, scope, qs, start, n - 1);
      var t, e := Children(all, inScope, scope, qs, start, n - 1), scope[n - 1];
      var parent := BuiltParent(all, inScope, e);
      if !IsNested(all, inScope, e) && parent.Some? && Has(t, parent.value) {
        ChildIsUnder(e, parent.value, DemandFor(qs, e));
        AddEndpointsGood(t, parent.value, [ChildCollectionEndpoint(e, parent.value, DemandFor(qs, e))]);
      }
    }
  }

  // ---------- the scope ----------

  predicate InScope(e: Entity, only: Option<seq<string>>) {
    only.None? || e.name in only.value
  }

  lemma {:induction false} ScopeExact(all: seq<Entity>, only: Option<seq<string>>)
    ensures forall e :: e in Scope(all, only) <==> e in all && InScope(e, only)
    ensures DistinctEntities(all) ==> DistinctEntities(Scope(all, only))
  {
    if all != [] {
      ScopeExact(all[1..], only);
      assert all == [all[0]] + all[1..];
      if DistinctEntities(all) {
        var rest := Scope(all[1..], only);
        forall i | 0 <= i < |rest| ensures rest[i].name != all[0].name {
          assert rest[i] in all[1..];
        }
      }
    }
  }

  lemma NamesSplit(all: seq<Entity>, inScope: set<string>, scope: seq<Entity>)
    ensures TopNames(all, inScope, scope, |scope|) + NestedNames(all, inScope, scope, |scope|) == NamesOf(scope)
  {
    forall x | x in NamesOf(scope)
      ensures x in TopNames(all, inScope, scope, |scope|) + NestedNames(all, inScope, scope, |scope|)
    {
      var i :| 0 <= i < |scope| && scope[i].name == x;
      assert x == scope[i].name;
    }
  }

  /** Whatever the schema, repeated names included: every in-scope name gets a group or a reasoned
      exclusion, and nothing else does. */
  lemma BuildPlacesScope(db: DatabaseDesign, only: Option<seq<string>>, qs: Option<QueryScope>)
    ensures Places(BuiltGroups(db, only, qs), NamesOf(Scope(db.entities, only)))
  {
    hide Nest, TopLevel, Children, GoodTable, Scope, NamesOf, TopNames, NestedNames, IsJustified, IsTrimmed;
    var all, scope := db.entities, Scope(db.entities, only);
    var inScope := NamesOf(scope);
    var top := TopLevel(all, inScope, scope, qs, |scope|);
    TopLevelGood(all, inScope, scope, qs, |scope|);
    StartAccounts(top);
    NestPlaces(all, inScope, scope, qs, Groups(top, []), |scope|);
    NamesSplit(all, inScope, scope);
    var g := Nest(all, inScope, scope, qs, Groups(top, []), |scope|);
    ChildrenGood(all, inScope, scope, qs, g.modules, |scope|);
  }

  /** Every in-scope entity gets exactly one group or exactly one reasoned exclusion, also when
      a junction's parent is itself a junction; and every group stays on its own paths. */
  lemma BuildPartitionsScope(db: DatabaseDesign, only: Option<seq<string>>, qs: Option<QueryScope>)
    requires DistinctEntities(db.entities)
    ensures Accounts(BuiltGroups(db, only, qs), NamesOf(Scope(db.entities, only)))
  {
    var all, scope := db.entities, Scope(db.entities, only);
    var inScope := NamesOf(scope);
    ScopeExact(all, only);
    var top := TopLevel(all, inScope, scope, qs, |scope|);
    TopLevelGood(all, inScope, scope, qs, |scope|);
    StartAccounts(top);
    NestAccounts(all, inScope, scope, qs, Groups(top, []), |scope|);
    NamesSplit(all, inScope, scope);
    var g := Nest(all, inScope, scope, qs, Groups(top, []), |scope|);
    ChildrenGood(all, inScope, scope, qs, g.modules, |scope|);
  }
}
