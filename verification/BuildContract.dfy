/** The groups of a whole deterministic build: which endpoints each has, in which order. */
module BuildContract {
  import opened Text
  import opened Collections
  import opened Schema
  import opened Merge
  import opened RestApi
  import opened RestPartition
  import opened RestContract

  // ---------- what is appended to a group ----------

  /** The links to `parent` among the first `n` tables of the scope, as far as they are excluded. */
  predicate IsLinkBelow(all: seq<Entity>, inScope: set<string>, e: Entity, excluded: set<string>, parent: string) {
    IsNested(all, inScope, e) && BuiltParent(all, inScope, e) == Some(parent) && e.name in excluded
  }

  function LinkTail(all: seq<Entity>, inScope: set<string>, scope: seq<Entity>, n: nat, excluded: set<string>, parent: string): seq<ApiEndpoint>
    requires n <= |scope|
  {
    if n == 0 then []
    else LinkTail(all, inScope, scope, n - 1, excluded, parent)
         + (if IsLinkBelow(all, inScope, scope[n - 1], excluded, parent) then JunctionEndpoints(scope[n - 1], parent) else [])
  }

  predicate IsChildBelow(all: seq<Entity>, inScope: set<string>, e: Entity, parent: string) {
    !IsNested(all, inScope, e) && BuiltParent(all, inScope, e) == Some(parent)
  }

  function ChildTail(all: seq<Entity>, inScope: set<string>, scope: seq<Entity>, n: nat, qs: Option<QueryScope>, parent: string): seq<ApiEndpoint>
    requires n <= |scope|
  {
    if n == 0 then []
    else ChildTail(all, inScope, scope, n - 1, qs, parent)
         + (if IsChildBelow(all, inScope, scope[n - 1], parent)
            then [ChildCollectionEndpoint(scope[n - 1], parent, DemandFor(qs, scope[n - 1]))] else [])
  }

  // ---------- the passes, group by group ----------

  lemma {:induction false} OwnerIs(scope: seq<Entity>, i: nat)
    requires DistinctEntities(scope) && i < |scope|
    ensures ByName(scope, scope[i].name) == Some(scope[i])
  {
    if i < |scope| - 1 {
      OwnerIs(scope[..|scope| - 1], i);
    }
  }

  /** The endpoints of a table's own group, before anything is appended. */
  function OwnEndpoints(scope: seq<Entity>, qs: Option<QueryScope>, key: string): seq<ApiEndpoint> {
    match ByName(scope, key)
    case Some(e) => EntityEndpoints(e, DemandFor(qs, e))
    case None => []
  }

  /** Each group is its own endpoints and then `tail` of its key. */
  predicate IsLaid(t: Table<ApiModule>, scope: seq<Entity>, qs: Option<QueryScope>, tail: string -> seq<ApiEndpoint>) {
    forall i :: 0 <= i < |t| ==> t[i].value.endpoints == OwnEndpoints(scope, qs, t[i].key) + tail(t[i].key)
  }

  lemma PutLays(t: Table<ApiModule>, scope: seq<Entity>, qs: Option<QueryScope>, i: nat, tail: string -> seq<ApiEndpoint>)
    requires IsLaid(t, scope, qs, tail) && DistinctEntities(scope) && i < |scope| && tail(scope[i].name) == []
    ensures IsLaid(Put(t, scope[i].name, EntityModule(scope[i], DemandFor(qs, scope[i]))), scope, qs, tail)
  {
    hide EntityEndpoints, DemandFor, ByName;
    OwnerIs(scope, i);
    assert OwnEndpoints(scope, qs, scope[i].name) + [] == OwnEndpoints(scope, qs, scope[i].name);
  }

  lemma AddLays(t: Table<ApiModule>, scope: seq<Entity>, qs: Option<QueryScope>, key: string, extra: seq<ApiEndpoint>,
                tail: string -> seq<ApiEndpoint>, after: string -> seq<ApiEndpoint>)
    requires IsLaid(t, scope, qs, tail) && UniqueKeys(t) && Has(t, key)
    requires forall k :: after(k) == if k == key then tail(k) + extra else tail(k)
    ensures IsLaid(AddEndpoints(t, key, extra), scope, qs, after)
  {
    hide OwnEndpoints;
    var p := Position(t, key);
    assert OwnEndpoints(scope, qs, key) + (tail(key) + extra) == OwnEndpoints(scope, qs, key) + tail(key) + extra;
  }

  lemma {:induction false} TopIsLaid(all: seq<Entity>, inScope: set<string>, scope: seq<Entity>, qs: Option<QueryScope>, n: nat)
    requires n <= |scope| && DistinctEntities(scope)
    ensures IsLaid(TopLevel(all, inScope, scope, qs, n), scope, qs, (key: string) => [])
  {
    hide IsNested, EntityModule, DemandFor, IsLaid;
    if n == 0 {
      EmptyIsLaid(scope, qs, (key: string) => []);
    } else {
      TopIsLaid(all, inScope, scope, qs, n - 1);
      PutLays(TopLevel(all, inScope, scope, qs, n - 1), scope, qs, n - 1, (key: string) => []);
    }
  }

  lemma EmptyIsLaid(scope: seq<Entity>, qs: Option<QueryScope>, tail: string -> seq<ApiEndpoint>)
    ensures IsLaid([], scope, qs, tail)
  {
  }

  /** A pass only adds groups and exclusions. */
  lemma {:induction false} NestGrows(all: seq<Entity>, inScope: set<string>, scope: seq<Entity>, qs: Option<QueryScope>,
                                     start: Groups, n: nat, m: nat)
    requires n <= m <= |scope|
    ensures var before, after := Nest(all, inScope, scope, qs, start, n), Nest(all, inScope, scope, qs, start, m);
            KeySet(before.modules) <= KeySet(after.modules) && EntitiesOf(before.excluded) <= EntitiesOf(after.excluded)
  {
    hide IsNested, NestOne, KeySet, EntitiesOf;
    if n < m {
      NestGrows(all, inScope, scope, qs, start, n, m - 1);
      if IsNested(all, inScope, scope[m - 1]) {
        NestOneGrows(all, inScope, scope[m - 1], qs, Nest(all, inScope, scope, qs, start, m - 1));
      }
    }
  }

  lemma NestOneGrows(all: seq<Entity>, inScope: set<string>, e: Entity, qs: Option<QueryScope>, g: Groups)
    requires IsNested(all, inScope, e)
    ensures var after, parent := NestOne(all, inScope, e, qs, g), BuiltParent(all, inScope, e).value;
            && KeySet(g.modules) <= KeySet(after.modules) && EntitiesOf(g.excluded) <= EntitiesOf(after.excluded)
            && (if Has(g.modules, parent) then e.name in EntitiesOf(after.excluded) else e.name in KeySet(after.modules))
  {
    hide EntityModule, JunctionEndpoints, JunctionReason, BuiltParent, IsJunctionEntity;
    var after, parent := NestOne(all, inScope, e, qs, g), BuiltParent(all, inScope, e).value;
    if Has(g.modules, parent) {
      AppendedEntities(g.excluded, ExcludedEntity(e.name, JunctionReason(e, parent, g.modules[Position(g.modules, parent)].value)));
      var m := g.modules[Position(g.modules, parent)].value;
      PutGrows(g.modules, parent, m.(endpoints := m.endpoints + JunctionEndpoints(e, parent)));
    } else {
      PutGrows(g.modules, e.name, EntityModule(e, DemandFor(qs, e)));
    }
  }

  lemma PutGrows<V>(t: Table<V>, k: string, v: V)
    ensures KeySet(Put(t, k, v)) == KeySet(t) + {k}
  {
    var u := Put(t, k, v);
    forall x | x in KeySet(t) ensures x in KeySet(u) {
      var i :| 0 <= i < |t| && t[i].key == x;
      assert u[i].key == x;
    }
    assert u[Position(t, k)].key == k;
  }

  /** The groups after all junctions found their place. */
  function Nested(all: seq<Entity>, inScope: set<string>, scope: seq<Entity>, qs: Option<QueryScope>, n: nat): Groups
    requires n <= |scope|
  {
    Nest(all, inScope, scope, qs, Groups(TopLevel(all, inScope, scope, qs, |scope|), []), n)
  }

  lemma NestedAccounts(all: seq<Entity>, inScope: set<string>, scope: seq<Entity>, qs: Option<QueryScope>, n: nat)
    requires n <= |scope| && DistinctEntities(scope)
    ensures Accounts(Nested(all, inScope, scope, qs, n), TopNames(all, inScope, scope, |scope|) + NestedNames(all, inScope, scope, n))
  {
    hide TopLevel, Nest, Accounts, TopNames, NestedNames, DistinctEntities;
    var top := TopLevel(all, inScope, scope, qs, |scope|);
    TopLevelGood(all, inScope, scope, qs, |scope|);
    StartAccounts(top);
    NestAccounts(all, inScope, scope, qs, Groups(top, []), n);
  }

  /** A junction is excluded in the end exactly when its parent has a group once it is its turn. */
  lemma TurnDecides(all: seq<Entity>, inScope: set<string>, scope: seq<Entity>, qs: Option<QueryScope>, n: nat)
    requires 0 < n <= |scope| && DistinctEntities(scope) && IsNested(all, inScope, scope[n - 1])
    ensures var g, final, e := Nested(all, inScope, scope, qs, n - 1), Nested(all, inScope, scope, qs, |scope|), scope[n - 1];
            && (Has(g.modules, BuiltParent(all, inScope, e).value) <==> e.name in EntitiesOf(final.excluded))
            && e.name !in KeySet(g.modules)
            && UniqueKeys(g.modules)
  {
    hide TopLevel, NestOne, IsNested, TopNames, NestedNames, DistinctEntities, KeySet, EntitiesOf, BuiltParent, GoodModule, Places;
    NestedIsNew(all, inScope, scope, n);
    NestedAccounts(all, inScope, scope, qs, n - 1);
    NestedAccounts(all, inScope, scope, qs, |scope|);
    AccountsParts(Nested(all, inScope, scope, qs, n - 1), TopNames(all, inScope, scope, |scope|) + NestedNames(all, inScope, scope, n - 1));
    NestOneGrows(all, inScope, scope[n - 1], qs, Nested(all, inScope, scope, qs, n - 1));
    NestGrows(all, inScope, scope, qs, Groups(TopLevel(all, inScope, scope, qs, |scope|), []), n, |scope|);
  }

  lemma AccountsParts(g: Groups, names: set<string>)
    requires Accounts(g, names)
    ensures UniqueKeys(g.modules) && KeySet(g.modules) <= names
  {
  }

  /** Everything excluded so far hangs off a group there is. */
  lemma {:induction false} ExcludedHaveGroups(all: seq<Entity>, inScope: set<string>, scope: seq<Entity>, qs: Option<QueryScope>, n: nat, k: nat)
    requires k < n <= |scope| && DistinctEntities(scope) && IsNested(all, inScope, scope[k])
    requires scope[k].name in EntitiesOf(Nested(all, inScope, scope, qs, |scope|).excluded)
    ensures BuiltParent(all, inScope, scope[k]).value in KeySet(Nested(all, inScope, scope, qs, n).modules)
  {
    hide TopLevel, NestOne, IsJunctionEntity, DistinctEntities, KeySet, EntitiesOf, BuiltParent;
    TurnDecides(all, inScope, scope, qs, k + 1);
    HasIff(Nested(all, inScope, scope, qs, k).modules, BuiltParent(all, inScope, scope[k]).value);
    NestGrows(all, inScope, scope, qs, Groups(TopLevel(all, inScope, scope, qs, |scope|), []), k, n);
  }

  lemma {:induction false} NoLinksYet(all: seq<Entity>, inScope: set<string>, scope: seq<Entity>, n: nat, excluded: set<string>, parent: string)
    requires n <= |scope| && forall k :: 0 <= k < n ==> !IsLinkBelow(all, inScope, scope[k], excluded, parent)
    ensures LinkTail(all, inScope, scope, n, excluded, parent) == []
  {
    hide IsLinkBelow;
    if n > 0 {
      NoLinksYet(all, inScope, scope, n - 1, excluded, parent);
    }
  }

  lemma {:induction false} NestIsLaid(all: seq<Entity>, inScope: set<string>, scope: seq<Entity>, qs: Option<QueryScope>, n: nat)
    requires n <= |scope| && DistinctEntities(scope)
    ensures var excluded := EntitiesOf(Nested(all, inScope, scope, qs, |scope|).excluded);
            IsLaid(Nested(all, inScope, scope, qs, n).modules, scope, qs, (key: string) => LinkTail(all, inScope, scope, n, excluded, key))
  {
    hide TopLevel, IsJunctionEntity, DistinctEntities, KeySet, EntitiesOf, BuiltParent, EntityModule, DemandFor, JunctionEndpoints, JunctionReason;
    hide IsLaid, Has, AddEndpoints, Put, Nest;
    var excluded := EntitiesOf(Nested(all, inScope, scope, qs, |scope|).excluded);
    if n == 0 {
      TopIsLaid(all, inScope, scope, qs, |scope|);
      NestStart(all, inScope, scope, qs);
      SameTail(Nested(all, inScope, scope, qs, 0).modules, scope, qs,
               (key: string) => [], (key: string) => LinkTail(all, inScope, scope, 0, excluded, key));
    } else {
      NestIsLaid(all, inScope, scope, qs, n - 1);
      var g, e := Nested(all, inScope, scope, qs, n - 1), scope[n - 1];
      var before := (key: string) => LinkTail(all, inScope, scope, n - 1, excluded, key);
      var after := (key: string) => LinkTail(all, inScope, scope, n, excluded, key);
      NestStep(all, inScope, scope, qs, n);
      if IsNested(all, inScope, e) {
        var parent := BuiltParent(all, inScope, e).value;
        TurnDecides(all, inScope, scope, qs, n);
        if Has(g.modules, parent) {
          AddLays(g.modules, scope, qs, parent, JunctionEndpoints(e, parent), before, after);
        } else {
          forall k | 0 <= k < n - 1 ensures !IsLinkBelow(all, inScope, scope[k], excluded, e.name) {
            if IsLinkBelow(all, inScope, scope[k], excluded, e.name) {
              ExcludedHaveGroups(all, inScope, scope, qs, n - 1, k);
            }
          }
          NoLinksYet(all, inScope, scope, n - 1, excluded, e.name);
          PutLays(g.modules, scope, qs, n - 1, before);
          SameTail(Nested(all, inScope, scope, qs, n).modules, scope, qs, before, after);
        }
      } else {
        SameTail(g.modules, scope, qs, before, after);
      }
    }
  }

  lemma NestStart(all: seq<Entity>, inScope: set<string>, scope: seq<Entity>, qs: Option<QueryScope>)
    ensures Nested(all, inScope, scope, qs, 0) == Groups(TopLevel(all, inScope, scope, qs, |scope|), [])
  {
  }

  lemma NestStep(all: seq<Entity>, inScope: set<string>, scope: seq<Entity>, qs: Option<QueryScope>, n: nat)
    requires 0 < n <= |scope|
    ensures var g, after, e := Nested(all, inScope, scope, qs, n - 1), Nested(all, inScope, scope, qs, n), scope[n - 1];
            if !IsNested(all, inScope, e) then after == g
            else
              var parent := BuiltParent(all, inScope, e).value;
              if Has(g.modules, parent) then after.modules == AddEndpoints(g.modules, parent, JunctionEndpoints(e, parent))
              else after.modules == Put(g.modules, e.name, EntityModule(e, DemandFor(qs, e)))
  {
    hide TopLevel, BuiltParent, EntityModule, DemandFor, JunctionEndpoints, JunctionReason, AddEndpoints, IsJunctionEntity;
  }

  lemma SameTail(t: Table<ApiModule>, scope: seq<Entity>, qs: Option<QueryScope>, a: string -> seq<ApiEndpoint>, b: string -> seq<ApiEndpoint>)
    requires IsLaid(t, scope, qs, a) && forall i :: 0 <= i < |t| ==> a(t[i].key) == b(t[i].key)
    ensures IsLaid(t, scope, qs, b)
  {
    hide OwnEndpoints;
  }

  // ---------- child collections ----------

  lemma {:induction false} ChildrenAreLaid(all: seq<Entity>, inScope: set<string>, scope: seq<Entity>, qs: Option<QueryScope>,
                                           start: Table<ApiModule>, n: nat, links: string -> seq<ApiEndpoint>)
    requires n <= |scope| && GoodTable(start) && IsLaid(start, scope, qs, links)
    ensures IsLaid(Children(all, inScope, scope, qs, start, n), scope, qs,
                   (key: string) => links(key) + ChildTail(all, inScope, scope, n, qs, key))
  {
    hide IsJunctionEntity, BuiltParent, ChildCollectionEndpoint, DemandFor, IsLaid, Has, AddEndpoints, GoodModule;
    var after := (key: string) => links(key) + ChildTail(all, inScope, scope, n, qs, key);
    if n == 0 {
      SameTail(start, scope, qs, links, after);
    } else {
      ChildrenAreLaid(all, inScope, scope, qs, start, n - 1, links);
      ChildrenGood(all, inScope, scope, qs, start, n - 1);
      var t, e, parent := Children(all, inScope, scope, qs, start, n - 1), scope[n - 1], BuiltParent(all, inScope, scope[n - 1]);
      var before := (key: string) => links(key) + ChildTail(all, inScope, scope, n - 1, qs, key);
      if !IsNested(all, inScope, e) && parent.Some? && Has(t, parent.value) {
        var one := [ChildCollectionEndpoint(e, parent.value, DemandFor(qs, e))];
        forall key ensures after(key) == if key == parent.value then before(key) + one else before(key) {
          assert links(key) + (ChildTail(all, inScope, scope, n - 1, qs, key) + one) == before(key) + one;
        }
        AddLays(t, scope, qs, parent.value, one, before, after);
      } else {
        forall i | 0 <= i < |t| ensures before(t[i].key) == after(t[i].key) {
          assert t[i].key in KeySet(t);
          if parent.Some? { HasIff(t, parent.value); }
        }
        SameTail(t, scope, qs, before, after);
      }
    }
  }

  // ---------- the whole build ----------

  /** Each group of a build is its table's own endpoints, then its links, then its children. */
  lemma BuildIsLaid(db: DatabaseDesign, only: Option<seq<string>>, qs: Option<QueryScope>)
    requires DistinctEntities(db.entities)
    ensures var g, all, scope := BuiltGroups(db, only, qs), db.entities, Scope(db.entities, only);
            IsLaid(g.modules, scope, qs, (key: string) =>
              LinkTail(all, NamesOf(scope), scope, |scope|, EntitiesOf(g.excluded), key) + ChildTail(all, NamesOf(scope), scope, |scope|, qs, key))
  {
    hide TopLevel, Nest, Children, IsLaid, GoodTable, Scope, NamesOf, DistinctEntities, EntitiesOf;
    var all, scope := db.entities, Scope(db.entities, only);
    var inScope := NamesOf(scope);
    ScopeExact(all, only);
    var g := Nested(all, inScope, scope, qs, |scope|);
    NestIsLaid(all, inScope, scope, qs, |scope|);
    NestedAccounts(all, inScope, scope, qs, |scope|);
    AccountsGood(g, TopNames(all, inScope, scope, |scope|) + NestedNames(all, inScope, scope, |scope|));
    var links := (key: string) => LinkTail(all, inScope, scope, |scope|, EntitiesOf(g.excluded), key);
    ChildrenAreLaid(all, inScope, scope, qs, g.modules, |scope|, links);
    BuiltFrom(db, only, qs);
    SameTail(Children(all, inScope, scope, qs, g.modules, |scope|), scope, qs,
             (key: string) => links(key) + ChildTail(all, inScope, scope, |scope|, qs, key),
             (key: string) => LinkTail(all, inScope, scope, |scope|, EntitiesOf(g.excluded), key)
                              + ChildTail(all, inScope, scope, |scope|, qs, key));
  }

  lemma BuiltFrom(db: DatabaseDesign, only: Option<seq<string>>, qs: Option<QueryScope>)
    ensures var all, scope, g := db.entities, Scope(db.entities, only), BuiltGroups(db, only, qs);
            var nested := Nested(all, NamesOf(scope), scope, qs, |scope|);
            g.excluded == nested.excluded && g.modules == Children(all, NamesOf(scope), scope, qs, nested.modules, |scope|)
  {
    hide TopLevel, Nest, Children, Scope, NamesOf;
  }

  lemma AccountsGood(g: Groups, names: set<string>)
    requires Accounts(g, names)
    ensures GoodTable(g.modules)
  {
  }

  // ---------- written out ----------

  /** The link tables managed through the group of `parent`. */
  function Links(all: seq<Entity>, scope: seq<Entity>, excluded: set<string>, parent: string): seq<Entity> {
    Kept(scope, (e: Entity) => IsLinkTable(e) && ParentTable(all, e) == Some(parent) && e.name in excluded)
  }

  /** The other tables that hang off `parent`. */
  function ChildTables(all: seq<Entity>, scope: seq<Entity>, parent: string): seq<Entity> {
    Kept(scope, (e: Entity) => !IsLinkTable(e) && ParentTable(all, e) == Some(parent))
  }

  /** The five endpoints of the table, three for each link table, one for each child, in this order. */
  predicate IsWrittenOut(es: seq<ApiEndpoint>, e: Entity, links: seq<Entity>, children: seq<Entity>, qs: Option<QueryScope>) {
    && |es| == 5 + 3 * |links| + |children|
    && IsCrud(es[..5], e, DemandOf(qs, e))
    && (forall k :: 0 <= k < |links| ==> IsLinked(es[5 + 3 * k..8 + 3 * k], links[k], e.name))
    && (forall k :: 0 <= k < |children| ==> IsChildList(es[5 + 3 * |links| + k], children[k], e.name, DemandOf(qs, children[k])))
  }

  /** The links appended to a group are exactly three endpoints for each. */
  predicate AreLinks(es: seq<ApiEndpoint>, links: seq<Entity>, parent: string) {
    |es| == 3 * |links| && forall k :: 0 <= k < |links| ==> IsLinked(es[3 * k..3 * k + 3], links[k], parent)
  }

  lemma LinksSnoc(es: seq<ApiEndpoint>, links: seq<Entity>, parent: string, e: Entity)
    requires AreLinks(es, links, parent)
    ensures AreLinks(es + JunctionEndpoints(e, parent), links + [e], parent)
  {
    hide IsLinked;
    JunctionEndpointsAreLinked(e, parent);
    LinkedAreThree(JunctionEndpoints(e, parent), e, parent);
    var all, more := es + JunctionEndpoints(e, parent), links + [e];
    forall k | 0 <= k < |more| ensures IsLinked(all[3 * k..3 * k + 3], more[k], parent) {
      if k < |links| {
        assert all[3 * k..3 * k + 3] == es[3 * k..3 * k + 3];
      } else {
        assert all[3 * k..3 * k + 3] == JunctionEndpoints(e, parent);
      }
    }
  }

  lemma LinkedAreThree(es: seq<ApiEndpoint>, e: Entity, parent: string)
    requires IsLinked(es, e, parent)
    ensures |es| == 3
  {
  }

  lemma BuiltParentIs(all: seq<Entity>, inScope: set<string>, e: Entity, parent: string)
    requires parent in inScope
    ensures BuiltParent(all, inScope, e) == Some(parent) <==> ParentTable(all, e) == Some(parent)
  {
    hide ParentTable, ParentOf;
    ParentIs(all, e);
  }

  lemma LinkBelowIff(all: seq<Entity>, inScope: set<string>, e: Entity, excluded: set<string>, parent: string)
    requires parent in inScope
    ensures IsLinkBelow(all, inScope, e, excluded, parent) <==>
              IsLinkTable(e) && ParentTable(all, e) == Some(parent) && e.name in excluded
    ensures IsChildBelow(all, inScope, e, parent) <==> !IsLinkTable(e) && ParentTable(all, e) == Some(parent)
  {
    hide ParentTable, IsLinkTable, IsJunctionEntity, BuiltParent;
    LinkTableIff(e);
    BuiltParentIs(all, inScope, e, parent);
  }

  lemma {:induction false} TailIsLinks(all: seq<Entity>, inScope: set<string>, scope: seq<Entity>, n: nat, excluded: set<string>, parent: string)
    requires n <= |scope| && parent in inScope
    ensures AreLinks(LinkTail(all, inScope, scope, n, excluded, parent), Links(all, scope[..n], excluded, parent), parent)
  {
    hide IsLinkBelow, IsLinkTable, ParentTable, IsLinked, JunctionEndpoints;
    if n == 0 {
      assert scope[..0] == [];
    } else {
      TailIsLinks(all, inScope, scope, n - 1, excluded, parent);
      var keep := (e: Entity) => IsLinkTable(e) && ParentTable(all, e) == Some(parent) && e.name in excluded;
      KeptSnoc(scope[..n - 1], scope[n - 1], keep);
      assert scope[..n] == scope[..n - 1] + [scope[n - 1]];
      LinkBelowIff(all, inScope, scope[n - 1], excluded, parent);
      var tail, links := LinkTail(all, inScope, scope, n - 1, excluded, parent), Links(all, scope[..n - 1], excluded, parent);
      if keep(scope[n - 1]) {
        LinksSnoc(tail, links, parent, scope[n - 1]);
      } else {
        assert tail + [] == tail && links + [] == links;
      }
    }
  }

  predicate AreChildren(es: seq<ApiEndpoint>, children: seq<Entity>, parent: string, qs: Option<QueryScope>) {
    |es| == |children| && forall k :: 0 <= k < |children| ==> IsChildList(es[k], children[k], parent, DemandOf(qs, children[k]))
  }

  lemma {:induction false} TailIsChildren(all: seq<Entity>, inScope: set<string>, scope: seq<Entity>, n: nat,
                                          qs: Option<QueryScope>, parent: string)
    requires n <= |scope| && parent in inScope
    ensures AreChildren(ChildTail(all, inScope, scope, n, qs, parent), ChildTables(all, scope[..n], parent), parent, qs)
  {
    hide IsChildBelow, IsLinkTable, ParentTable, IsChildList, ChildCollectionEndpoint, DemandFor, DemandOf;
    if n == 0 {
      assert scope[..0] == [];
    } else {
      TailIsChildren(all, inScope, scope, n - 1, qs, parent);
      var e := scope[n - 1];
      KeptSnoc(scope[..n - 1], e, (e: Entity) => !IsLinkTable(e) && ParentTable(all, e) == Some(parent));
      assert scope[..n] == scope[..n - 1] + [e];
      LinkBelowIff(all, inScope, e, {}, parent);
      DemandIs(qs, e);
      ChildEndpointIsList(e, parent, DemandFor(qs, e));
    }
  }

  /** Every group of a build, written out: the endpoints of its own table, what each accepts and returns,
      then those of its links and of its children. */
  lemma GroupsAreWrittenOut(db: DatabaseDesign, only: Option<seq<string>>, qs: Option<QueryScope>, i: nat) returns (e: Entity)
    requires DistinctEntities(db.entities) && i < |BuiltGroups(db, only, qs).modules|
    ensures var g, scope := BuiltGroups(db, only, qs), Scope(db.entities, only); var m := g.modules[i].value;
            && e in scope && e.name == g.modules[i].key
            && m.name == Capitalize(e.name) && m.basePath == "/api/" + e.name && m.Claims() == [e.name]
            && IsWrittenOut(m.endpoints, e, Links(db.entities, scope, EntitiesOf(g.excluded), e.name),
                            ChildTables(db.entities, scope, e.name), qs)
  {
    hide BuiltGroups, DistinctEntities, Scope, NamesOf, EntitiesOf, Links, ChildTables, LinkTail, ChildTail, EntityEndpoints;
    hide DemandFor, DemandOf, IsCrud, IsLinked, IsChildList, KeySet;
    var g, all, scope := BuiltGroups(db, only, qs), db.entities, Scope(db.entities, only);
    var inScope, m, key := NamesOf(scope), g.modules[i].value, g.modules[i].key;
    BuildIsLaid(db, only, qs);
    KeyIsInScope(db, only, qs, i);
    e := ByName(scope, key).value;
    DemandIs(qs, e);
    EntityEndpointsAreCrud(e, DemandFor(qs, e));
    CrudAreFive(EntityEndpoints(e, DemandFor(qs, e)), e, DemandFor(qs, e));
    TailIsLinks(all, inScope, scope, |scope|, EntitiesOf(g.excluded), key);
    TailIsChildren(all, inScope, scope, |scope|, qs, key);
    assert scope[..|scope|] == scope;
    PartsAreWrittenOut(m.endpoints, e, Links(all, scope, EntitiesOf(g.excluded), key), ChildTables(all, scope, key), qs,
                       EntityEndpoints(e, DemandFor(qs, e)), LinkTail(all, inScope, scope, |scope|, EntitiesOf(g.excluded), key),
                       ChildTail(all, inScope, scope, |scope|, qs, key));
  }

  lemma CrudAreFive(es: seq<ApiEndpoint>, e: Entity, demand: ListQueryDemand)
    requires IsCrud(es, e, demand)
    ensures |es| == 5
  {
  }

  lemma KeyIsInScope(db: DatabaseDesign, only: Option<seq<string>>, qs: Option<QueryScope>, i: nat)
    requires i < |BuiltGroups(db, only, qs).modules|
    ensures var scope, t := Scope(db.entities, only), BuiltGroups(db, only, qs).modules;
            t[i].key in NamesOf(scope) && ByName(scope, t[i].key).Some? && GoodModule(t[i].key, t[i].value)
  {
    hide BuiltGroups, Scope;
    BuildPlacesScope(db, only, qs);
    var scope, t := Scope(db.entities, only), BuiltGroups(db, only, qs).modules;
    assert t[i].key in KeySet(t);
    var j :| 0 <= j < |scope| && scope[j].name == t[i].key;
  }

  lemma PartsAreWrittenOut(es: seq<ApiEndpoint>, e: Entity, links: seq<Entity>, children: seq<Entity>, qs: Option<QueryScope>,
                           own: seq<ApiEndpoint>, linked: seq<ApiEndpoint>, listed: seq<ApiEndpoint>)
    requires es == own + (linked + listed) && |own| == 5
    requires IsCrud(own, e, DemandOf(qs, e)) && AreLinks(linked, links, e.name) && AreChildren(listed, children, e.name, qs)
    ensures IsWrittenOut(es, e, links, children, qs)
  {
    hide IsCrud, IsLinked, IsChildList, DemandOf;
    assert es[..5] == own;
    forall k | 0 <= k < |links| ensures IsLinked(es[5 + 3 * k..8 + 3 * k], links[k], e.name) {
      assert es[5 + 3 * k..8 + 3 * k] == linked[3 * k..3 * k + 3];
    }
    forall k | 0 <= k < |children| ensures es[5 + 3 * |links| + k] == listed[k] {
    }
  }
}
