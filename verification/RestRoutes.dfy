/** Generated groups never publish a route twice, so normalizing a build loses nothing. */
module RestRoutes {
  import opened Text
  import opened Collections
  import opened Schema
  import opened StatusCodes
  import opened Normalize
  import opened RestApi
  import opened RestPartition

  /** A table name usable as one path segment. */
  predicate IsPlain(name: string) {
    name != "" && IsTrimmed(name) && '/' !in name
  }

  /** Plain names, different also when case is ignored. */
  predicate PlainEntities(es: seq<Entity>) {
    && (forall i :: 0 <= i < |es| ==> IsPlain(es[i].name))
    && (forall i, j :: 0 <= i < j < |es| ==> Lower(es[i].name) != Lower(es[j].name))
  }

  // ---------- the key of a route ----------

  function PathKey(path: string): string { Lower(TrimEnd(path)) }

  lemma VerbIsVisible(v: HttpMethod)
    ensures VerbName(v) != "" && !IsSpace(VerbName(v)[0])
  {
  }

  /** Trimming a route trims its path at the end only. */
  lemma TrimmedRoute(verb: string, path: string)
    requires verb != "" && !IsSpace(verb[0]) && path != "" && path[0] == '/'
    ensures Trim(verb + " " + path) == verb + " " + TrimEnd(path)
  {
    hide TrimEnd;
    var front, back := verb + " /", path[1..];
    assert path == "/" + back && !IsSpace('/');
    TrimEndStops("/", back);
    TrimEndStops(front, back);
    assert verb + " " + path == front + back;
    assert front + TrimEnd(back) == verb + " " + ("/" + TrimEnd(back));
    assert TrimStart(front + back) == front + back;
  }

  lemma RouteKey(e: ApiEndpoint)
    requires e.path != "" && e.path[0] == '/'
    ensures Fold(RouteOf(e)) == Lower(VerbName(e.verb) + " ") + PathKey(e.path)
  {
    hide Trim, TrimEnd, VerbName, IsSpace;
    VerbIsVisible(e.verb);
    TrimmedRoute(VerbName(e.verb), e.path);
    LowerConcat(VerbName(e.verb) + " ", TrimEnd(e.path));
  }

  lemma VerbPrefixes(a: HttpMethod, b: HttpMethod, x: string, y: string)
    requires Lower(VerbName(a) + " ") + x == Lower(VerbName(b) + " ") + y
    ensures a == b && x == y
  {
    var p, q := Lower(VerbName(a) + " "), Lower(VerbName(b) + " ");
    assert p[0] == (p + x)[0] == (q + y)[0] == q[0];
    assert p[1] == (p + x)[1] == (q + y)[1] == q[1];
    assert a == b;
    assert x == (p + x)[|p|..] && y == (q + y)[|q|..];
  }

  /** Same route key: same verb, same path up to case and trailing space. */
  lemma SameRouteKey(e: ApiEndpoint, f: ApiEndpoint)
    requires "/api/" <= e.path && "/api/" <= f.path
    requires Fold(RouteOf(e)) == Fold(RouteOf(f))
    ensures e.verb == f.verb && PathKey(e.path) == PathKey(f.path)
  {
    hide Fold, RouteOf, PathKey, VerbName;
    assert e.path[0] == "/api/"[0] == f.path[0];
    RouteKey(e);
    RouteKey(f);
    VerbPrefixes(e.verb, f.verb, PathKey(e.path), PathKey(f.path));
  }

  // ---------- routes of a group ----------

  predicate BaseRoute(e: ApiEndpoint, key: string) {
    || (e.path == BasePath(key) && (e.verb == GET || e.verb == POST))
    || (e.path == ItemPath(key) && (e.verb == GET || e.verb == PUT || e.verb == DELETE))
  }

  /** A route nested under the item, for the entity `tag`. */
  predicate TagRoute(e: ApiEndpoint, key: string, tag: string) {
    || (e.path == NestedPath(key, tag) && (e.verb == GET || e.verb == POST))
    || (NestedPath(key, tag) + "/:" <= e.path && e.verb == DELETE)
  }

  predicate OwnRoute(e: ApiEndpoint, key: string, tags: set<string>) {
    BaseRoute(e, key) || exists t :: t in tags && TagRoute(e, key, t)
  }

  predicate Routed(key: string, m: ApiModule, tags: set<string>) {
    && IsPlain(key)
    && DistinctKeys(m.endpoints, RouteOf)
    && (forall i :: 0 <= i < |m.endpoints| ==> OwnRoute(m.endpoints[i], key, tags))
    && (forall i :: 0 <= i < |m.endpoints| ==> Clean(m.endpoints[i].statusCodes))
  }

  lemma PlainEnds(key: string)
    requires IsPlain(key)
    ensures PathKey(BasePath(key)) == Lower(BasePath(key)) && PathKey(ItemPath(key)) == Lower(ItemPath(key))
  {
    assert BasePath(key)[|BasePath(key)| - 1] == key[|key| - 1];
  }

  lemma NestedTail(path: string, tail: string)
    requires "/:" <= tail
    ensures TrimEnd(path + tail) == path + ("/:" + TrimEnd(tail[2..]))
  {
    var stop := path + "/:";
    assert path + tail == stop + tail[2..];
    TrimEndStops(stop, tail[2..]);
    assert stop + TrimEnd(tail[2..]) == path + ("/:" + TrimEnd(tail[2..]));
  }

  lemma NestedEnd(key: string, tag: string)
    requires IsPlain(tag)
    ensures NestedPath(key, tag) == ItemPath(key) + "/" + tag && TrimEnd(NestedPath(key, tag)) == NestedPath(key, tag)
  {
    hide ItemPath;
    var path := NestedPath(key, tag);
    assert path[|path| - 1] == tag[|tag| - 1];
  }

  /** The key of a nested path: the parent's part, then the tag's. */
  lemma NestedKey(key: string, tag: string, tail: string)
    requires IsPlain(tag) && (tail == "" || "/:" <= tail)
    ensures exists rest :: PathKey(NestedPath(key, tag) + tail) == Lower(ItemPath(key) + "/") + (Lower(tag) + rest)
                           && (rest == "" || rest[0] == '/')
  {
    hide NestedPath, ItemPath, TrimEnd, IsPlain;
    var path, front := NestedPath(key, tag), ItemPath(key) + "/";
    NestedEnd(key, tag);
    LowerConcat(front, tag);
    if tail == "" {
      assert path + tail == path;
      assert Lower(tag) + "" == Lower(tag);
    } else {
      NestedTail(path, tail);
      var more := "/:" + TrimEnd(tail[2..]);
      LowerConcat(path, more);
      assert Lower(more)[0] == '/';
      assert PathKey(path + tail) == Lower(front) + (Lower(tag) + Lower(more));
    }
  }

  lemma LowerSlashFree(s: string)
    requires '/' !in s
    ensures '/' !in Lower(s)
  {
  }

  lemma FirstSegment(a: string, x: string)
    requires '/' !in a && (x == "" || x[0] == '/')
    ensures Split(a + x, '/')[0] == a
  {
    if x == "" {
      assert a + x == a;
      SplitNone(a, '/');
    } else {
      assert a + x == a + ['/'] + x[1..];
      SplitPrefix(a, '/', x[1..]);
    }
  }

  lemma TagTail(e: ApiEndpoint, key: string, tag: string) returns (tail: string)
    requires TagRoute(e, key, tag)
    ensures (tail == "" || "/:" <= tail) && e.path == NestedPath(key, tag) + tail
  {
    var path := NestedPath(key, tag);
    if e.path == path {
      tail := "";
    } else {
      tail := e.path[|path|..];
      assert tail[..2] == e.path[|path|..|path| + 2] == (path + "/:")[|path|..];
      assert tail[..2] == "/:";
    }
  }

  lemma TagsDiffer(e: ApiEndpoint, f: ApiEndpoint, key: string, t: string, u: string)
    requires IsPlain(t) && IsPlain(u) && Lower(t) != Lower(u)
    requires TagRoute(e, key, t) && TagRoute(f, key, u)
    ensures PathKey(e.path) != PathKey(f.path)
  {
    hide PathKey, TagRoute;
    var x := TagTail(e, key, t);
    var y := TagTail(f, key, u);
    NestedKey(key, t, x);
    NestedKey(key, u, y);
    var p := Lower(ItemPath(key) + "/");
    var rx :| PathKey(e.path) == p + (Lower(t) + rx) && (rx == "" || rx[0] == '/');
    var ry :| PathKey(f.path) == p + (Lower(u) + ry) && (ry == "" || ry[0] == '/');
    if PathKey(e.path) == PathKey(f.path) {
      assert Lower(t) + rx == (p + (Lower(t) + rx))[|p|..] == (p + (Lower(u) + ry))[|p|..] == Lower(u) + ry;
      LowerSlashFree(t);
      LowerSlashFree(u);
      FirstSegment(Lower(t), rx);
      FirstSegment(Lower(u), ry);
    }
  }

  lemma BaseAndTagDiffer(e: ApiEndpoint, f: ApiEndpoint, key: string, t: string)
    requires IsPlain(key) && IsPlain(t) && BaseRoute(e, key) && TagRoute(f, key, t)
    ensures PathKey(e.path) != PathKey(f.path)
  {
    hide PathKey, TagRoute;
    PlainEnds(key);
    var y := TagTail(f, key, t);
    NestedKey(key, t, y);
    assert |PathKey(e.path)| <= |ItemPath(key)| < |PathKey(f.path)|;
  }

  lemma RoutesStartAtApi(e: ApiEndpoint, key: string, tags: set<string>)
    requires OwnRoute(e, key, tags)
    ensures "/api/" <= e.path
  {
    if BaseRoute(e, key) {
      assert "/api/" <= BasePath(key) <= ItemPath(key);
    } else {
      var t :| t in tags && TagRoute(e, key, t);
      var tail := TagTail(e, key, t);
      assert "/api/" <= BasePath(key) <= ItemPath(key) <= NestedPath(key, t) <= e.path;
    }
  }

  /** Two own routes with one key: same verb, and both base routes or both of one tag. */
  lemma OwnRoutesDiffer(e: ApiEndpoint, f: ApiEndpoint, key: string, tags: set<string>, newTag: string)
    requires IsPlain(key) && IsPlain(newTag) && OwnRoute(e, key, tags) && TagRoute(f, key, newTag)
    requires forall t :: t in tags ==> IsPlain(t) && Lower(t) != Lower(newTag)
    ensures Fold(RouteOf(e)) != Fold(RouteOf(f))
  {
    hide Fold, RouteOf, PathKey, IsPlain;
    RoutesStartAtApi(e, key, tags);
    RoutesStartAtApi(f, key, {newTag});
    if BaseRoute(e, key) {
      BaseAndTagDiffer(e, f, key, newTag);
    } else {
      var t :| t in tags && TagRoute(e, key, t);
      TagsDiffer(e, f, key, t, newTag);
    }
    if Fold(RouteOf(e)) == Fold(RouteOf(f)) {
      SameRouteKey(e, f);
    }
  }

  // ---------- building keeps routes apart ----------

  /** New routes of one newTag tag, with verbs all different. */
  predicate FreshBlock(extra: seq<ApiEndpoint>, key: string, tag: string) {
    && (forall i :: 0 <= i < |extra| ==> TagRoute(extra[i], key, tag) && Clean(extra[i].statusCodes))
    && (forall i, j :: 0 <= i < j < |extra| ==> extra[i].verb != extra[j].verb)
  }

  lemma AppendRouted(key: string, m: ApiModule, tags: set<string>, extra: seq<ApiEndpoint>, newTag: string)
    requires Routed(key, m, tags) && IsPlain(newTag) && FreshBlock(extra, key, newTag)
    requires forall t :: t in tags ==> IsPlain(t) && Lower(t) != Lower(newTag)
    ensures Routed(key, m.(endpoints := m.endpoints + extra), tags + {newTag})
  {
    hide Fold, RouteOf, IsPlain, TagRoute, BaseRoute, Clean;
    var before, all := m.endpoints, m.endpoints + extra;
    forall i, j | 0 <= i < j < |all| ensures Fold(RouteOf(all[i])) != Fold(RouteOf(all[j])) {
      if j < |before| {
        assert all[i] == before[i] && all[j] == before[j];
      } else if i < |before| {
        assert all[j] == extra[j - |before|];
        OwnRoutesDiffer(before[i], extra[j - |before|], key, tags, newTag);
      } else {
        assert all[i] == extra[i - |before|] && all[j] == extra[j - |before|];
        BlockRoutesDiffer(all[i], all[j], key, newTag);
      }
    }
    forall i | 0 <= i < |all| ensures OwnRoute(all[i], key, tags + {newTag}) && Clean(all[i].statusCodes) {
      if i < |before| {
        assert all[i] == before[i];
      } else {
        assert all[i] == extra[i - |before|];
        assert newTag in tags + {newTag};
      }
    }
  }

  lemma BlockRoutesDiffer(e: ApiEndpoint, f: ApiEndpoint, key: string, tag: string)
    requires TagRoute(e, key, tag) && TagRoute(f, key, tag) && e.verb != f.verb
    ensures Fold(RouteOf(e)) != Fold(RouteOf(f))
  {
    hide Fold, RouteOf, TagRoute;
    RoutesStartAtApi(e, key, {tag});
    RoutesStartAtApi(f, key, {tag});
    if Fold(RouteOf(e)) == Fold(RouteOf(f)) {
      SameRouteKey(e, f);
    }
  }

  lemma MoreTagsAreFine(key: string, m: ApiModule, tags: set<string>, more: set<string>)
    requires Routed(key, m, tags) && tags <= more
    ensures Routed(key, m, more)
  {
    hide IsPlain, TagRoute, BaseRoute, Clean, DistinctKeys;
    forall i | 0 <= i < |m.endpoints| ensures OwnRoute(m.endpoints[i], key, more) {
      assert OwnRoute(m.endpoints[i], key, tags);
    }
  }

  lemma EntityEndpointIsClean(e: Entity, demand: ListQueryDemand, i: nat)
    requires i < |EntityEndpoints(e, demand)|
    ensures var x := EntityEndpoints(e, demand)[i]; Clean(x.statusCodes) && BaseRoute(x, e.name) && "/api/" <= x.path
  {
    hide QueryParams, ResponseFields, WritableFields, Singular;
    assert "/api/" <= BasePath(e.name) <= ItemPath(e.name);
  }

  lemma EntityRoutesDiffer(e: Entity, demand: ListQueryDemand, i: nat, j: nat)
    requires IsPlain(e.name) && i < j < |EntityEndpoints(e, demand)|
    ensures Fold(RouteOf(EntityEndpoints(e, demand)[i])) != Fold(RouteOf(EntityEndpoints(e, demand)[j]))
  {
    hide Fold, RouteOf, QueryParams, IsPlain, PathKey, Clean, ResponseFields, WritableFields, Singular;
    var es := EntityEndpoints(e, demand);
    EntityEndpointIsClean(e, demand, i);
    EntityEndpointIsClean(e, demand, j);
    if Fold(RouteOf(es[i])) == Fold(RouteOf(es[j])) {
      SameRouteKey(es[i], es[j]);
      PlainEnds(e.name);
    }
  }

  lemma EntityModuleRouted(e: Entity, demand: ListQueryDemand)
    requires IsPlain(e.name)
    ensures Routed(e.name, EntityModule(e, demand), {})
  {
    hide Fold, RouteOf, EntityEndpoints, IsPlain, Clean, BaseRoute;
    var es := EntityEndpoints(e, demand);
    forall i, j | 0 <= i < j < |es| ensures Fold(RouteOf(es[i])) != Fold(RouteOf(es[j])) {
      EntityRoutesDiffer(e, demand, i, j);
    }
    forall i | 0 <= i < |es| ensures Clean(es[i].statusCodes) && BaseRoute(es[i], e.name) {
      EntityEndpointIsClean(e, demand, i);
    }
  }

  lemma JunctionIsFresh(e: Entity, parent: string)
    ensures FreshBlock(JunctionEndpoints(e, parent), parent, e.name)
  {
    hide ResponseFields, WritableFields, ParentKey, OtherSide, LinkColumn;
    var es := JunctionEndpoints(e, parent);
    assert NestedPath(parent, e.name) + "/:" <= NestedPath(parent, e.name) + "/:" + LinkColumn(e, parent);
  }

  lemma ChildIsFresh(e: Entity, parent: string, demand: ListQueryDemand)
    ensures FreshBlock([ChildCollectionEndpoint(e, parent, demand)], parent, e.name)
  {
    hide ResponseFields, FieldsExcept, QueryParams, ParentKey;
  }

  predicate RoutedTable(t: Table<ApiModule>, tags: set<string>) {
    forall i :: 0 <= i < |t| ==> Routed(t[i].key, t[i].value, tags)
  }

  lemma AddEndpointsRouted(t: Table<ApiModule>, key: string, tags: set<string>, extra: seq<ApiEndpoint>, newTag: string)
    requires RoutedTable(t, tags) && Has(t, key) && IsPlain(newTag) && FreshBlock(extra, key, newTag)
    requires forall x :: x in tags ==> IsPlain(x) && Lower(x) != Lower(newTag)
    ensures RoutedTable(AddEndpoints(t, key, extra), tags + {newTag})
  {
    hide Routed, FreshBlock, IsPlain;
    var p := Position(t, key);
    AppendRouted(key, t[p].value, tags, extra, newTag);
    forall i | 0 <= i < |t| ensures Routed(t[i].key, t[i].value, tags + {newTag}) {
      MoreTagsAreFine(t[i].key, t[i].value, tags, tags + {newTag});
    }
  }

  lemma PutRouted(t: Table<ApiModule>, e: Entity, demand: ListQueryDemand, tags: set<string>)
    requires RoutedTable(t, tags) && IsPlain(e.name)
    ensures RoutedTable(Put(t, e.name, EntityModule(e, demand)), tags)
  {
    hide Routed, EntityModule, IsPlain;
    EntityModuleRouted(e, demand);
    MoreTagsAreFine(e.name, EntityModule(e, demand), {}, tags);
  }

  lemma MoreTags(t: Table<ApiModule>, tags: set<string>, more: set<string>)
    requires RoutedTable(t, tags) && tags <= more
    ensures RoutedTable(t, more)
  {
    hide Routed;
    forall i | 0 <= i < |t| ensures Routed(t[i].key, t[i].value, more) {
      MoreTagsAreFine(t[i].key, t[i].value, tags, more);
    }
  }

  lemma {:induction false} TopLevelRouted(all: seq<Entity>, inScope: set<string>, scope: seq<Entity>, qs: Option<QueryScope>, n: nat)
    requires n <= |scope| && PlainEntities(scope)
    ensures RoutedTable(TopLevel(all, inScope, scope, qs, n), {})
  {
    hide IsNested, EntityModule, DemandFor, Routed, IsPlain, Put;
    if n > 0 {
      TopLevelRouted(all, inScope, scope, qs, n - 1);
      PutRouted(TopLevel(all, inScope, scope, qs, n - 1), scope[n - 1], DemandFor(qs, scope[n - 1]), {});
    }
  }

  /** The tags in use are names of entities already placed. */
  function PlacedNames(scope: seq<Entity>, n: nat): set<string>
    requires n <= |scope|
  {
    set i | 0 <= i < n :: scope[i].name
  }

  lemma NextIsFresh(scope: seq<Entity>, tags: set<string>, n: nat)
    requires 0 < n <= |scope| && PlainEntities(scope) && scope[n - 1].name !in tags && tags <= PlacedNames(scope, |scope|)
    ensures IsPlain(scope[n - 1].name)
    ensures forall t :: t in tags ==> IsPlain(t) && Lower(t) != Lower(scope[n - 1].name)
  {
    hide IsPlain;
    forall t | t in tags ensures IsPlain(t) && Lower(t) != Lower(scope[n - 1].name) {
      assert t in PlacedNames(scope, |scope|);
      var i :| 0 <= i < |scope| && scope[i].name == t;
    }
  }

  lemma NestOneRouted(all: seq<Entity>, inScope: set<string>, e: Entity, qs: Option<QueryScope>, g: Groups, tags: set<string>)
    requires RoutedTable(g.modules, tags) && IsPlain(e.name)
    requires forall t :: t in tags ==> IsPlain(t) && Lower(t) != Lower(e.name)
    ensures RoutedTable(NestOne(all, inScope, e, qs, g).modules, tags + {e.name})
  {
    hide BuiltParent, JunctionEndpoints, JunctionReason, EntityModule, DemandFor, AddEndpoints, Put, RoutedTable, IsPlain, FreshBlock;
    match BuiltParent(all, inScope, e)
    case None => MoreTags(g.modules, tags, tags + {e.name});
    case Some(parent) =>
      if Has(g.modules, parent) {
        JunctionIsFresh(e, parent);
        AddEndpointsRouted(g.modules, parent, tags, JunctionEndpoints(e, parent), e.name);
      } else {
        PutRouted(g.modules, e, DemandFor(qs, e), tags);
        MoreTags(Put(g.modules, e.name, EntityModule(e, DemandFor(qs, e))), tags, tags + {e.name});
      }
  }

  lemma {:induction false} NestRouted(all: seq<Entity>, inScope: set<string>, scope: seq<Entity>, qs: Option<QueryScope>,
                                      start: Groups, n: nat)
    requires n <= |scope| && PlainEntities(scope) && RoutedTable(start.modules, {})
    ensures RoutedTable(Nest(all, inScope, scope, qs, start, n).modules, NestedNames(all, inScope, scope, n))
  {
    hide IsNested, NestOne, RoutedTable, NestedNames, IsPlain, PlainEntities;
    if n == 0 {
      NamesStart(all, inScope, scope);
    } else {
      NestRouted(all, inScope, scope, qs, start, n - 1);
      NamesStep(all, inScope, scope, n);
      var e, tags := scope[n - 1], NestedNames(all, inScope, scope, n - 1);
      if IsNested(all, inScope, e) {
        PlainAreDistinct(scope);
        NestedIsNew(all, inScope, scope, n);
        NestedArePlaced(all, inScope, scope, n - 1);
        NextIsFresh(scope, tags, n);
        NestOneRouted(all, inScope, e, qs, Nest(all, inScope, scope, qs, start, n - 1), tags);
      } else {
        assert tags + {} == tags;
      }
    }
  }

  lemma NestedArePlaced(all: seq<Entity>, inScope: set<string>, scope: seq<Entity>, n: nat)
    requires n <= |scope|
    ensures NestedNames(all, inScope, scope, n) + TopNames(all, inScope, scope, n) <= PlacedNames(scope, |scope|)
  {
    hide IsNested;
  }

  lemma PlainAreDistinct(scope: seq<Entity>)
    requires PlainEntities(scope)
    ensures DistinctEntities(scope)
  {
    hide IsPlain;
    forall i, j | 0 <= i < j < |scope| ensures scope[i].name != scope[j].name {
      assert Lower(scope[i].name) != Lower(scope[j].name);
    }
  }

  lemma {:induction false} ChildrenRouted(all: seq<Entity>, inScope: set<string>, scope: seq<Entity>, qs: Option<QueryScope>,
                                          start: Table<ApiModule>, n: nat)
    requires n <= |scope| && PlainEntities(scope)
    requires RoutedTable(start, NestedNames(all, inScope, scope, |scope|))
    ensures RoutedTable(Children(all, inScope, scope, qs, start, n),
                        NestedNames(all, inScope, scope, |scope|) + TopNames(all, inScope, scope, n))
  {
    hide IsNested, BuiltParent, AddEndpoints, ChildCollectionEndpoint, DemandFor, RoutedTable, NestedNames, TopNames, IsPlain;
    hide PlainEntities, FreshBlock;
    var nested := NestedNames(all, inScope, scope, |scope|);
    if n == 0 {
      NamesStart(all, inScope, scope);
      assert nested + {} == nested;
    } else {
      ChildrenRouted(all, inScope, scope, qs, start, n - 1);
      NamesStep(all, inScope, scope, n);
      var t, e := Children(all, inScope, scope, qs, start, n - 1), scope[n - 1];
      var tags := nested + TopNames(all, inScope, scope, n - 1);
      var after := nested + TopNames(all, inScope, scope, n);
      var parent := BuiltParent(all, inScope, e);
      MoreTags(t, tags, after);
      if !IsNested(all, inScope, e) && parent.Some? && Has(t, parent.value) {
        TopIsNew(all, inScope, scope, n);
        NestedArePlaced(all, inScope, scope, |scope|);
        NestedArePlaced(all, inScope, scope, n - 1);
        NextIsFresh(scope, tags, n);
        ChildIsFresh(e, parent.value, DemandFor(qs, e));
        AddEndpointsRouted(t, parent.value, tags, [ChildCollectionEndpoint(e, parent.value, DemandFor(qs, e))], e.name);
        assert tags + {e.name} == after;
      }
    }
  }

  lemma TopIsNew(all: seq<Entity>, inScope: set<string>, scope: seq<Entity>, n: nat)
    requires 0 < n <= |scope| && PlainEntities(scope) && !IsNested(all, inScope, scope[n - 1])
    ensures scope[n - 1].name !in NestedNames(all, inScope, scope, |scope|) + TopNames(all, inScope, scope, n - 1)
  {
    hide IsNested, IsPlain;
    PlainAreDistinct(scope);
  }

  /** No group of a build repeats a (method, path) pair. */
  lemma BuildRoutesAreDistinct(db: DatabaseDesign, only: Option<seq<string>>, qs: Option<QueryScope>)
    requires PlainEntities(db.entities)
    ensures var names := NamesOf(Scope(db.entities, only));
            RoutedTable(BuiltGroups(db, only, qs).modules, names)
  {
    hide IsNested, RoutedTable, PlainEntities, TopLevel, Nest, Children, TopNames, NestedNames, Scope;
    var all, scope := db.entities, Scope(db.entities, only);
    var inScope := NamesOf(scope);
    ScopeStaysPlain(all, only);
    var top := TopLevel(all, inScope, scope, qs, |scope|);
    TopLevelRouted(all, inScope, scope, qs, |scope|);
    NestRouted(all, inScope, scope, qs, Groups(top, []), |scope|);
    var g := Nest(all, inScope, scope, qs, Groups(top, []), |scope|);
    ChildrenRouted(all, inScope, scope, qs, g.modules, |scope|);
    NamesSplit(all, inScope, scope);
    assert NestedNames(all, inScope, scope, |scope|) + TopNames(all, inScope, scope, |scope|) == inScope;
  }

  lemma {:induction false} ScopeStaysPlain(all: seq<Entity>, only: Option<seq<string>>)
    requires PlainEntities(all)
    ensures PlainEntities(Scope(all, only))
  {
    hide IsPlain, Lower;
    if all != [] {
      assert forall i :: 0 <= i < |all[1..]| ==> all[1..][i] == all[i + 1];
      ScopeStaysPlain(all[1..], only);
      ScopeExact(all[1..], only);
      var rest := Scope(all[1..], only);
      forall i | 0 <= i < |rest| ensures Lower(rest[i].name) != Lower(all[0].name) {
        assert rest[i] in all[1..];
        var j :| 0 <= j < |all[1..]| && all[1..][j] == rest[i];
      }
    }
  }
}
