/** Normalizing a deterministic build keeps every group, endpoint and exclusion. */
module Lossless {
  import opened Text
  import opened Collections
  import opened Schema
  import opened Coverage
  import opened Merge
  import opened StatusCodes
  import opened Normalize
  import opened RestApi
  import opened RestPartition
  import opened RestRoutes

  function TrimPath(e: ApiEndpoint): ApiEndpoint { e.(path := Trim(e.path)) }

  function TrimPaths(m: ApiModule): ApiModule {
    m.(endpoints := seq(|m.endpoints|, i requires 0 <= i < |m.endpoints| => TrimPath(m.endpoints[i])))
  }

  function TrimAll(ms: seq<ApiModule>): (r: seq<ApiModule>)
    ensures |r| == |ms| && forall i :: 0 <= i < |ms| ==> r[i] == TrimPaths(ms[i])
  {
    seq(|ms|, i requires 0 <= i < |ms| => TrimPaths(ms[i]))
  }

  lemma VerbsParseBack(v: HttpMethod)
    ensures ParseVerb(Some(VerbName(v))) == v
  {
    assert Upper(VerbName(v)) == VerbName(v);
  }

  lemma SourcesParseBack(s: Option<ModuleSource>)
    ensures ParseSource(if s.Some? then Some(SourceName(s.value)) else None) == s
  {
  }

  lemma TrimApiPath(path: string)
    requires "/api/" <= path
    ensures Trim(path) == TrimEnd(path) && "/api/" <= Trim(path) && TrimEnd(Trim(path)) == Trim(path)
  {
    assert path[0] == "/api/"[0];
    var rest := path[5..];
    assert path == "/api/" + rest;
    TrimEndStops("/api/", rest);
    TrimEndShape(path);
  }

  lemma EndpointIsKept(e: ApiEndpoint, key: string, tags: set<string>)
    requires OwnRoute(e, key, tags) && Clean(e.statusCodes)
    ensures NormalEndpoint(RawOfEndpoint(e), BasePath(key)) == TrimPath(e)
    ensures Fold(RouteOf(TrimPath(e))) == Fold(RouteOf(e))
  {
    hide Trim, TrimEnd, Fold, RouteOf, StatusCodesOf, Clean, VerbName, ParseVerb, OwnRoute;
    RoutesStartAtApi(e, key, tags);
    TrimApiPath(e.path);
    VerbsParseBack(e.verb);
    CleanCodesAreKept(e.statusCodes);
    assert "/api/"[..4] == "/api" && "/api" <= Trim(e.path);
    assert e.path[0] == "/api/"[0] == Trim(e.path)[0];
    RouteKey(e);
    RouteKey(TrimPath(e));
  }

  lemma {:induction false} ClaimsAreKept(names: seq<string>)
    requires forall i :: 0 <= i < |names| ==> Trim(names[i]) != ""
    ensures PresentNames(seq(|names|, i requires 0 <= i < |names| => Some(names[i]))) == names
  {
    var raw := seq(|names|, i requires 0 <= i < |names| => Some(names[i]));
    if names != [] {
      ClaimsAreKept(names[1..]);
      assert raw[1..] == seq(|names[1..]|, i requires 0 <= i < |names[1..]| => Some(names[1..][i]));
    }
  }

  /** A generated group comes back with all its endpoints, their paths trimmed. */
  lemma ModuleIsKept(key: string, m: ApiModule, tags: set<string>, source: Option<ModuleSource>)
    requires Routed(key, m, tags) && GoodModule(key, m)
    ensures NormalModule(RawOfModule(m.(source := source))) == TrimPaths(m.(source := source))
  {
    hide Fold, RouteOf, OwnRoute, Clean, NormalEndpoint, RawOfEndpoint, TrimPath, Trim;
    var stamped := m.(source := source);
    var raw, kept := RawOfModule(stamped), TrimPaths(stamped).endpoints;
    forall i | 0 <= i < |m.endpoints|
      ensures NormalEndpoint(RawOfEndpoint(m.endpoints[i]), BasePath(key)) == TrimPath(m.endpoints[i])
      ensures Fold(RouteOf(kept[i])) == Fold(RouteOf(m.endpoints[i]))
    {
      EndpointIsKept(m.endpoints[i], key, tags);
    }
    assert NormalEndpoints(raw.endpoints.value, BasePath(key)) == kept;
    DedupedByFixed(kept, RouteOf);
    TrimOfTrimmed(key);
    ClaimsAreKept([key]);
    SourcesParseBack(source);
  }

  // ---------- whole builds ----------

  lemma CapitalizedFold(key: string)
    requires IsPlain(key)
    ensures Fold(Capitalize(key)) == Lower(key)
  {
    var c := Capitalize(key);
    assert c[|c| - 1] == if |key| == 1 then UpperChar(key[0]) else key[|key| - 1];
    TrimOfTrimmed(c);
  }

  lemma TableNamesDistinct(t: Table<ApiModule>, scope: seq<Entity>, ms: seq<ApiModule>)
    requires GoodTable(t) && PlainEntities(scope) && KeySet(t) <= NamesOf(scope)
    requires |ms| == |t| && forall i :: 0 <= i < |t| ==> ms[i].name == t[i].value.name
    ensures DistinctKeys(ms, NameOf)
  {
    hide Fold, Lower, IsPlain, Capitalize;
    forall i, j | 0 <= i < j < |ms| ensures Fold(NameOf(ms[i])) != Fold(NameOf(ms[j])) {
      assert t[i].key in KeySet(t) && t[j].key in KeySet(t);
      var a :| 0 <= a < |scope| && scope[a].name == t[i].key;
      var b :| 0 <= b < |scope| && scope[b].name == t[j].key;
      CapitalizedFold(t[i].key);
      CapitalizedFold(t[j].key);
      assert GoodModule(t[i].key, t[i].value) && GoodModule(t[j].key, t[j].value);
      assert a != b;
    }
  }

  /** Nothing about the entry would be trimmed away. */
  predicate IsTidy(e: ExcludedEntity) {
    IsTrimmed(e.entity) && e.entity != "" && IsTrimmed(e.reason) && IsJustified(e)
  }

  lemma {:induction false} ExclusionsAreKept(es: seq<ExcludedEntity>)
    requires forall i :: 0 <= i < |es| ==> IsTidy(es[i])
    ensures NormalExclusions(RawOfExclusions(es)) == es
  {
    if es != [] {
      ExclusionsAreKept(es[1..]);
      assert RawOfExclusions(es)[1..] == RawOfExclusions(es[1..]);
      TrimOfTrimmed(es[0].entity);
      TrimOfTrimmed(es[0].reason);
    }
  }

  function BuiltDesign(sessionId: string, generatedAt: string, build: CoverageAddition): ApiDesign {
    ApiDesign(sessionId, generatedAt, build.modules, Listed(build.excludedEntities))
  }

  function TrimmedDesign(d: ApiDesign): ApiDesign {
    d.(modules := TrimAll(d.modules))
  }

  lemma ExcludedArePlain(g: Groups, scope: seq<Entity>)
    requires Accounts(g, NamesOf(scope)) && PlainEntities(scope)
    ensures forall i :: 0 <= i < |g.excluded| ==> IsTidy(g.excluded[i])
  {
    hide IsTrimmed, IsJustified, GoodTable;
    forall i | 0 <= i < |g.excluded| ensures IsTidy(g.excluded[i]) {
      assert g.excluded[i].entity in EntitiesOf(g.excluded);
      var a :| 0 <= a < |scope| && scope[a].name == g.excluded[i].entity;
      assert IsPlain(scope[a].name);
    }
  }

  lemma ModulesAreKept(t: Table<ApiModule>, scope: seq<Entity>, tags: set<string>, source: Option<ModuleSource>)
    requires GoodTable(t) && RoutedTable(t, tags) && PlainEntities(scope) && KeySet(t) <= NamesOf(scope)
    ensures var ms := Stamped(t, source);
            DedupedBy(NormalModules(RawOfModules(ms)), NameOf) == TrimAll(ms)
  {
    hide NormalModule, RawOfModule, Routed, GoodModule, PlainEntities, DedupedBy;
    var ms := Stamped(t, source);
    var raw, kept := RawOfModules(ms), TrimAll(ms);
    forall i | 0 <= i < |ms| ensures NormalModule(raw[i]) == kept[i] {
      var s := if source.Some? then source else t[i].value.source;
      assert ms[i] == t[i].value.(source := s);
      ModuleIsKept(t[i].key, t[i].value, tags, s);
    }
    assert NormalModules(raw) == kept;
    TableNamesDistinct(t, scope, kept);
    DedupedByFixed(kept, NameOf);
  }

  /** Every group, endpoint and exclusion of a build (without the Auth group) survives
      normalizing; at most white space at the end of a path is lost. */
  lemma BuildSurvivesNormalizing(db: DatabaseDesign, only: Option<seq<string>>, source: Option<ModuleSource>,
                                 qs: Option<QueryScope>, sessionId: string, generatedAt: string)
    requires PlainEntities(db.entities)
    ensures var d := BuiltDesign(sessionId, generatedAt, RestBuild(db, BuildOptions(only, source, false, qs)));
            NormalDesign(RawOfDesign(d)) == TrimmedDesign(d)
  {
    hide BuiltGroups, Scope, PlainEntities, Accounts, RoutedTable, GoodTable, NormalModules, RawOfModules, TrimAll, DedupedBy;
    hide IsTidy;
    var scope, g := Scope(db.entities, only), BuiltGroups(db, only, qs);
    PlainAreDistinct(db.entities);
    ScopeStaysPlain(db.entities, only);
    BuildPartitionsScope(db, only, qs);
    BuildRoutesAreDistinct(db, only, qs);
    AccountsParts(g, NamesOf(scope));
    ModulesAreKept(g.modules, scope, NamesOf(scope), source);
    ExcludedArePlain(g, scope);
    ExclusionsAreKept(g.excluded);
    if g.excluded == [] {
      assert RawOfExclusions(g.excluded) == [];
    }
  }

  lemma AccountsParts(g: Groups, names: set<string>)
    requires Accounts(g, names)
    ensures GoodTable(g.modules) && KeySet(g.modules) <= names
  {
  }
}
