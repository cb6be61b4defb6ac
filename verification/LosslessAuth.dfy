/** Normalizing the whole stored interface, the Auth group included. */
module LosslessAuth {
  import opened Text
  import opened Collections
  import opened Schema
  import opened StatusCodes
  import opened Normalize
  import opened RestApi
  import opened RestPartition
  import opened RestRoutes
  import opened Lossless
  import opened GroupReach

  // ---------- the Auth group itself ----------

  /** A POST route below `/api/auth/`, written as it is stored. */
  predicate IsAuthEndpoint(e: ApiEndpoint) {
    e.verb == POST && "/api/auth/" <= e.path && !IsSpace(e.path[|e.path| - 1]) && Clean(e.statusCodes)
  }

  lemma AuthEndpointIsKept(e: ApiEndpoint)
    requires IsAuthEndpoint(e)
    ensures NormalEndpoint(RawOfEndpoint(e), "/api/auth") == e && TrimPath(e) == e
    ensures |Fold(RouteOf(e))| == 5 + |e.path|
  {
    hide TrimEnd, TrimStart, StatusCodesOf, Clean, ParseVerb, IsSpace, Split, LastSegment, DropLeadingSlashes, DropTrailingSlashes, Join, Lower;
    assert e.path[0] == "/api/auth/"[0];
    assert !IsSpace('/') by { SlashIsVisible(); }
    TrimOfTrimmed(e.path);
    VerbsParseBack(e.verb);
    CleanCodesAreKept(e.statusCodes);
    assert "/api/auth/"[..4] == "/api" && "/api" <= e.path;
    RouteKey(e);
    TrimEndFixed(e.path);
  }

  lemma TrimEndFixed(s: string)
    requires s == "" || !IsSpace(s[|s| - 1])
    ensures TrimEnd(s) == s
  {
  }

  lemma AuthEndpointsAreClean()
    ensures forall i :: 0 <= i < |AuthModule().endpoints| ==> IsAuthEndpoint(AuthModule().endpoints[i])
  {
    hide IsSpace;
    LettersAreVisible();
  }

  lemma LettersAreVisible()
    ensures !IsSpace('r') && !IsSpace('n') && !IsSpace('h')
  {
  }

  /** The Auth group is stored and read back as it is. */
  lemma AuthIsKept()
    ensures NormalModule(RawOfModule(AuthModule())) == AuthModule() && TrimPaths(AuthModule()) == AuthModule()
  {
    hide IsAuthEndpoint, NormalEndpoint, RawOfEndpoint, TrimPath, RouteOf, Fold, DedupedBy;
    var es := AuthModule().endpoints;
    AuthEndpointsAreClean();
    forall i | 0 <= i < |es|
      ensures NormalEndpoint(RawOfEndpoint(es[i]), "/api/auth") == es[i] && TrimPath(es[i]) == es[i]
      ensures |Fold(RouteOf(es[i]))| == 5 + |es[i].path|
    {
      AuthEndpointIsKept(es[i]);
    }
    assert NormalEndpoints(RawOfModule(AuthModule()).endpoints.value, "/api/auth") == es;
    assert TrimPaths(AuthModule()).endpoints == es;
    assert |es[0].path| == 18 && |es[1].path| == 15 && |es[2].path| == 17;
    DedupedByFixed(es, RouteOf);
    NoClaims();
  }

  lemma NoClaims()
    ensures PresentNames(seq(0, i => None)) == []
  {
  }

  // ---------- the whole interface ----------

  lemma AuthName()
    ensures Fold("Auth") == "auth"
  {
    TrimOfTrimmed("Auth");
  }

  /** Another group has the Auth group's name exactly when its table is called `auth`. */
  lemma NamesDistinctIff(t: Table<ApiModule>, ms: seq<ApiModule>)
    requires GoodTable(t) && |ms| == |t| && DistinctKeys(ms, NameOf)
    requires forall i :: 0 <= i < |t| ==> ms[i].name == t[i].value.name && IsPlain(t[i].key)
    ensures DistinctKeys([AuthModule()] + ms, NameOf) <==> forall i :: 0 <= i < |t| ==> Lower(t[i].key) != "auth"
  {
    hide Fold, Lower, IsPlain, Capitalize;
    var all := [AuthModule()] + ms;
    AuthName();
    forall i | 0 <= i < |t| ensures Fold(NameOf(all[i + 1])) == Lower(t[i].key) {
      assert GoodModule(t[i].key, t[i].value) && all[i + 1] == ms[i];
      CapitalizedFold(t[i].key);
    }
    assert Fold(NameOf(all[0])) == "auth";
  }

  lemma GroupsAreKept(t: Table<ApiModule>, scope: seq<Entity>, tags: set<string>, source: Option<ModuleSource>)
    requires GoodTable(t) && RoutedTable(t, tags) && PlainEntities(scope) && KeySet(t) <= NamesOf(scope)
    ensures var ms := Stamped(t, source);
            NormalModules(RawOfModules(ms)) == TrimAll(ms) && DistinctKeys(TrimAll(ms), NameOf)
    ensures forall i :: 0 <= i < |t| ==> IsPlain(t[i].key)
  {
    hide NormalModule, RawOfModule, Routed, PlainEntities, DedupedBy;
    var ms := Stamped(t, source);
    forall i | 0 <= i < |ms| ensures NormalModule(RawOfModules(ms)[i]) == TrimAll(ms)[i] && IsPlain(t[i].key) {
      var s := if source.Some? then source else t[i].value.source;
      assert ms[i] == t[i].value.(source := s) && GoodModule(t[i].key, t[i].value);
      ModuleIsKept(t[i].key, t[i].value, tags, s);
      RoutedIsPlain(t[i].key, t[i].value, tags);
    }
    assert NormalModules(RawOfModules(ms)) == TrimAll(ms);
    TableNamesDistinct(t, scope, TrimAll(ms));
  }

  lemma RoutedIsPlain(key: string, m: ApiModule, tags: set<string>)
    requires Routed(key, m, tags)
    ensures IsPlain(key)
  {
  }

  lemma WithAuthKeptIff(t: Table<ApiModule>, scope: seq<Entity>, tags: set<string>, source: Option<ModuleSource>)
    requires GoodTable(t) && RoutedTable(t, tags) && PlainEntities(scope) && KeySet(t) <= NamesOf(scope)
    ensures var ms := [AuthModule()] + Stamped(t, source);
            DedupedBy(NormalModules(RawOfModules(ms)), NameOf) == TrimAll(ms)
            <==> forall i :: 0 <= i < |t| ==> Lower(t[i].key) != "auth"
  {
    hide AuthModule, NormalModule, RawOfModule, Routed, PlainEntities, DedupedBy, Lower, TrimPaths, DistinctKeys, IsPlain;
    var groups := Stamped(t, source);
    var ms := [AuthModule()] + groups;
    GroupsAreKept(t, scope, tags, source);
    AuthIsKept();
    var all := [AuthModule()] + TrimAll(groups);
    forall i | 0 <= i < |ms|
      ensures NormalModules(RawOfModules(ms))[i] == all[i] && TrimAll(ms)[i] == all[i]
    {
      if i > 0 {
        assert ms[i] == groups[i - 1] && RawOfModules(ms)[i] == RawOfModules(groups)[i - 1];
        assert NormalModules(RawOfModules(groups))[i - 1] == TrimAll(groups)[i - 1];
      }
    }
    assert NormalModules(RawOfModules(ms)) == all && TrimAll(ms) == all;
    NamesStayAsBuilt(t, source);
    NamesDistinctIff(t, TrimAll(groups));
    DedupedByDistinct(all, NameOf);
    if DistinctKeys(all, NameOf) {
      DedupedByFixed(all, NameOf);
    }
  }

  lemma NamesStayAsBuilt(t: Table<ApiModule>, source: Option<ModuleSource>)
    ensures forall i :: 0 <= i < |t| ==> TrimAll(Stamped(t, source))[i].name == t[i].value.name
  {
  }

  /** The stored interface, the Auth group first, survives normalizing, every group, endpoint and
      exclusion of it, if and only if no table that gets a group is called `auth`. */
  lemma WholeBuildSurvivesIff(db: DatabaseDesign, only: Option<seq<string>>, source: Option<ModuleSource>,
                              qs: Option<QueryScope>, sessionId: string, generatedAt: string)
    requires PlainEntities(db.entities)
    ensures var d := BuiltDesign(sessionId, generatedAt, RestBuild(db, BuildOptions(only, source, true, qs)));
            NormalDesign(RawOfDesign(d)) == TrimmedDesign(d)
            <==> forall name :: name in GroupedTables(db, only) ==> Lower(name) != "auth"
  {
    hide BuiltGroups, Scope, PlainEntities, Accounts, RoutedTable, GoodTable, NormalModules, RawOfModules, TrimAll, DedupedBy;
    hide IsTidy, GroupedTables, AuthModule, Lower;
    var scope, g := Scope(db.entities, only), BuiltGroups(db, only, qs);
    PlainAreDistinct(db.entities);
    ScopeStaysPlain(db.entities, only);
    BuildPartitionsScope(db, only, qs);
    BuildRoutesAreDistinct(db, only, qs);
    AccountsParts(g, NamesOf(scope));
    WithAuthKeptIff(g.modules, scope, NamesOf(scope), source);
    ExcludedArePlain(g, scope);
    ExclusionsAreKept(g.excluded);
    if g.excluded == [] {
      assert RawOfExclusions(g.excluded) == [];
    }
    GroupedAreKeys(db, only, qs);
  }

  // ---------- a table called `auth` ----------

  const AUTH_TABLE := Entity("auth", "", [Column("id", "uuid", false, true, false, None)])
  const AUTH_SCHEMA := DatabaseDesign("PostgreSQL", [AUTH_TABLE], [])

  lemma AuthIsPlain()
    ensures PlainEntities(AUTH_SCHEMA.entities) && Lower("auth") == "auth"
  {
  }

  lemma AuthTableHasGroup()
    ensures "auth" in GroupedTables(AUTH_SCHEMA, None)
  {
    assert AUTH_TABLE.columns[1..] == [];
    assert ForeignKeys(AUTH_TABLE.columns) == [] + ForeignKeys([]) == [];
    LoneTable(AUTH_SCHEMA, AUTH_TABLE, Sources(NeverOf, NeverBelow, NeverBelow));
  }

  /** Its group has the Auth group's name, and reading the interface back drops it. */
  lemma AuthTableIsLost()
    ensures var d := BuiltDesign("", "", RestBuild(AUTH_SCHEMA, BuildOptions(None, None, true, None)));
            NormalDesign(RawOfDesign(d)) != TrimmedDesign(d)
  {
    hide NormalDesign, RawOfDesign, TrimmedDesign, BuiltDesign, RestBuild, GroupedTables, PlainEntities, Lower;
    AuthIsPlain();
    AuthTableHasGroup();
    WholeBuildSurvivesIff(AUTH_SCHEMA, None, None, None, "", "");
  }
}
