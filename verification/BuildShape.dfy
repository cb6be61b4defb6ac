/** What is left out of a build and why, and how its groups are handed over. */
module BuildShape {
  import opened Text
  import opened Collections
  import opened Schema
  import opened Merge
  import opened RestApi
  import opened RestPartition
  import opened RestContract
  import opened BuildContract

  // ---------- which link tables are left out ----------

  /** Which tables have a group when the first `n` have had their turn. */
  lemma {:induction false} GroupsSoFar(all: seq<Entity>, inScope: set<string>, scope: seq<Entity>, qs: Option<QueryScope>, n: nat, x: string)
    requires n <= |scope| && DistinctEntities(scope)
    ensures x in KeySet(Nested(all, inScope, scope, qs, n).modules) <==>
              || x in TopNames(all, inScope, scope, |scope|)
              || (x !in EntitiesOf(Nested(all, inScope, scope, qs, |scope|).excluded)
                  && exists k :: 0 <= k < n && IsNested(all, inScope, scope[k]) && scope[k].name == x)
  {
    hide TopLevel, Nest, IsJunctionEntity, DistinctEntities, EntitiesOf, BuiltParent, EntityModule, DemandFor, JunctionEndpoints, TopNames;
    hide AddEndpoints, Put, KeySet;
    if n == 0 {
      NestStart(all, inScope, scope, qs);
      TopLevelGood(all, inScope, scope, qs, |scope|);
    } else {
      GroupsSoFar(all, inScope, scope, qs, n - 1, x);
      NestStep(all, inScope, scope, qs, n);
      var g, e := Nested(all, inScope, scope, qs, n - 1), scope[n - 1];
      if IsNested(all, inScope, e) {
        TurnDecides(all, inScope, scope, qs, n);
        if Has(g.modules, BuiltParent(all, inScope, e).value) {
          AddKeepsKeys(g.modules, BuiltParent(all, inScope, e).value, JunctionEndpoints(e, BuiltParent(all, inScope, e).value));
        } else {
          PutGrows(g.modules, e.name, EntityModule(e, DemandFor(qs, e)));
        }
      }
    }
  }

  lemma AddKeepsKeys(t: Table<ApiModule>, key: string, extra: seq<ApiEndpoint>)
    requires Has(t, key)
    ensures KeySet(AddEndpoints(t, key, extra)) == KeySet(t)
  {
    var m := t[Position(t, key)].value;
    PutGrows(t, key, m.(endpoints := m.endpoints + extra));
    HasIff(t, key);
  }

  /** A link table whose parent is built too. */
  predicate HangsOffBuilt(all: seq<Entity>, scope: seq<Entity>, e: Entity) {
    IsLinkTable(e) && ParentTable(all, e).Some? && ParentTable(all, e).value in NamesOf(scope)
  }

  lemma NestedIff(all: seq<Entity>, scope: seq<Entity>, e: Entity)
    ensures IsNested(all, NamesOf(scope), e) <==> HangsOffBuilt(all, scope, e)
    ensures HangsOffBuilt(all, scope, e) ==> BuiltParent(all, NamesOf(scope), e) == ParentTable(all, e)
  {
    hide IsLinkTable, IsJunctionEntity, ParentTable, ParentOf, NamesOf;
    LinkTableIff(e);
    ParentIs(all, e);
  }

  /** The parent's group is there when it is the turn of the link table at `i`: the parent is no such
      link table itself, or an earlier one that was not left out. */
  predicate ParentHasGroup(all: seq<Entity>, scope: seq<Entity>, excluded: set<string>, i: nat)
    requires i < |scope|
  {
    forall k :: 0 <= k < |scope| && ParentTable(all, scope[i]) == Some(scope[k].name) ==>
      !HangsOffBuilt(all, scope, scope[k]) || (k < i && scope[k].name !in excluded)
  }

  lemma GroupBeforeIff(all: seq<Entity>, scope: seq<Entity>, qs: Option<QueryScope>, i: nat)
    requires i < |scope| && DistinctEntities(scope) && HangsOffBuilt(all, scope, scope[i])
    ensures var excluded := EntitiesOf(Nested(all, NamesOf(scope), scope, qs, |scope|).excluded);
            ParentTable(all, scope[i]).value in KeySet(Nested(all, NamesOf(scope), scope, qs, i).modules)
            <==> ParentHasGroup(all, scope, excluded, i)
  {
    hide Nested, IsLinkTable, ParentTable, IsNested, EntitiesOf, KeySet;
    var inScope, parent := NamesOf(scope), ParentTable(all, scope[i]).value;
    GroupsSoFar(all, inScope, scope, qs, i, parent);
    var at :| 0 <= at < |scope| && scope[at].name == parent;
    forall k | 0 <= k < |scope| && scope[k].name == parent ensures k == at {
    }
    NestedIff(all, scope, scope[at]);
    if !IsNested(all, inScope, scope[at]) {
      assert parent in TopNames(all, inScope, scope, |scope|);
    }
  }

  /** A table is left out of the groups if and only if it is a link table whose parent has one. */
  lemma LeftOutIff(db: DatabaseDesign, only: Option<seq<string>>, qs: Option<QueryScope>, i: nat)
    requires DistinctEntities(db.entities) && i < |Scope(db.entities, only)|
    ensures var g, all, scope := BuiltGroups(db, only, qs), db.entities, Scope(db.entities, only);
            scope[i].name in EntitiesOf(g.excluded) <==>
              HangsOffBuilt(all, scope, scope[i]) && ParentHasGroup(all, scope, EntitiesOf(g.excluded), i)
  {
    hide BuiltGroups, Nested, DistinctEntities, Scope, EntitiesOf, HangsOffBuilt, ParentHasGroup;
    hide IsJunctionEntity, BuiltParent, KeySet, Accounts, NestedNames;
    var all, scope := db.entities, Scope(db.entities, only);
    var inScope, e := NamesOf(scope), Scope(db.entities, only)[i];
    ScopeExact(all, only);
    BuiltFrom(db, only, qs);
    NestedIff(all, scope, e);
    if HangsOffBuilt(all, scope, e) {
      TurnDecides(all, inScope, scope, qs, i + 1);
      HasIff(Nested(all, inScope, scope, qs, i).modules, BuiltParent(all, inScope, e).value);
      GroupBeforeIff(all, scope, qs, i);
    } else {
      NestedAccounts(all, inScope, scope, qs, |scope|);
      GroupsSoFar(all, inScope, scope, qs, |scope|, e.name);
      assert e.name in TopNames(all, inScope, scope, |scope|);
      AccountsApart(Nested(all, inScope, scope, qs, |scope|), TopNames(all, inScope, scope, |scope|) + NestedNames(all, inScope, scope, |scope|));
    }
  }

  lemma AccountsApart(g: Groups, names: set<string>)
    requires Accounts(g, names)
    ensures KeySet(g.modules) !! EntitiesOf(g.excluded)
  {
  }

  // ---------- the reason given ----------

  /** The reason names both sides of the link and the route that manages it. */
  predicate IsLinkReason(x: ExcludedEntity, e: Entity, parent: string) {
    && x.entity == e.name
    && x.reason == "Join table between " + parent + " and " + OtherTable(e, parent)
                   + " \U{2014} no resource of its own; managed through the " + Capitalize(parent)
                   + " resource's nested routes (/api/" + parent + "/:id/" + e.name + ")."
  }

  predicate HasLinkReason(all: seq<Entity>, scope: seq<Entity>, x: ExcludedEntity) {
    exists i :: 0 <= i < |scope| && HangsOffBuilt(all, scope, scope[i]) && IsLinkReason(x, scope[i], ParentTable(all, scope[i]).value)
  }

  lemma ReasonIs(e: Entity, parent: string, group: ApiModule)
    requires GoodModule(parent, group)
    ensures IsLinkReason(ExcludedEntity(e.name, JunctionReason(e, parent, group)), e, parent)
  {
    hide OtherSide, OtherTable, Capitalize;
    OtherSideIs(e, parent);
    var head := "Join table between " + parent + " and " + OtherTable(e, parent)
                + " \U{2014} no resource of its own; managed through the " + Capitalize(parent);
    assert head + " resource's nested routes (" + BasePath(parent) + "/:id/" + e.name + ")."
        == head + " resource's nested routes (/api/" + parent + "/:id/" + e.name + ").";
  }

  lemma {:induction false} ReasonsAre(all: seq<Entity>, scope: seq<Entity>, qs: Option<QueryScope>, n: nat, k: nat)
    requires n <= |scope| && k < |Nested(all, NamesOf(scope), scope, qs, n).excluded|
    ensures HasLinkReason(all, scope, Nested(all, NamesOf(scope), scope, qs, n).excluded[k])
  {
    hide TopLevel, BuiltParent, EntityModule, DemandFor, JunctionEndpoints, JunctionReason, AddEndpoints, IsJunctionEntity, NamesOf;
    hide IsLinkReason, HangsOffBuilt, ParentTable, GoodModule;
    var inScope := NamesOf(scope);
    if n > 0 {
      var g, after, e := Nested(all, inScope, scope, qs, n - 1), Nested(all, inScope, scope, qs, n), scope[n - 1];
      if k < |g.excluded| {
        ReasonsAre(all, scope, qs, n - 1, k);
      } else {
        NestedIff(all, scope, e);
        var parent := BuiltParent(all, inScope, e).value;
        NestedIsGood(all, inScope, scope, qs, n - 1);
        ReasonIs(e, parent, g.modules[Position(g.modules, parent)].value);
        assert HangsOffBuilt(all, scope, scope[n - 1]);
      }
    }
  }

  lemma NestedIsGood(all: seq<Entity>, inScope: set<string>, scope: seq<Entity>, qs: Option<QueryScope>, n: nat)
    requires n <= |scope|
    ensures GoodTable(Nested(all, inScope, scope, qs, n).modules)
  {
    hide TopLevel, Nest, TopNames, NestedNames, GoodTable;
    var top := TopLevel(all, inScope, scope, qs, |scope|);
    TopLevelGood(all, inScope, scope, qs, |scope|);
    StartAccounts(top);
    NestPlaces(all, inScope, scope, qs, Groups(top, []), n);
  }

  /** Whatever is left out is a link table, with a reason that says where to find it. */
  lemma LeftOutHasReason(db: DatabaseDesign, only: Option<seq<string>>, qs: Option<QueryScope>, k: nat)
    requires k < |BuiltGroups(db, only, qs).excluded|
    ensures HasLinkReason(db.entities, Scope(db.entities, only), BuiltGroups(db, only, qs).excluded[k])
  {
    hide BuiltGroups, Nested, HasLinkReason, Scope;
    BuiltFrom(db, only, qs);
    ReasonsAre(db.entities, Scope(db.entities, only), qs, |Scope(db.entities, only)|, k);
  }

  // ---------- repeated names ----------

  /** The group starts with the endpoints of a table of its name. */
  predicate StartsWithOwn(key: string, es: seq<ApiEndpoint>, scope: seq<Entity>, qs: Option<QueryScope>) {
    exists j :: 0 <= j < |scope| && scope[j].name == key && |es| >= 5 && IsCrud(es[..5], scope[j], DemandOf(qs, scope[j]))
  }

  predicate AllStartWithOwn(t: Table<ApiModule>, scope: seq<Entity>, qs: Option<QueryScope>) {
    forall i :: 0 <= i < |t| ==> StartsWithOwn(t[i].key, t[i].value.endpoints, scope, qs)
  }

  lemma PutStarts(t: Table<ApiModule>, scope: seq<Entity>, qs: Option<QueryScope>, j: nat)
    requires AllStartWithOwn(t, scope, qs) && j < |scope|
    ensures AllStartWithOwn(Put(t, scope[j].name, EntityModule(scope[j], DemandFor(qs, scope[j]))), scope, qs)
  {
    hide IsCrud, EntityEndpoints, DemandFor, DemandOf;
    var e := scope[j];
    DemandIs(qs, e);
    EntityEndpointsAreCrud(e, DemandFor(qs, e));
    CrudAreFive(EntityEndpoints(e, DemandFor(qs, e)), e, DemandFor(qs, e));
    var es := EntityEndpoints(e, DemandFor(qs, e));
    assert es[..5] == es;
    assert StartsWithOwn(e.name, es, scope, qs);
  }

  lemma AddStarts(t: Table<ApiModule>, scope: seq<Entity>, qs: Option<QueryScope>, key: string, extra: seq<ApiEndpoint>)
    requires AllStartWithOwn(t, scope, qs) && Has(t, key)
    ensures AllStartWithOwn(AddEndpoints(t, key, extra), scope, qs)
  {
    hide IsCrud, DemandOf;
    var es := t[Position(t, key)].value.endpoints;
    var j :| 0 <= j < |scope| && scope[j].name == key && |es| >= 5 && IsCrud(es[..5], scope[j], DemandOf(qs, scope[j]));
    assert (es + extra)[..5] == es[..5];
    assert StartsWithOwn(key, es + extra, scope, qs);
  }

  lemma {:induction false} TopStarts(all: seq<Entity>, inScope: set<string>, scope: seq<Entity>, qs: Option<QueryScope>, n: nat)
    requires n <= |scope|
    ensures AllStartWithOwn(TopLevel(all, inScope, scope, qs, n), scope, qs)
  {
    hide IsNested, EntityModule, DemandFor, StartsWithOwn, Put;
    if n > 0 {
      TopStarts(all, inScope, scope, qs, n - 1);
      PutStarts(TopLevel(all, inScope, scope, qs, n - 1), scope, qs, n - 1);
    }
  }

  lemma {:induction false} NestStarts(all: seq<Entity>, inScope: set<string>, scope: seq<Entity>, qs: Option<QueryScope>, n: nat)
    requires n <= |scope|
    ensures AllStartWithOwn(Nested(all, inScope, scope, qs, n).modules, scope, qs)
  {
    hide TopLevel, Nest, IsJunctionEntity, BuiltParent, EntityModule, DemandFor, JunctionEndpoints, AllStartWithOwn, Put, AddEndpoints;
    if n == 0 {
      NestStart(all, inScope, scope, qs);
      TopStarts(all, inScope, scope, qs, |scope|);
    } else {
      NestStarts(all, inScope, scope, qs, n - 1);
      NestStep(all, inScope, scope, qs, n);
      var g, e := Nested(all, inScope, scope, qs, n - 1), scope[n - 1];
      PutStarts(g.modules, scope, qs, n - 1);
      var parent := BuiltParent(all, inScope, e);
      if parent.Some? && Has(g.modules, parent.value) {
        AddStarts(g.modules, scope, qs, parent.value, JunctionEndpoints(e, parent.value));
      }
    }
  }

  lemma {:induction false} ChildrenStart(all: seq<Entity>, inScope: set<string>, scope: seq<Entity>, qs: Option<QueryScope>,
                                         start: Table<ApiModule>, n: nat)
    requires n <= |scope| && AllStartWithOwn(start, scope, qs)
    ensures AllStartWithOwn(Children(all, inScope, scope, qs, start, n), scope, qs)
  {
    hide IsNested, BuiltParent, ChildCollectionEndpoint, DemandFor, AllStartWithOwn, Has, AddEndpoints;
    if n > 0 {
      ChildrenStart(all, inScope, scope, qs, start, n - 1);
      var t, e := Children(all, inScope, scope, qs, start, n - 1), scope[n - 1];
      var parent := BuiltParent(all, inScope, e);
      if parent.Some? && Has(t, parent.value) {
        AddStarts(t, scope, qs, parent.value, [ChildCollectionEndpoint(e, parent.value, DemandFor(qs, e))]);
      }
    }
  }

  /** Whatever the schema, repeated names included, a group starts with exactly the five endpoints of a
      table of its name. */
  lemma OwnEndpointsComeFirst(db: DatabaseDesign, only: Option<seq<string>>, qs: Option<QueryScope>)
    ensures AllStartWithOwn(BuiltGroups(db, only, qs).modules, Scope(db.entities, only), qs)
  {
    hide BuiltGroups, Nested, Children, AllStartWithOwn, Scope, NamesOf;
    var all, scope := db.entities, Scope(db.entities, only);
    BuiltFrom(db, only, qs);
    NestStarts(all, NamesOf(scope), scope, qs, |scope|);
    ChildrenStart(all, NamesOf(scope), scope, qs, Nested(all, NamesOf(scope), scope, qs, |scope|).modules, |scope|);
  }

  // ---------- handing it over ----------

  predicate IsText(f: SchemaField, name: string) { f == SchemaField(name, "string", true) }

  predicate AreTexts(fields: seq<SchemaField>, names: seq<string>) {
    |fields| == |names| && forall i :: 0 <= i < |names| ==> IsText(fields[i], names[i])
  }

  predicate GivesTokens(ep: ApiEndpoint, accepts: seq<string>) {
    AreTexts(ep.requestSchema, accepts) && AreTexts(ep.responseSchema, ["accessToken", "refreshToken"])
  }

  /** Register and log in with email and password, refresh with the refresh token; each gives both tokens. */
  predicate IsAuthGroup(m: ApiModule) {
    && m.name == "Auth" && m.basePath == "/api/auth" && m.coveredEntities == Some([]) && m.source == None
    && |m.endpoints| == 3
    && Answers(m.endpoints[0], POST, "/api/auth/register", [201, 400, 409], "Register a new user account.")
    && GivesTokens(m.endpoints[0], ["email", "password"])
    && Answers(m.endpoints[1], POST, "/api/auth/login", [200, 400, 401], "Authenticate and receive tokens.")
    && GivesTokens(m.endpoints[1], ["email", "password"])
    && Answers(m.endpoints[2], POST, "/api/auth/refresh", [200, 401], "Exchange a refresh token for a new access token.")
    && GivesTokens(m.endpoints[2], ["refreshToken"])
  }

  lemma AuthIsAuthGroup()
    ensures IsAuthGroup(AuthModule())
  {
  }

  lemma NothingIsStamped(db: DatabaseDesign, only: Option<seq<string>>, qs: Option<QueryScope>, i: nat)
    requires i < |BuiltGroups(db, only, qs).modules|
    ensures BuiltGroups(db, only, qs).modules[i].value.source == None
  {
    hide BuiltGroups, Scope;
    KeyIsInScope(db, only, qs, i);
  }

  lemma GroupsAreStamped(db: DatabaseDesign, options: BuildOptions)
    ensures var g := BuiltGroups(db, options.only, options.queryScope);
            forall i :: 0 <= i < |g.modules| ==> Stamped(g.modules, options.source)[i] == g.modules[i].value.(source := options.source)
  {
    hide BuiltGroups;
    var g := BuiltGroups(db, options.only, options.queryScope);
    forall i | 0 <= i < |g.modules| ensures g.modules[i].value.source == None {
      NothingIsStamped(db, options.only, options.queryScope, i);
    }
  }

  /** The Auth group goes in front when it is asked for, and every other group bears the given source. */
  lemma BuildIsHandedOver(db: DatabaseDesign, options: BuildOptions)
    ensures var g, r := BuiltGroups(db, options.only, options.queryScope), RestBuild(db, options);
            var first := if options.includeAuth then 1 else 0;
            && |r.modules| == first + |g.modules|
            && (options.includeAuth ==> IsAuthGroup(r.modules[0]))
            && (forall i :: 0 <= i < |g.modules| ==> r.modules[first + i] == g.modules[i].value.(source := options.source))
            && r.excludedEntities == g.excluded
  {
    hide BuiltGroups, IsAuthGroup, AuthModule, Stamped;
    AuthIsAuthGroup();
    GroupsAreStamped(db, options);
    var g := BuiltGroups(db, options.only, options.queryScope);
    var built, r := Stamped(g.modules, options.source), RestBuild(db, options);
    assert r.modules == if options.includeAuth then [AuthModule()] + built else built;
  }
}
