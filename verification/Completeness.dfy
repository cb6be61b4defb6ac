/** The persistence boundary's promise: every entity ends up covered or excused. */
module Completeness {
  import opened Text
  import opened Collections
  import opened Numerals
  import opened Schema
  import opened Coverage
  import opened Merge
  import opened RestApi
  import opened RestPartition

  // ---------- what a resolved design says about one name ----------

  /** In a resolved design, serving a name and listing it are the same thing. */
  lemma CoversIffClaimed(design: ApiDesign, names: seq<string>, n: string)
    requires DistinctEntityKeys(names)
    ensures var ms := ResolvedCoverage(design, names).modules; Covers(ms, names, n) <==> Claimed(ms, n)
  {
    hide Resolve, DistinctEntityKeys, ResolvedModule;
    var ms := ResolvedCoverage(design, names).modules;
    if Covers(ms, names, n) {
      var i :| 0 <= i < |ms| && ClaimsEntity(ms[i], names, n);
      ResolvedClaims(design.modules[i], names);
    }
    if Claimed(ms, n) {
      var i :| 0 <= i < |ms| && n in ms[i].Claims();
      ResolvedClaims(design.modules[i], names);
      var j :| 0 <= j < |ms[i].Claims()| && ms[i].Claims()[j] == n;
      assert ClaimsEntity(ms[i], names, n);
    }
  }

  /** After resolving, no entity is both served and excluded, under whatever name. */
  lemma ServedIsNotExcluded(design: ApiDesign, names: seq<string>, k: nat)
    requires DistinctEntityKeys(names) && k < |ResolvedCoverage(design, names).Exclusions()|
    ensures var after := ResolvedCoverage(design, names);
            var n := Resolve(names, after.Exclusions()[k].entity);
            n.Some? && !Covers(after.modules, names, n.value)
  {
    hide DistinctEntityKeys, Resolve, ResolvedModules, Covers, Claimed;
    var ms := ResolvedModules(design.modules, names);
    var es := ResolvedExclusions(design.Exclusions(), ms, names);
    assert ResolvedCoverage(design, names).Exclusions() == es;
    ResolvedExclusionsFixed(design.Exclusions(), ms, names);
    CoversIffClaimed(design, names, es[k].entity);
  }

  lemma {:induction false} ResolveAllKeeps(values: seq<string>, names: seq<string>, x: string)
    requires x in values && Resolve(names, x) == Some(x)
    ensures x in ResolveAll(values, names)
  {
    hide Resolve;
    var last := values[|values| - 1];
    if x != last {
      assert x in values[..|values| - 1];
      ResolveAllKeeps(values[..|values| - 1], names, x);
    }
  }

  /** A settled claim survives resolving. */
  lemma ClaimSurvives(design: ApiDesign, names: seq<string>, i: nat, n: string)
    requires DistinctEntityKeys(names) && i < |design.modules|
    requires n in design.modules[i].Claims() && Resolve(names, n) == Some(n)
    ensures Covers(ResolvedCoverage(design, names).modules, names, n)
  {
    hide Resolve, DistinctEntityKeys, ResolvedModule;
    ResolveAllKeeps(design.modules[i].Claims(), names, n);
    ResolvedClaims(design.modules[i], names);
    assert Claimed(ResolvedCoverage(design, names).modules, n);
    CoversIffClaimed(design, names, n);
  }

  /** A settled exclusion survives resolving, unless a group serves the entity. */
  lemma {:induction false} ExclusionSurvives(es: seq<ExcludedEntity>, ms: seq<ApiModule>, names: seq<string>, k: nat)
    requires k < |es| && Resolve(names, es[k].entity) == Some(es[k].entity) && es[k].entity != ""
    requires !Claimed(ms, es[k].entity)
    ensures es[k] in ResolvedExclusions(es, ms, names)
  {
    hide Resolve, Claimed;
    if k < |es| - 1 {
      ExclusionSurvives(es[..|es| - 1], ms, names, k);
    }
  }

  /** Resolving invents no exclusion. */
  lemma {:induction false} ExclusionHasSource(es: seq<ExcludedEntity>, ms: seq<ApiModule>, names: seq<string>, e: ExcludedEntity)
    requires e in ResolvedExclusions(es, ms, names)
    ensures exists k :: 0 <= k < |es| && es[k].reason == e.reason && Resolve(names, es[k].entity) == Some(e.entity)
  {
    hide Resolve, Claimed;
    var last := es[|es| - 1];
    if e in ResolvedExclusions(es[..|es| - 1], ms, names) {
      ExclusionHasSource(es[..|es| - 1], ms, names, e);
      var k :| 0 <= k < |es| - 1 && es[k].reason == e.reason && Resolve(names, es[k].entity) == Some(e.entity);
      assert es[k].reason == e.reason;
    } else {
      assert last.reason == e.reason;
    }
  }

  /** Unless a group serves it, a name with a settled, justified exclusion stays excused. */
  lemma ExcuseSurvives(design: ApiDesign, names: seq<string>, k: nat)
    requires DistinctEntityKeys(names) && k < |design.Exclusions()|
    requires var e := design.Exclusions()[k];
             IsJustified(e) && e.entity in names && Resolve(names, e.entity) == Some(e.entity)
    ensures var after := ResolvedCoverage(design, names); var n := design.Exclusions()[k].entity;
            Covers(after.modules, names, n) || Excuses(after.Exclusions(), names, n)
  {
    hide Resolve;
    var after, e := ResolvedCoverage(design, names), design.Exclusions()[k];
    CoversIffClaimed(design, names, e.entity);
    if !Claimed(after.modules, e.entity) {
      assert e.entity != "" by { EmptyHasNoKey(names, e.entity); }
      ExclusionSurvives(design.Exclusions(), after.modules, names, k);
      var es := ResolvedExclusions(design.Exclusions(), after.modules, names);
      assert after.Exclusions() == es;
      var j :| 0 <= j < |es| && es[j] == e;
      assert IsJustified(es[j]) && Resolve(names, es[j].entity) == Some(e.entity);
    }
  }

  lemma EmptyHasNoKey(names: seq<string>, n: string)
    requires DistinctEntityKeys(names) && n in names
    ensures n != ""
  {
    var i :| 0 <= i < |names| && names[i] == n;
    assert Key(names[i]) != "";
  }

  // ---------- the merge, seen from one missing name ----------

  lemma {:induction false} KeepHasDistinctKeys(names: seq<string>, s: set<string>)
    requires DistinctEntityKeys(names)
    ensures DistinctEntityKeys(Keep(names, s))
  {
    hide Key;
    if names != [] {
      assert forall i :: 0 <= i < |names[1..]| ==> names[1..][i] == names[i + 1];
      KeepHasDistinctKeys(names[1..], s);
      var rest := Keep(names[1..], s);
      forall i | 0 <= i < |rest| ensures Key(rest[i]) != Key(names[0]) {
        assert rest[i] in names[1..];
        var j :| 0 <= j < |names[1..]| && names[1..][j] == rest[i];
      }
    }
  }

  lemma SettledInKept(names: seq<string>, s: set<string>, n: string)
    requires DistinctEntityKeys(names) && n in Keep(names, s)
    ensures Resolve(Keep(names, s), n) == Some(n) && Resolve(names, n) == Some(n)
  {
    hide Resolve, DistinctEntityKeys;
    KeepHasDistinctKeys(names, s);
    var i :| 0 <= i < |Keep(names, s)| && Keep(names, s)[i] == n;
    ResolveListed(Keep(names, s), i);
    var j :| 0 <= j < |names| && names[j] == n;
    ResolveListed(names, j);
  }

  /** A group that fills something is adopted, under exactly its fills. */
  lemma {:induction false} FillerIsAdopted(start: seq<ApiModule>, added: seq<ApiModule>, missing: seq<string>, i: nat)
    returns (j: nat)
    requires i < |added| && Fills(added[i], missing) != []
    ensures var ms := MergedModules(start, added, missing);
            j < |ms| && ms[j].Claims() == Distinct(Fills(added[i], missing))
  {
    hide Fills, FreeName;
    var front := added[..|added| - 1];
    if i < |front| {
      j := FillerIsAdopted(start, front, missing, i);
    } else {
      j := |MergedModules(start, front, missing)|;
    }
  }

  /** Every adopted group comes from an offered one. */
  lemma {:induction false} AdoptedIsFiller(start: seq<ApiModule>, added: seq<ApiModule>, missing: seq<string>, j: nat)
    requires |start| <= j < |MergedModules(start, added, missing)|
    ensures var m := MergedModules(start, added, missing)[j];
            exists i :: 0 <= i < |added| && m.basePath == added[i].basePath && m.endpoints == added[i].endpoints
                        && m.Claims() == Distinct(Fills(added[i], missing))
  {
    hide Fills, FreeName;
    if added != [] {
      var front := added[..|added| - 1];
      var so, ms := MergedModules(start, front, missing), MergedModules(start, added, missing);
      if j < |so| {
        AdoptedIsFiller(start, front, missing, j);
        var i :| 0 <= i < |front| && so[j].basePath == front[i].basePath && so[j].endpoints == front[i].endpoints
                 && so[j].Claims() == Distinct(Fills(front[i], missing));
        assert added[i] == front[i];
      } else {
        assert ms[j].basePath == added[|front|].basePath;
      }
    }
  }

  lemma {:induction false} ExclusionIsAdded(start: seq<ExcludedEntity>, added: seq<ExcludedEntity>, missing: seq<string>,
                                            filled: set<string>, i: nat)
    requires i < |added| && IsJustified(added[i]) && Resolve(missing, added[i].entity) == Some(added[i].entity)
    requires added[i].entity !in filled
    ensures added[i].entity in EntitiesOf(MergedExclusions(start, added, missing, filled))
  {
    hide Resolve, IsJustified;
    var front := added[..|added| - 1];
    var so, es := MergedExclusions(start, front, missing, filled), MergedExclusions(start, added, missing, filled);
    if i < |front| {
      ExclusionIsAdded(start, front, missing, filled, i);
      var k :| 0 <= k < |so| && so[k].entity == added[i].entity;
      assert es[k].entity == added[i].entity;
    } else if added[i].entity !in EntitiesOf(so) {
      assert es[|so|].entity == added[i].entity;
    }
  }

  // ---------- the guarantee ----------

  /** The generated build for the names still missing. */
  function Filler(db: DatabaseDesign, missing: seq<string>, qs: Option<QueryScope>): Groups {
    BuiltGroups(db, Some(missing), qs)
  }

  function FillerModules(db: DatabaseDesign, missing: seq<string>, qs: Option<QueryScope>): seq<ApiModule> {
    Stamped(Filler(db, missing, qs).modules, Some(GeneratedFallback))
  }

  function MergedFiller(resolved: ApiDesign, db: DatabaseDesign, missing: seq<string>, qs: Option<QueryScope>): ApiDesign {
    Merged(resolved, CoverageAddition(FillerModules(db, missing, qs), Filler(db, missing, qs).excluded), missing)
  }

  lemma DistinctKeysDistinctEntities(db: DatabaseDesign)
    requires DistinctEntityKeys(EntityNames(db))
    ensures DistinctEntities(db.entities)
  {
    var names := EntityNames(db);
    forall i, j | 0 <= i < j < |db.entities| ensures db.entities[i].name != db.entities[j].name {
      assert Key(names[i]) != Key(names[j]);
    }
  }

  /** Each missing name gets a generated group or a generated exclusion. */
  lemma FillerAccounts(db: DatabaseDesign, s: set<string>, qs: Option<QueryScope>)
    requires DistinctEntityKeys(EntityNames(db))
    ensures var missing := Keep(EntityNames(db), s); var g := Filler(db, missing, qs);
            && Accounts(g, NamesOf(Scope(db.entities, Some(missing))))
            && (forall n :: n in missing <==> n in KeySet(g.modules) || n in EntitiesOf(g.excluded))
  {
    hide DistinctEntityKeys, BuiltGroups, Accounts, Scope;
    var names := EntityNames(db);
    var missing := Keep(names, s);
    var scope := Scope(db.entities, Some(missing));
    DistinctKeysDistinctEntities(db);
    BuildPartitionsScope(db, Some(missing), qs);
    ScopeExact(db.entities, Some(missing));
    assert KeySet(Filler(db, missing, qs).modules) + EntitiesOf(Filler(db, missing, qs).excluded) == NamesOf(scope) by {
      AccountsUnion(Filler(db, missing, qs), NamesOf(scope));
    }
    forall n ensures n in missing <==> n in NamesOf(scope) {
      if n in missing {
        var i :| 0 <= i < |names| && names[i] == n;
        assert db.entities[i] in scope;
        var j :| 0 <= j < |scope| && scope[j] == db.entities[i];
        assert scope[j].name == n;
      }
      if n in NamesOf(scope) {
        var j :| 0 <= j < |scope| && scope[j].name == n;
        assert scope[j] in scope;
      }
    }
  }

  lemma AccountsUnion(g: Groups, names: set<string>)
    requires Accounts(g, names)
    ensures KeySet(g.modules) + EntitiesOf(g.excluded) == names
  {
  }

  /** A generated group fills exactly its own entity. */
  lemma GroupFills(db: DatabaseDesign, s: set<string>, qs: Option<QueryScope>, i: nat)
    requires DistinctEntityKeys(EntityNames(db))
    requires i < |Filler(db, Keep(EntityNames(db), s), qs).modules|
    ensures var missing := Keep(EntityNames(db), s); var t := Filler(db, missing, qs).modules;
            && t[i].key in missing && GoodModule(t[i].key, t[i].value)
            && |FillerModules(db, missing, qs)| == |t|
            && FillerModules(db, missing, qs)[i].Claims() == [t[i].key]
            && Fills(FillerModules(db, missing, qs)[i], missing) == [t[i].key]
  {
    hide DistinctEntityKeys, BuiltGroups, Resolve, Keep;
    var missing := Keep(EntityNames(db), s);
    var t := Filler(db, missing, qs).modules;
    FillerAccounts(db, s, qs);
    assert t[i].key in KeySet(t);
    SettledInKept(EntityNames(db), s, t[i].key);
    assert GoodModule(t[i].key, t[i].value);
    var claims := [t[i].key];
    assert claims[..|claims| - 1] == [];
    assert ResolveAll(claims, missing) == ResolveAll([], missing) + [t[i].key];
  }

  /** An entity the fallback would nest under a parent although the design already declares
      it excluded, without saying why. */
  predicate IsStuck(design: ApiDesign, db: DatabaseDesign, qs: Option<QueryScope>, n: string) {
    var resolved := ResolvedCoverage(design, EntityNames(db));
    var missing := CoverageOf(resolved, EntityNames(db)).missing;
    && n in missing
    && n in EntitiesOf(Filler(db, missing, qs).excluded)
    && n in EntitiesOf(resolved.Exclusions())
  }

  /** Served, or excused with a stated reason. */
  predicate IsAccounted(design: ApiDesign, names: seq<string>, n: string) {
    Covers(design.modules, names, n) || Excuses(design.Exclusions(), names, n)
  }

  lemma OkIffAllAccounted(design: ApiDesign, names: seq<string>)
    ensures CoverageOf(design, names).ok <==> forall n :: n in names ==> IsAccounted(design, names, n)
  {
    hide Covers, Excuses;
    var missing := Keep(names, MissingSet(design, names));
    if missing == [] {
      forall n | n in names ensures IsAccounted(design, names, n) {
        assert n !in missing;
      }
    } else {
      assert missing[0] in missing;
      assert !IsAccounted(design, names, missing[0]);
    }
  }

  lemma MissingMeansUnaccounted(design: ApiDesign, names: seq<string>, n: string)
    ensures n in CoverageOf(design, names).missing <==> n in names && !IsAccounted(design, names, n)
  {
    hide Covers, Excuses;
  }

  /** What was accounted for before the merge still is afterwards. */
  lemma AccountedStays(design: ApiDesign, db: DatabaseDesign, missing: seq<string>, qs: Option<QueryScope>, n: string)
    requires DistinctEntityKeys(EntityNames(db)) && n in EntityNames(db)
    requires IsAccounted(ResolvedCoverage(design, EntityNames(db)), EntityNames(db), n)
    ensures var names := EntityNames(db); var resolved := ResolvedCoverage(design, names);
            IsAccounted(ResolvedCoverage(MergedFiller(resolved, db, missing, qs), names), names, n)
  {
    hide DistinctEntityKeys, Resolve, Filler, FillerModules, IsJustified, ResolvedModule;
    var names := EntityNames(db);
    var resolved := ResolvedCoverage(design, names);
    var merged := MergedFiller(resolved, db, missing, qs);
    var i :| 0 <= i < |names| && names[i] == n;
    ResolveListed(names, i);
    if Covers(resolved.modules, names, n) {
      MergeOnlyFillsGaps(resolved.modules, FillerModules(db, missing, qs), missing);
      CoversIffClaimed(design, names, n);
      var j :| 0 <= j < |resolved.modules| && n in resolved.modules[j].Claims();
      assert merged.modules[j] == resolved.modules[j];
      ClaimSurvives(merged, names, j, n);
    } else {
      MergeExclusionsOnlyExcusesGaps(resolved.Exclusions(), Filler(db, missing, qs).excluded, missing, AllClaims(merged.modules));
      var k :| 0 <= k < |resolved.Exclusions()| && IsJustified(resolved.Exclusions()[k])
               && Resolve(names, resolved.Exclusions()[k].entity) == Some(n);
      ResolvedExclusionsFixed(design.Exclusions(), resolved.modules, names);
      assert merged.Exclusions()[k] == resolved.Exclusions()[k];
      ExcuseSurvives(merged, names, k);
    }
  }

  lemma GroupServes(resolved: ApiDesign, db: DatabaseDesign, s: set<string>, qs: Option<QueryScope>, n: string)
    requires DistinctEntityKeys(EntityNames(db)) && n in KeySet(Filler(db, Keep(EntityNames(db), s), qs).modules)
    ensures var names := EntityNames(db);
            Covers(ResolvedCoverage(MergedFiller(resolved, db, Keep(names, s), qs), names).modules, names, n)
  {
    hide DistinctEntityKeys, Resolve, Filler, FillerModules, Fills, Keep, ResolvedCoverage, Covers;
    var names := EntityNames(db);
    var missing := Keep(names, s);
    var t, added := Filler(db, missing, qs).modules, FillerModules(db, missing, qs);
    var merged := MergedFiller(resolved, db, missing, qs);
    var i :| 0 <= i < |t| && t[i].key == n;
    GroupFills(db, s, qs, i);
    SettledInKept(names, s, n);
    assert Fills(added[i], missing) == [n];
    var j := FillerIsAdopted(resolved.modules, added, missing, i);
    DistinctMembers([n]);
    assert merged.modules[j].Claims() == Distinct([n]);
    ClaimSurvives(merged, names, j, n);
  }

  lemma ExclusionExcuses(resolved: ApiDesign, db: DatabaseDesign, s: set<string>, qs: Option<QueryScope>, n: string)
    requires DistinctEntityKeys(EntityNames(db)) && n in Keep(EntityNames(db), s)
    requires n in EntitiesOf(Filler(db, Keep(EntityNames(db), s), qs).excluded)
    requires n !in EntitiesOf(resolved.Exclusions())
    requires n !in AllClaims(MergedFiller(resolved, db, Keep(EntityNames(db), s), qs).modules)
    ensures var names := EntityNames(db);
            IsAccounted(ResolvedCoverage(MergedFiller(resolved, db, Keep(names, s), qs), names), names, n)
  {
    hide DistinctEntityKeys, Resolve, Filler, FillerModules, IsJustified, Keep, ResolvedCoverage, Covers, Excuses;
    hide AllClaims, MergedModules, MergedExclusions;
    var names := EntityNames(db);
    var missing := Keep(names, s);
    var merged := MergedFiller(resolved, db, missing, qs);
    var start, offered := resolved.Exclusions(), Filler(db, missing, qs).excluded;
    var es := MergedExclusions(start, offered, missing, AllClaims(merged.modules));
    FillerAccounts(db, s, qs);
    AccountsJustified(Filler(db, missing, qs), NamesOf(Scope(db.entities, Some(missing))));
    SettledInKept(names, s, n);
    var i :| 0 <= i < |offered| && offered[i].entity == n;
    ExclusionIsAdded(start, offered, missing, AllClaims(merged.modules), i);
    MergeExclusionsOnlyExcusesGaps(start, offered, missing, AllClaims(merged.modules));
    var k :| 0 <= k < |es| && es[k].entity == n;
    assert k >= |start|;
    ExcuseSurvives(merged, names, k);
  }

  lemma AccountsJustified(g: Groups, names: set<string>)
    requires Accounts(g, names)
    ensures forall i :: 0 <= i < |g.excluded| ==> IsJustified(g.excluded[i])
  {
  }

  /** A missing entity that is not stuck is served or excused by the filler. */
  lemma MissingIsFilled(design: ApiDesign, db: DatabaseDesign, qs: Option<QueryScope>, n: string)
    requires DistinctEntityKeys(EntityNames(db))
    requires n in CoverageOf(ResolvedCoverage(design, EntityNames(db)), EntityNames(db)).missing
    requires !IsStuck(design, db, qs, n)
    ensures IsAccounted(EnsuredCoverage(design, db, qs), EntityNames(db), n)
  {
    hide DistinctEntityKeys, BuiltGroups, ResolvedCoverage, Covers, Excuses, CoveredSet, ExcludedSet, Merged;
    var names := EntityNames(db);
    var resolved := ResolvedCoverage(design, names);
    var s := MissingSet(resolved, names);
    var missing := Keep(names, s);
    var merged := MergedFiller(resolved, db, missing, qs);
    FillerAccounts(db, s, qs);
    SettledInKept(names, s, n);
    if n in KeySet(Filler(db, missing, qs).modules) {
      GroupServes(resolved, db, s, qs, n);
    } else if n in AllClaims(merged.modules) {
      var i, j :| 0 <= i < |merged.modules| && 0 <= j < |merged.modules[i].Claims()| && merged.modules[i].Claims()[j] == n;
      ClaimSurvives(merged, names, i, n);
    } else {
      ExclusionExcuses(resolved, db, s, qs, n);
    }
  }

  /** Everything that is not stuck ends up accounted for. */
  lemma EnsureAccounts(design: ApiDesign, db: DatabaseDesign, qs: Option<QueryScope>, n: string)
    requires DistinctEntityKeys(EntityNames(db)) && n in EntityNames(db) && !IsStuck(design, db, qs, n)
    ensures IsAccounted(EnsuredCoverage(design, db, qs), EntityNames(db), n)
  {
    hide DistinctEntityKeys, ResolvedCoverage, BuiltGroups, Covers, Excuses, Merged;
    var names := EntityNames(db);
    var resolved := ResolvedCoverage(design, names);
    var coverage := CoverageOf(resolved, names);
    MissingMeansUnaccounted(resolved, names, n);
    if n in coverage.missing {
      MissingIsFilled(design, db, qs, n);
    } else if !coverage.ok {
      AccountedStays(design, db, coverage.missing, qs, n);
    }
  }

  predicate AllJustified(es: seq<ExcludedEntity>) {
    forall i :: 0 <= i < |es| ==> IsJustified(es[i])
  }

  lemma DeclaredIsExcused(design: ApiDesign, names: seq<string>, n: string)
    requires DistinctEntityKeys(names) && AllJustified(design.Exclusions())
    requires n in EntitiesOf(ResolvedCoverage(design, names).Exclusions())
    ensures Excuses(ResolvedCoverage(design, names).Exclusions(), names, n)
  {
    hide DistinctEntityKeys, Resolve, IsJustified;
    var ms := ResolvedModules(design.modules, names);
    var es := ResolvedExclusions(design.Exclusions(), ms, names);
    assert ResolvedCoverage(design, names).Exclusions() == es;
    var k :| 0 <= k < |es| && es[k].entity == n;
    ResolvedExclusionsFixed(design.Exclusions(), ms, names);
    ExclusionHasSource(design.Exclusions(), ms, names, es[k]);
    ReasonDecides(design.Exclusions(), es[k]);
  }

  /** With a reason on every exclusion, nothing is ever left over. */
  lemma EnsureIsComplete(design: ApiDesign, db: DatabaseDesign, qs: Option<QueryScope>)
    requires DistinctEntityKeys(EntityNames(db)) && AllJustified(design.Exclusions())
    ensures CoverageOf(EnsuredCoverage(design, db, qs), EntityNames(db)).ok
  {
    hide DistinctEntityKeys, EnsuredCoverage, Filler, Covers, Excuses, ResolvedCoverage, AllJustified;
    var names := EntityNames(db);
    var resolved := ResolvedCoverage(design, names);
    forall n | n in names ensures IsAccounted(EnsuredCoverage(design, db, qs), names, n) {
      MissingMeansUnaccounted(resolved, names, n);
      if n in EntitiesOf(resolved.Exclusions()) {
        DeclaredIsExcused(design, names, n);
      }
      EnsureAccounts(design, db, qs, n);
    }
    OkIffAllAccounted(EnsuredCoverage(design, db, qs), names);
  }

  lemma ReasonDecides(es: seq<ExcludedEntity>, e: ExcludedEntity)
    requires AllJustified(es) && exists k :: 0 <= k < |es| && es[k].reason == e.reason
    ensures IsJustified(e)
  {
    var k :| 0 <= k < |es| && es[k].reason == e.reason;
    assert IsJustified(es[k]);
  }

  // ---------- exactly when it fails ----------

  predicate SlashFree(names: seq<string>) {
    forall i :: 0 <= i < |names| ==> '/' !in names[i]
  }

  lemma UnderApi(rest: string)
    ensures Split("/api/" + rest, '/') == ["", "api"] + Split(rest, '/')
  {
    hide Split;
    var api: string := "api";
    assert "/api/" + rest == "" + ['/'] + (api + ['/'] + rest);
    SplitPrefix("", '/', api + ['/'] + rest);
    SplitPrefix(api, '/', rest);
  }

  lemma ParamFirst(key: string, tail: string)
    requires '/' !in key && "/:" <= tail
    ensures var rest := Split(key + tail, '/'); |rest| > 1 && rest[0] == key && IsParam(rest[1])
  {
    assert key + tail == key + ['/'] + tail[1..];
    SplitPrefix(key, '/', tail[1..]);
    assert tail[1..][0] == ':';
  }

  /** After the base come no segments, or a parameter first. */
  lemma UnderTail(key: string, path: string)
    requires '/' !in key && Under(BasePath(key), path)
    ensures var rest := Split(path, '/');
            |rest| >= 3 && rest[..3] == ["", "api", key] && (|rest| > 3 ==> IsParam(rest[3]))
  {
    hide Split;
    var base := BasePath(key);
    var tail := path[|base|..];
    assert path == "/api/" + (key + tail);
    UnderApi(key + tail);
    if path == base {
      assert key + tail == key;
      SplitNone(key, '/');
    } else {
      assert tail[..2] == (base + "/:")[|base|..];
      ParamFirst(key, tail);
    }
  }

  /** A generated path names no resource but its group's own. */
  lemma OwnPathMentions(key: string, path: string, names: seq<string>)
    requires '/' !in key && Under(BasePath(key), path) && Resolve(names, key) == Some(key)
    ensures forall x :: x in PathEntities(Split(path, '/'), names) ==> x == key
  {
    hide Resolve, BasePath, Under, Split, PathEntities;
    var segments := Split(path, '/');
    UnderTail(key, path);
    assert segments[0..] == segments && segments[|segments|..] == [];
    assert segments[..3][0] == "" && segments[..3][1] == "api" && segments[..3][2] == key;
    PathStep(segments, 0, names);
    PathStep(segments, 1, names);
    PathStep(segments, 2, names);
    if |segments| > 3 {
      PathStep(segments, 3, names);
    } else {
      PathEnd(names);
    }
    assert PathEntities(segments[3..], names) == [];
  }

  lemma {:induction false} OwnPathsMention(key: string, paths: seq<string>, names: seq<string>)
    requires '/' !in key && Resolve(names, key) == Some(key)
    requires forall i :: 0 <= i < |paths| ==> Under(BasePath(key), paths[i])
    ensures forall x :: x in MentionedEntities(paths, names) ==> x == key
  {
    hide Resolve, BasePath, Under, Split, PathEntities;
    if paths != [] {
      OwnPathsMention(key, paths[..|paths| - 1], names);
      OwnPathMentions(key, paths[|paths| - 1], names);
    }
  }

  /** An adopted group is a generated one: one entity, its own paths. */
  lemma AdoptedIsGenerated(resolved: ApiDesign, db: DatabaseDesign, s: set<string>, qs: Option<QueryScope>, j: nat)
    returns (key: string)
    requires DistinctEntityKeys(EntityNames(db))
    requires |resolved.modules| <= j < |MergedFiller(resolved, db, Keep(EntityNames(db), s), qs).modules|
    ensures var names := EntityNames(db); var missing := Keep(names, s);
            var m := MergedFiller(resolved, db, missing, qs).modules[j];
            && key in names && Resolve(names, key) == Some(key)
            && key in KeySet(Filler(db, missing, qs).modules)
            && m.Claims() == [key]
            && forall i :: 0 <= i < |Paths(m)| ==> Under(BasePath(key), Paths(m)[i])
  {
    hide DistinctEntityKeys, Resolve, Filler, Fills, Keep, BasePath, Under;
    var names := EntityNames(db);
    var missing := Keep(names, s);
    var t, added := Filler(db, missing, qs).modules, FillerModules(db, missing, qs);
    var m := MergedFiller(resolved, db, missing, qs).modules[j];
    AdoptedIsFiller(resolved.modules, added, missing, j);
    var i :| 0 <= i < |added| && m.basePath == added[i].basePath && m.endpoints == added[i].endpoints
             && m.Claims() == Distinct(Fills(added[i], missing));
    GroupFills(db, s, qs, i);
    key := t[i].key;
    SettledInKept(names, s, key);
    DistinctFixed([key]);
    BaseIsUnder(key);
    assert key in KeySet(t);
  }

  lemma BaseIsUnder(key: string)
    ensures Under(BasePath(key), BasePath(key))
  {
  }

  /** An adopted group serves generated groups' entities only, also after inference. */
  lemma AdoptedServes(resolved: ApiDesign, db: DatabaseDesign, s: set<string>, qs: Option<QueryScope>, j: nat)
    requires DistinctEntityKeys(EntityNames(db)) && SlashFree(EntityNames(db))
    requires |resolved.modules| <= j < |MergedFiller(resolved, db, Keep(EntityNames(db), s), qs).modules|
    ensures var names := EntityNames(db); var missing := Keep(names, s);
            var m := MergedFiller(resolved, db, missing, qs).modules[j];
            forall x :: x in ResolvedModule(m, names).Claims() ==> x in KeySet(Filler(db, missing, qs).modules)
  {
    hide DistinctEntityKeys, Resolve, Filler, MergedFiller, Keep, BasePath, Under, KeySet, MentionedEntities;
    var names := EntityNames(db);
    var m := MergedFiller(resolved, db, Keep(names, s), qs).modules[j];
    var key := AdoptedIsGenerated(resolved, db, s, qs, j);
    ResolveAllFixed([key], names);
    var k :| 0 <= k < |names| && names[k] == key;
    OwnPathsMention(key, Paths(m), names);
    DistinctMembers(MentionedEntities(Paths(m), names));
    ResolvedClaims(m, names);
  }

  /** After the guarantee, a group serves only what was served before, or generated groups' entities. */
  lemma FinalClaims(design: ApiDesign, db: DatabaseDesign, s: set<string>, qs: Option<QueryScope>, j: nat, n: string)
    requires DistinctEntityKeys(EntityNames(db)) && SlashFree(EntityNames(db))
    requires var names := EntityNames(db); var resolved := ResolvedCoverage(design, names);
             var merged := MergedFiller(resolved, db, Keep(names, s), qs);
             j < |merged.modules| && n in ResolvedModule(merged.modules[j], names).Claims()
    ensures var names := EntityNames(db);
            || Claimed(ResolvedCoverage(design, names).modules, n)
            || n in KeySet(Filler(db, Keep(names, s), qs).modules)
  {
    hide DistinctEntityKeys, Resolve, Filler, ResolvedModule, SlashFree, FillerModules, MergedModules, Keep, KeySet;
    var names := EntityNames(db);
    var resolved := ResolvedCoverage(design, names);
    var missing := Keep(names, s);
    var merged := MergedFiller(resolved, db, missing, qs);
    MergeOnlyFillsGaps(resolved.modules, FillerModules(db, missing, qs), missing);
    if j < |resolved.modules| {
      assert merged.modules[j] == resolved.modules[j] == ResolvedModule(design.modules[j], names);
      ResolvedModuleIdempotent(design.modules[j], names);
    } else {
      AdoptedServes(resolved, db, s, qs, j);
    }
  }

  /** No group serves a stuck entity. */
  lemma StuckIsNotServed(design: ApiDesign, db: DatabaseDesign, qs: Option<QueryScope>, n: string)
    requires DistinctEntityKeys(EntityNames(db)) && SlashFree(EntityNames(db)) && IsStuck(design, db, qs, n)
    ensures !Covers(EnsuredCoverage(design, db, qs).modules, EntityNames(db), n)
  {
    hide DistinctEntityKeys, Resolve, Filler, ResolvedModule, CoveredSet, ExcludedSet, MissingSet, SlashFree;
    hide Accounts, MergedFiller, Covers, ResolvedCoverage, Keep, KeySet, EntitiesOf, Excuses;
    var names := EntityNames(db);
    var resolved := ResolvedCoverage(design, names);
    var s := MissingSet(resolved, names);
    var missing := Keep(names, s);
    var merged := MergedFiller(resolved, db, missing, qs);
    FillerAccounts(db, s, qs);
    AccountsDisjoint(Filler(db, missing, qs), NamesOf(Scope(db.entities, Some(missing))));
    MissingMeansUnaccounted(resolved, names, n);
    CoversIffClaimed(design, names, n);
    CoversIffClaimed(merged, names, n);
    ModulesOfResolved(merged, names);
    var final := ResolvedCoverage(merged, names);
    forall j | 0 <= j < |final.modules| ensures n !in final.modules[j].Claims() {
      if n in final.modules[j].Claims() {
        FinalClaims(design, db, s, qs, j, n);
        assert false;
      }
    }
    EnsuredIsMerged(design, db, qs);
  }

  lemma ModulesOfResolved(design: ApiDesign, names: seq<string>)
    ensures var ms := ResolvedCoverage(design, names).modules;
            && |ms| == |design.modules|
            && forall j :: 0 <= j < |ms| ==> ms[j] == ResolvedModule(design.modules[j], names)
  {
    hide ResolvedModule;
  }

  lemma EnsuredIsMerged(design: ApiDesign, db: DatabaseDesign, qs: Option<QueryScope>)
    ensures var names := EntityNames(db); var resolved := ResolvedCoverage(design, names);
            var missing := CoverageOf(resolved, names).missing;
            missing != [] ==>
              EnsuredCoverage(design, db, qs) == ResolvedCoverage(MergedFiller(resolved, db, missing, qs), names)
  {
    hide ResolvedCoverage, MissingSet, CoveredSet, ExcludedSet, BuiltGroups, Merged;
  }

  lemma AccountsDisjoint(g: Groups, names: set<string>)
    requires Accounts(g, names)
    ensures KeySet(g.modules) !! EntitiesOf(g.excluded)
  {
  }

  /** No exclusion excuses a stuck entity. */
  lemma StuckIsNotExcused(design: ApiDesign, db: DatabaseDesign, qs: Option<QueryScope>, n: string)
    requires DistinctEntityKeys(EntityNames(db)) && IsStuck(design, db, qs, n)
    ensures !Excuses(EnsuredCoverage(design, db, qs).Exclusions(), EntityNames(db), n)
  {
    hide DistinctEntityKeys, Filler, CoveredSet, ExcludedSet, MissingSet, ResolvedCoverage, EntitiesOf, MergedFiller, Covers;
    hide Resolve, IsJustified;
    var names := EntityNames(db);
    var resolved := ResolvedCoverage(design, names);
    var s := MissingSet(resolved, names);
    var merged := MergedFiller(resolved, db, Keep(names, s), qs);
    MissingMeansUnaccounted(resolved, names, n);
    EnsuredIsMerged(design, db, qs);
    var es := ResolvedCoverage(merged, names).Exclusions();
    forall k | 0 <= k < |es| && Resolve(names, es[k].entity) == Some(n) ensures !IsJustified(es[k]) {
      var i := FinalExclusionIsOld(design, db, s, qs, k, n);
      SameReason(resolved.Exclusions()[i], es[k]);
    }
  }

  lemma FinalExclusionIsOld(design: ApiDesign, db: DatabaseDesign, s: set<string>, qs: Option<QueryScope>, k: nat, n: string)
    returns (i: nat)
    requires DistinctEntityKeys(EntityNames(db))
    requires n in EntitiesOf(ResolvedCoverage(design, EntityNames(db)).Exclusions())
    requires var names := EntityNames(db); var resolved := ResolvedCoverage(design, names);
             var es := ResolvedCoverage(MergedFiller(resolved, db, Keep(names, s), qs), names).Exclusions();
             k < |es| && Resolve(names, es[k].entity) == Some(n)
    ensures var names := EntityNames(db); var resolved := ResolvedCoverage(design, names);
            var es := ResolvedCoverage(MergedFiller(resolved, db, Keep(names, s), qs), names).Exclusions();
            && i < |resolved.Exclusions()| && resolved.Exclusions()[i].reason == es[k].reason
            && Resolve(names, resolved.Exclusions()[i].entity) == Some(n)
  {
    hide DistinctEntityKeys, Resolve, Filler, FillerModules, ResolvedCoverage, IsJustified, AllClaims, MergedModules, EntitiesOf;
    var names := EntityNames(db);
    var resolved := ResolvedCoverage(design, names);
    var missing := Keep(names, s);
    var merged := MergedFiller(resolved, db, missing, qs);
    var es := ResolvedCoverage(merged, names).Exclusions();
    ExclusionsOfResolved(merged, names);
    ResolvedExclusionsFixed(merged.Exclusions(), ResolvedCoverage(merged, names).modules, names);
    ExclusionHasSource(merged.Exclusions(), ResolvedCoverage(merged, names).modules, names, es[k]);
    i :| 0 <= i < |merged.Exclusions()| && merged.Exclusions()[i].reason == es[k].reason
         && Resolve(names, merged.Exclusions()[i].entity) == Some(es[k].entity);
    SourceIsOld(design, db, s, qs, n, i);
    MergeExclusionsOnlyExcusesGaps(resolved.Exclusions(), Filler(db, missing, qs).excluded, missing, AllClaims(merged.modules));
    assert merged.Exclusions()[i] == resolved.Exclusions()[i];
  }

  lemma ExclusionsOfResolved(design: ApiDesign, names: seq<string>)
    ensures var r := ResolvedCoverage(design, names);
            r.Exclusions() == ResolvedExclusions(design.Exclusions(), r.modules, names)
  {
    hide ResolvedModule;
  }

  lemma SameReason(a: ExcludedEntity, b: ExcludedEntity)
    requires a.reason == b.reason
    ensures IsJustified(a) == IsJustified(b)
  {
  }

  /** What excuses an already declared entity after the merge was declared before it. */
  lemma SourceIsOld(design: ApiDesign, db: DatabaseDesign, s: set<string>, qs: Option<QueryScope>, n: string, i: nat)
    requires DistinctEntityKeys(EntityNames(db))
    requires var names := EntityNames(db); var resolved := ResolvedCoverage(design, names);
             var es := MergedFiller(resolved, db, Keep(names, s), qs).Exclusions();
             && n in EntitiesOf(resolved.Exclusions())
             && i < |es| && Resolve(names, es[i].entity) == Some(n)
    ensures i < |ResolvedCoverage(design, EntityNames(db)).Exclusions()|
  {
    hide DistinctEntityKeys, Resolve, Filler, ResolvedCoverage, IsJustified;
    hide FillerModules, MergedModules, AllClaims;
    var names := EntityNames(db);
    var resolved := ResolvedCoverage(design, names);
    var missing := Keep(names, s);
    var merged := MergedFiller(resolved, db, missing, qs);
    MergeExclusionsOnlyExcusesGaps(resolved.Exclusions(), Filler(db, missing, qs).excluded, missing, AllClaims(merged.modules));
    if i >= |resolved.Exclusions()| {
      SettledInKept(names, s, merged.Exclusions()[i].entity);
    }
  }

  /** For slash-free names the guarantee fails exactly on stuck entities. */
  lemma EnsureIsCompleteIff(design: ApiDesign, db: DatabaseDesign, qs: Option<QueryScope>)
    requires DistinctEntityKeys(EntityNames(db)) && SlashFree(EntityNames(db))
    ensures CoverageOf(EnsuredCoverage(design, db, qs), EntityNames(db)).ok
            <==> forall n :: n in EntityNames(db) ==> !IsStuck(design, db, qs, n)
  {
    hide DistinctEntityKeys, EnsuredCoverage, IsStuck, Covers, Excuses, SlashFree;
    var names := EntityNames(db);
    forall n | n in names
      ensures IsAccounted(EnsuredCoverage(design, db, qs), names, n) <==> !IsStuck(design, db, qs, n)
    {
      if IsStuck(design, db, qs, n) {
        StuckIsNotServed(design, db, qs, n);
        StuckIsNotExcused(design, db, qs, n);
      } else {
        EnsureAccounts(design, db, qs, n);
      }
    }
    OkIffAllAccounted(EnsuredCoverage(design, db, qs), names);
  }

  // ---------- a name nothing resolves to ----------

  lemma EmptyKeyIsNeverResolved(names: seq<string>, value: string, n: string)
    requires Key(n) == ""
    ensures Resolve(names, value) != Some(n)
  {
    hide Key;
    LastWithKeyIsListed(names, Key(value));
    FirstWithSingularIsListed(names, Key(value));
  }

  /** A table name without letters or digits is never covered or excused, whatever the design. */
  lemma EmptyKeyIsMissing(design: ApiDesign, names: seq<string>, n: string)
    requires n in names && Key(n) == ""
    ensures n in CoverageOf(design, names).missing && !CoverageOf(design, names).ok
  {
    hide Key, Resolve, IsJustified;
    MissingMeansUnaccounted(design, names, n);
    forall value ensures Resolve(names, value) != Some(n) {
      EmptyKeyIsNeverResolved(names, value, n);
    }
  }

  // ---------- what a stuck entity looks like before the call ----------

  predicate IsNestedIn(all: seq<Entity>, inScope: set<string>, scope: seq<Entity>, n: string) {
    exists i :: 0 <= i < |scope| && scope[i].name == n && IsNested(all, inScope, scope[i])
  }

  lemma {:induction false} ExcludedAreNested(all: seq<Entity>, inScope: set<string>, scope: seq<Entity>, qs: Option<QueryScope>,
                                             start: Table<ApiModule>, n: nat, x: string)
    requires n <= |scope| && x in EntitiesOf(Nest(all, inScope, scope, qs, Groups(start, []), n).excluded)
    ensures IsNestedIn(all, inScope, scope, x)
  {
    hide IsNested, BuiltParent, AddEndpoints, JunctionEndpoints, JunctionReason, EntityModule, DemandFor;
    if n > 0 {
      var before := Nest(all, inScope, scope, qs, Groups(start, []), n - 1);
      if x in EntitiesOf(before.excluded) {
        ExcludedAreNested(all, inScope, scope, qs, start, n - 1, x);
      } else {
        var e := scope[n - 1];
        assert IsNested(all, inScope, e) && e.name == x;
      }
    }
  }

  /** The design excludes the entity without saying why. */
  predicate HasBlankExclusion(design: ApiDesign, names: seq<string>, n: string) {
    exists k :: 0 <= k < |design.Exclusions()| && !IsJustified(design.Exclusions()[k])
                && Resolve(names, design.Exclusions()[k].entity) == Some(n)
  }

  /** A join table whose parent is a known table. */
  predicate IsJunctionWithParent(es: seq<Entity>, n: string) {
    exists i :: 0 <= i < |es| && es[i].name == n && IsJunctionEntity(es[i]) && ParentOf(es, es[i]).Some?
  }

  lemma BlankExclusionShadows(design: ApiDesign, db: DatabaseDesign, qs: Option<QueryScope>, n: string)
    requires DistinctEntityKeys(EntityNames(db)) && IsStuck(design, db, qs, n)
    ensures HasBlankExclusion(design, EntityNames(db), n)
  {
    hide DistinctEntityKeys, Resolve, IsJustified, Filler, ResolvedModules, Covers;
    var names := EntityNames(db);
    var ms := ResolvedModules(design.modules, names);
    var es := ResolvedExclusions(design.Exclusions(), ms, names);
    assert ResolvedCoverage(design, names).Exclusions() == es;
    MissingMeansUnaccounted(ResolvedCoverage(design, names), names, n);
    var j :| 0 <= j < |es| && es[j].entity == n;
    ExclusionHasSource(design.Exclusions(), ms, names, es[j]);
    var i :| 0 <= i < |names| && names[i] == n;
    ResolveListed(names, i);
    var k :| 0 <= k < |design.Exclusions()| && design.Exclusions()[k].reason == es[j].reason
             && Resolve(names, design.Exclusions()[k].entity) == Some(n);
    if IsJustified(design.Exclusions()[k]) {
      SameReason(design.Exclusions()[k], es[j]);
      assert false;
    }
  }

  lemma StuckIsJunction(design: ApiDesign, db: DatabaseDesign, qs: Option<QueryScope>, n: string)
    requires IsStuck(design, db, qs, n)
    ensures IsJunctionWithParent(db.entities, n)
  {
    hide IsJunctionEntity, ParentOf, ResolvedCoverage, TopLevel, Nest, Scope;
    var missing := CoverageOf(ResolvedCoverage(design, EntityNames(db)), EntityNames(db)).missing;
    var all, scope := db.entities, Scope(db.entities, Some(missing));
    var inScope := NamesOf(scope);
    ExcludedAreNested(all, inScope, scope, qs, TopLevel(all, inScope, scope, qs, |scope|), |scope|, n);
    var i :| 0 <= i < |scope| && scope[i].name == n && IsNested(all, inScope, scope[i]);
    ScopeExact(all, Some(missing));
    assert scope[i] in all;
    var j :| 0 <= j < |all| && all[j] == scope[i];
  }

  /** Coverage is complete for every design that does not leave the reason blank on a join table
      with a known parent: nothing else can go wrong. */
  lemma OnlyBlankJunctionsFail(design: ApiDesign, db: DatabaseDesign, qs: Option<QueryScope>)
    requires DistinctEntityKeys(EntityNames(db))
    requires forall n :: n in EntityNames(db) && HasBlankExclusion(design, EntityNames(db), n) ==> !IsJunctionWithParent(db.entities, n)
    ensures CoverageOf(EnsuredCoverage(design, db, qs), EntityNames(db)).ok
  {
    hide DistinctEntityKeys, EnsuredCoverage, IsStuck, Covers, Excuses, HasBlankExclusion, IsJunctionWithParent;
    var names := EntityNames(db);
    forall n | n in names ensures IsAccounted(EnsuredCoverage(design, db, qs), names, n) {
      if IsStuck(design, db, qs, n) {
        BlankExclusionShadows(design, db, qs, n);
        StuckIsJunction(design, db, qs, n);
        assert false;
      }
      EnsureAccounts(design, db, qs, n);
    }
    OkIffAllAccounted(EnsuredCoverage(design, db, qs), names);
  }
}
