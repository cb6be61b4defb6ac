/** Folding a repair or fallback build into a design: only what fills a gap is kept. */
module Merge {
  import opened Text
  import opened Collections
  import opened Numerals
  import opened Schema
  import opened Coverage

  datatype CoverageAddition = CoverageAddition(modules: seq<ApiModule>, excludedEntities: seq<ExcludedEntity>)

  function ModuleNames(ms: seq<ApiModule>): set<string> {
    set i | 0 <= i < |ms| :: ms[i].name
  }

  predicate DistinctModuleNames(ms: seq<ApiModule>) {
    forall i, j :: 0 <= i < j < |ms| ==> ms[i].name != ms[j].name
  }

  /** What a group fills: the missing entities among its claims. */
  function Fills(m: ApiModule, missing: seq<string>): seq<string> {
    ResolveAll(m.Claims(), missing)
  }

  function Adopted(m: ApiModule, missing: seq<string>, used: set<string>): ApiModule {
    m.(name := FreeName(m.name, " ", used), coveredEntities := Some(Distinct(Fills(m, missing))))
  }

  function MergedModules(start: seq<ApiModule>, added: seq<ApiModule>, missing: seq<string>): seq<ApiModule> {
    if added == [] then start
    else
      var so, m := MergedModules(start, added[..|added| - 1], missing), added[|added| - 1];
      if Fills(m, missing) == [] then so else so + [Adopted(m, missing, ModuleNames(so))]
  }

  function EntitiesOf(es: seq<ExcludedEntity>): set<string> {
    set i | 0 <= i < |es| :: es[i].entity
  }

  /** Every entity some group lists. */
  function AllClaims(ms: seq<ApiModule>): set<string> {
    set i, j | 0 <= i < |ms| && 0 <= j < |ms[i].Claims()| :: ms[i].Claims()[j]
  }

  function MergedExclusions(start: seq<ExcludedEntity>, added: seq<ExcludedEntity>, missing: seq<string>,
                            filled: set<string>): seq<ExcludedEntity> {
    if added == [] then start
    else
      var so := MergedExclusions(start, added[..|added| - 1], missing, filled);
      var e := added[|added| - 1];
      match Resolve(missing, e.entity)
      case None => so
      case Some(n) =>
        if !IsJustified(e) || n in filled || n in EntitiesOf(so) then so
        else so + [ExcludedEntity(n, Trim(e.reason))]
  }

  function Merged(design: ApiDesign, addition: CoverageAddition, missing: seq<string>): ApiDesign {
    var ms := MergedModules(design.modules, addition.modules, missing);
    design.(modules := ms,
            excludedEntities := Listed(MergedExclusions(design.Exclusions(), addition.excludedEntities,
                                                        missing, AllClaims(ms))))
  }

  method MergeMissingCoverage(design: ApiDesign, addition: CoverageAddition, missing: seq<string>)
    returns (r: ApiDesign)
    ensures r == Merged(design, addition, missing)
  {
    var resolver := MakeResolver(missing);
    var used := ModuleNames(design.modules);
    var ms := design.modules;
    for i := 0 to |addition.modules|
      invariant ms == MergedModules(design.modules, addition.modules[..i], missing)
      invariant used == ModuleNames(ms)
    {
      assert addition.modules[..i + 1][..i] == addition.modules[..i];
      var m := addition.modules[i];
      var fills := CollectFills(m.Claims(), resolver, missing);
      if fills == [] {
        continue;
      }
      var name := PickFreeName(m.name, " ", used);
      AppendedNames(ms, m.(name := name, coveredEntities := Some(Distinct(fills))));
      used := used + {name};
      ms := ms + [m.(name := name, coveredEntities := Some(Distinct(fills)))];
    }
    assert addition.modules[..|addition.modules|] == addition.modules;
    var filled := AllClaims(ms);
    var es := MergeExclusions(design.Exclusions(), addition.excludedEntities, resolver, missing, filled);
    r := design.(modules := ms, excludedEntities := Listed(es));
  }

  method CollectFills(claims: seq<string>, resolver: Resolver, ghost missing: seq<string>) returns (fills: seq<string>)
    requires resolver.For(missing)
    ensures fills == ResolveAll(claims, missing)
  {
    fills := [];
    for i := 0 to |claims|
      invariant fills == ResolveAll(claims[..i], missing)
    {
      assert claims[..i + 1][..i] == claims[..i];
      fills := fills + FromOption(resolver.Lookup(claims[i]));
    }
    assert claims[..|claims|] == claims;
  }

  method MergeExclusions(start: seq<ExcludedEntity>, added: seq<ExcludedEntity>, resolver: Resolver,
                         ghost missing: seq<string>, filled: set<string>)
    returns (es: seq<ExcludedEntity>)
    requires resolver.For(missing)
    ensures es == MergedExclusions(start, added, missing, filled)
  {
    es := start;
    var declared := EntitiesOf(es);
    for i := 0 to |added|
      invariant es == MergedExclusions(start, added[..i], missing, filled)
      invariant declared == EntitiesOf(es)
    {
      assert added[..i + 1][..i] == added[..i];
      var name := resolver.Lookup(added[i].entity);
      if name.None? || !IsJustified(added[i]) {
        continue;
      }
      if name.value in filled || name.value in declared {
        continue;
      }
      var entry := ExcludedEntity(name.value, Trim(added[i].reason));
      AppendedEntities(es, entry);
      declared := declared + {name.value};
      es := es + [entry];
    }
    assert added[..|added|] == added;
  }

  lemma AppendedNames(ms: seq<ApiModule>, m: ApiModule)
    ensures ModuleNames(ms + [m]) == ModuleNames(ms) + {m.name}
  {
    var all := ms + [m];
    forall x | x in ModuleNames(ms) + {m.name} ensures x in ModuleNames(all) {
      if x == m.name {
        assert all[|ms|].name == x;
      } else {
        var i :| 0 <= i < |ms| && ms[i].name == x;
        assert all[i].name == x;
      }
    }
  }

  lemma AppendedEntities(es: seq<ExcludedEntity>, e: ExcludedEntity)
    ensures EntitiesOf(es + [e]) == EntitiesOf(es) + {e.entity}
  {
    var all := es + [e];
    forall x | x in EntitiesOf(es) + {e.entity} ensures x in EntitiesOf(all) {
      if x == e.entity {
        assert all[|es|].entity == x;
      } else {
        var i :| 0 <= i < |es| && es[i].entity == x;
        assert all[i].entity == x;
      }
    }
  }

  // ---------- what a merge may do ----------

  /** The groups already designed stay where and as they are; each group added covers
      missing entities only (and at least one); names stay distinct if they were. */
  lemma {:induction false} MergeOnlyFillsGaps(start: seq<ApiModule>, added: seq<ApiModule>, missing: seq<string>)
    ensures var ms := MergedModules(start, added, missing);
            && start <= ms
            && (forall i :: |start| <= i < |ms| ==>
                  ms[i].Claims() != [] && forall x :: x in ms[i].Claims() ==> x in missing)
            && (DistinctModuleNames(start) ==> DistinctModuleNames(ms))
  {
    hide FreeIndex, Candidate, Resolve;
    if added != [] {
      var front, m := added[..|added| - 1], added[|added| - 1];
      MergeOnlyFillsGaps(start, front, missing);
      var so := MergedModules(start, front, missing);
      if Fills(m, missing) != [] {
        var last := Adopted(m, missing, ModuleNames(so));
        DistinctMembers(Fills(m, missing));
        assert Fills(m, missing)[0] in last.Claims();
        forall x | x in last.Claims() ensures x in missing {
          ResolveAllListed(m.Claims(), missing, x);
        }
        FreeIndexIsFirstFree(m.name, " ", ModuleNames(so), 1);
        forall i | 0 <= i < |so| ensures so[i].name != last.name {
          assert so[i].name in ModuleNames(so);
        }
      }
    }
  }

  lemma {:induction false} ResolveAllListed(values: seq<string>, names: seq<string>, x: string)
    requires x in ResolveAll(values, names)
    ensures x in names
  {
    if values != [] {
      var v := values[|values| - 1];
      if x in ResolveAll(values[..|values| - 1], names) {
        ResolveAllListed(values[..|values| - 1], names, x);
      } else {
        ResolveIsListed(names, v);
      }
    }
  }

  /** Declared exclusions are an unchanged prefix, and those added excuse missing, unfilled,
      not yet declared entities with a stated reason. */
  lemma {:induction false} MergeExclusionsOnlyExcusesGaps(start: seq<ExcludedEntity>, added: seq<ExcludedEntity>,
                                                          missing: seq<string>, filled: set<string>)
    ensures var es := MergedExclusions(start, added, missing, filled);
            && start <= es
            && (forall i :: |start| <= i < |es| ==>
                  && es[i].entity in missing && es[i].entity !in filled
                  && es[i].entity !in EntitiesOf(start) && IsJustified(es[i]))
            && (forall i, j :: |start| <= i < j < |es| ==> es[i].entity != es[j].entity)
  {
    if added != [] {
      var front, e := added[..|added| - 1], added[|added| - 1];
      MergeExclusionsOnlyExcusesGaps(start, front, missing, filled);
      var so := MergedExclusions(start, front, missing, filled);
      ResolveIsListed(missing, e.entity);
      TrimIdempotent(e.reason);
      var es := MergedExclusions(start, added, missing, filled);
      if es != so {
        forall i | 0 <= i < |so| ensures so[i].entity != es[|so|].entity {
          assert so[i].entity in EntitiesOf(so);
        }
        forall i | 0 <= i < |start| ensures start[i].entity != es[|so|].entity {
          assert so[i] == start[i];
        }
      }
    }
  }
}
