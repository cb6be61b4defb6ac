/** A design is normalized when it is written and again when it is read: the second pass finds
    nothing to do. */
module NormalizeTwice {
  import opened Text
  import opened Collections
  import opened Schema
  import opened StatusCodes
  import opened Normalize
  import opened BasePaths
  import opened SpacedBases
  import opened Lossless

  // ---------- a whole design ----------

  lemma EndpointFixedIff(e: ApiEndpoint, base: string)
    requires Clean(e.statusCodes)
    ensures NormalEndpoint(RawOfEndpoint(e), base) == e <==> AbsolutePath(Some(e.path), base) == e.path
  {
    hide AbsolutePath, StatusCodesOf, Clean, VerbName, ParseVerb, AsRaw;
    VerbsParseBack(e.verb);
    CleanCodesAreKept(e.statusCodes);
  }

  lemma {:induction false} PresentNamesAreThere(names: seq<Option<string>>)
    ensures forall i :: 0 <= i < |PresentNames(names)| ==> Trim(PresentNames(names)[i]) != ""
  {
    hide Trim;
    if names != [] {
      PresentNamesAreThere(names[1..]);
    }
  }

  lemma {:induction false} PositionsRise<T>(items: seq<T>, key: T -> string, n: nat)
    requires n <= |items|
    ensures |FirstPositions(items, key, n)| <= n
    ensures |FirstPositions(items, key, n)| == n ==> forall k :: 0 <= k < n ==> FirstPositions(items, key, n)[k] == k
  {
    hide IsFirst;
    if n > 0 {
      PositionsRise(items, key, n - 1);
    }
  }

  /** De-duplication that drops nothing changes nothing. */
  lemma NothingDropped<T>(items: seq<T>, key: T -> string)
    requires |DedupedBy(items, key)| == |items|
    ensures DedupedBy(items, key) == items
  {
    PositionsRise(items, key, |items|);
  }

  /** Every path of the group is read back as it is. */
  predicate HasFixedPaths(m: ApiModule) {
    forall j :: 0 <= j < |m.endpoints| ==> AbsolutePath(Some(m.endpoints[j].path), m.basePath) == m.endpoints[j].path
  }

  predicate IsNormalModule(m: ApiModule) {
    CleanEndpoints(m.endpoints) && forall i :: 0 <= i < |m.Claims()| ==> Trim(m.Claims()[i]) != ""
  }

  lemma ModuleFixedIff(m: ApiModule)
    requires IsNormalModule(m)
    ensures NormalModule(RawOfModule(m)) == m <==> HasFixedPaths(m)
  {
    hide NormalEndpoint, RawOfEndpoint, RouteOf, Fold, Trim, PresentNames, ParseSource, SourceName, DedupedBy, AbsolutePath, Clean;
    var again := NormalEndpoints(RawOfModule(m).endpoints.value, m.basePath);
    forall j | 0 <= j < |m.endpoints|
      ensures again[j] == m.endpoints[j] <==> AbsolutePath(Some(m.endpoints[j].path), m.basePath) == m.endpoints[j].path
    {
      EndpointFixedIff(m.endpoints[j], m.basePath);
    }
    if HasFixedPaths(m) {
      assert again == m.endpoints;
      DedupedByFixed(m.endpoints, RouteOf);
    } else if DedupedBy(again, RouteOf) == m.endpoints {
      NothingDropped(again, RouteOf);
      assert false;
    }
    if m.coveredEntities.Some? {
      ClaimsAreKept(m.Claims());
    }
    SourcesParseBack(m.source);
  }

  lemma NormalizedIsNormal(raw: RawModule)
    ensures IsNormalModule(NormalModule(raw))
  {
    hide CleanEndpoints, Trim, PresentNames, DedupedBy, RouteOf;
    NormalModuleIsClean(raw);
    if raw.coveredEntities.Some? {
      PresentNamesAreThere(raw.coveredEntities.value);
    }
  }

  lemma {:induction false} ExclusionsAreTidy(es: seq<RawExclusion>)
    ensures forall i :: 0 <= i < |NormalExclusions(es)| ==> IsTidy(NormalExclusions(es)[i])
  {
    hide Trim;
    if es != [] {
      ExclusionsAreTidy(es[1..]);
      if IsShaped(es[0]) {
        var e := ExcludedEntity(Trim(es[0].entity.value), Trim(es[0].reason.value));
        TrimIsTrimmed(es[0].entity.value);
        TrimIsTrimmed(es[0].reason.value);
        TrimIdempotent(es[0].reason.value);
        assert IsTidy(e);
      }
    }
  }

  /** What was stored normalized is read back as it is, whatever was in it, if and only if every
      path in it is read back as it is under its own group's base. */
  lemma NormalizingTwiceIff(d: RawDesign)
    ensures var once := NormalDesign(d);
            NormalDesign(RawOfDesign(once)) == once <==> forall i :: 0 <= i < |once.modules| ==> HasFixedPaths(once.modules[i])
  {
    hide NormalModule, RawOfModule, NormalExclusions, RawOfExclusions, DedupedBy, IsTidy, Fold, HasFixedPaths, IsNormalModule;
    var raws, once := d.modules.GetOr([]), NormalDesign(d);
    var ms := NormalModules(raws);
    var again := NormalModules(RawOfModules(once.modules));
    DedupedByDistinct(ms, NameOf);
    forall i | 0 <= i < |once.modules|
      ensures again[i] == once.modules[i] <==> HasFixedPaths(once.modules[i])
      ensures NameOf(again[i]) == NameOf(once.modules[i])
    {
      var j := DedupedByKeepsFirsts(ms, NameOf, i);
      NormalizedIsNormal(raws[j]);
      ModuleFixedIff(once.modules[i]);
      NameIsKept(once.modules[i]);
    }
    DedupedByFixed(again, NameOf);
    if d.excludedEntities.Some? {
      ExclusionsAreTidy(d.excludedEntities.value);
      ExclusionsAreKept(once.excludedEntities.value);
    }
  }

  lemma NameIsKept(m: ApiModule)
    ensures NormalModule(RawOfModule(m)).name == m.name
  {
    hide NormalEndpoints, DedupedBy, PresentNames, ParseSource;
  }

  predicate HasFixedBases(d: RawDesign) {
    var ms := d.modules.GetOr([]);
    forall i :: 0 <= i < |ms| ==> IsFixedBase(ms[i].basePath.GetOr(""))
  }

  lemma FixedBaseFixesPaths(raw: RawModule)
    requires IsFixedBase(raw.basePath.GetOr(""))
    ensures HasFixedPaths(NormalModule(raw))
  {
    hide AbsolutePath, StatusCodesOf, ParseVerb, IsFixedBase, RouteOf, DedupedBy, PresentNames, ParseSource;
    var base, m := raw.basePath.GetOr(""), NormalModule(raw);
    var es := NormalEndpoints(raw.endpoints.GetOr([]), base);
    EveryBaseIff(base);
    forall j | 0 <= j < |m.endpoints| ensures AbsolutePath(Some(m.endpoints[j].path), base) == m.endpoints[j].path {
      var k := DedupedByKeepsFirsts(es, RouteOf, j);
      assert IsStable(raw.endpoints.GetOr([])[k].path, base);
    }
  }

  /** In particular when every group's base is one under which no path can change. */
  lemma NormalizingTwice(d: RawDesign)
    requires HasFixedBases(d)
    ensures NormalDesign(RawOfDesign(NormalDesign(d))) == NormalDesign(d)
  {
    hide NormalModule, RawOfDesign, NormalExclusions, IsFixedBase, DedupedBy, HasFixedPaths;
    var raws, once := d.modules.GetOr([]), NormalDesign(d);
    NormalizingTwiceIff(d);
    forall i | 0 <= i < |once.modules| ensures HasFixedPaths(once.modules[i]) {
      var j := DedupedByKeepsFirsts(NormalModules(raws), NameOf, i);
      FixedBaseFixesPaths(raws[j]);
    }
  }
}
