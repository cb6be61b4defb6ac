/** Entity coverage accounting: every table has an endpoint group or a stated reason. */
module Coverage {
  import opened Text
  import opened Collections
  import opened Schema

  // ---------- resolving loose names ----------

  /** The last name spelled with letters and digits `k` (a later `Map.set` overwrites). */
  function LastWithKey(names: seq<string>, k: string): Option<string> {
    if names == [] then None
    else if Key(names[|names| - 1]) == k then Some(names[|names| - 1])
    else LastWithKey(names[..|names| - 1], k)
  }

  /** The first name whose singular is `k`. */
  function FirstWithSingular(names: seq<string>, k: string): Option<string> {
    if names == [] then None
    else
      match FirstWithSingular(names[..|names| - 1], k)
      case Some(n) => Some(n)
      case None =>
        if Singular(Key(names[|names| - 1])) == k then Some(names[|names| - 1]) else None
  }

  /** The entity a loose name refers to: an exact key match, else a plural of it. */
  function Resolve(names: seq<string>, value: string): Option<string> {
    var k := Key(value);
    if k == "" then None
    else if LastWithKey(names, k).Some? then LastWithKey(names, k)
    else FirstWithSingular(names, k)
  }

  datatype Resolver = Resolver(exact: map<string, string>, loose: map<string, string>) {
    function Lookup(value: string): Option<string> {
      var k := Key(value);
      if k == "" then None
      else if k in exact then Some(exact[k])
      else if k in loose then Some(loose[k])
      else None
    }

    ghost predicate For(names: seq<string>) {
      forall v :: Lookup(v) == Resolve(names, v)
    }
  }

  method MakeResolver(names: seq<string>) returns (r: Resolver)
    ensures r.For(names)
  {
    hide Key, Singular;
    var exact: map<string, string> := map[];
    for i := 0 to |names|
      invariant forall k :: LastWithKey(names[..i], k) == if k in exact then Some(exact[k]) else None
    {
      assert names[..i + 1][..i] == names[..i];
      exact := exact[Key(names[i]) := names[i]];
    }
    assert names[..|names|] == names;
    var loose: map<string, string> := map[];
    for i := 0 to |names|
      invariant forall k :: k !in exact ==>
                  FirstWithSingular(names[..i], k) == if k in loose then Some(loose[k]) else None
    {
      assert names[..i + 1][..i] == names[..i];
      var s := Singular(Key(names[i]));
      if s !in exact && s !in loose {
        loose := loose[s := names[i]];
      }
    }
    r := Resolver(exact, loose);
  }

  /** No two names share a key, and every name has one. */
  predicate DistinctEntityKeys(names: seq<string>) {
    && (forall i :: 0 <= i < |names| ==> Key(names[i]) != "")
    && (forall i, j :: 0 <= i < j < |names| ==> Key(names[i]) != Key(names[j]))
  }

  lemma {:induction false} LastWithKeyIsListed(names: seq<string>, k: string)
    ensures var n := LastWithKey(names, k);
            match n
            case Some(x) => x in names && Key(x) == k
            case None => forall i :: 0 <= i < |names| ==> Key(names[i]) != k
  {
    if names != [] {
      LastWithKeyIsListed(names[..|names| - 1], k);
    }
  }

  lemma {:induction false} FirstWithSingularIsListed(names: seq<string>, k: string)
    ensures var n := FirstWithSingular(names, k);
            n.Some? ==> n.value in names && Singular(Key(n.value)) == k
  {
    if names != [] {
      FirstWithSingularIsListed(names[..|names| - 1], k);
    }
  }

  /** A listed name resolves to itself. */
  lemma ResolveListed(names: seq<string>, i: nat)
    requires DistinctEntityKeys(names) && i < |names|
    ensures Resolve(names, names[i]) == Some(names[i])
  {
    var k := Key(names[i]);
    LastWithKeyIsListed(names, k);
    var x := LastWithKey(names, k).value;
    var j :| 0 <= j < |names| && names[j] == x;
    assert j == i;
  }

  /** Whatever a value resolves to is a listed name, and a fixed point of the resolver. */
  lemma ResolveIsFixedPoint(names: seq<string>, value: string)
    requires DistinctEntityKeys(names) && Resolve(names, value).Some?
    ensures var n := Resolve(names, value).value;
            n in names && Resolve(names, n) == Some(n)
  {
    var k := Key(value);
    LastWithKeyIsListed(names, k);
    FirstWithSingularIsListed(names, k);
    var n := Resolve(names, value).value;
    var i :| 0 <= i < |names| && names[i] == n;
    ResolveListed(names, i);
  }

  // ---------- inference from paths ----------

  predicate IsParam(segment: string) {
    segment != "" && (segment[0] == ':' || segment[0] == '{')
  }

  function FromOption(o: Option<string>): seq<string> {
    if o.Some? then [o.value] else []
  }

  /** The entities a path addresses before its first parameter. */
  function PathEntities(segments: seq<string>, names: seq<string>): seq<string> {
    if segments == [] then []
    else if segments[0] == "" || segments[0] == "api" then PathEntities(segments[1..], names)
    else if IsParam(segments[0]) then []
    else FromOption(Resolve(names, segments[0])) + PathEntities(segments[1..], names)
  }

  function Paths(m: ApiModule): seq<string> {
    [m.basePath] + seq(|m.endpoints|, i requires 0 <= i < |m.endpoints| => m.endpoints[i].path)
  }

  function MentionedEntities(paths: seq<string>, names: seq<string>): seq<string> {
    if paths == [] then []
    else MentionedEntities(paths[..|paths| - 1], names)
         + PathEntities(Split(paths[|paths| - 1], '/'), names)
  }

  function Inferred(m: ApiModule, names: seq<string>): seq<string> {
    Distinct(MentionedEntities(Paths(m), names))
  }

  lemma PathEnd(names: seq<string>)
    ensures PathEntities([], names) == []
  {
  }

  lemma PathStep(segments: seq<string>, j: nat, names: seq<string>)
    requires j < |segments|
    ensures var rest := PathEntities(segments[j + 1..], names);
            PathEntities(segments[j..], names) ==
              if segments[j] == "" || segments[j] == "api" then rest
              else if IsParam(segments[j]) then []
              else FromOption(Resolve(names, segments[j])) + rest
  {
    assert segments[j..][1..] == segments[j + 1..];
  }

  /** Walks one path up to its first parameter. */
  method InferFromPath(start: seq<string>, segments: seq<string>, resolver: Resolver,
                       ghost names: seq<string>, ghost before: seq<string>)
    returns (found: seq<string>)
    requires resolver.For(names) && start == Distinct(before)
    ensures found == Distinct(before + PathEntities(segments, names))
  {
    hide Resolve, PathEntities, Distinct, AddNew, IsParam;
    found := start;
    ghost var here := before;
    assert segments[0..] == segments;
    PathEnd(names);
    var j := 0;
    while j < |segments|
      invariant 0 <= j <= |segments|
      invariant found == Distinct(here)
      invariant here + PathEntities(segments[j..], names) == before + PathEntities(segments, names)
    {
      PathStep(segments, j, names);
      var segment := segments[j];
      if segment == "" || segment == "api" {
        j := j + 1;
        continue;
      }
      if IsParam(segment) {
        break;
      }
      var name := resolver.Lookup(segment);
      ghost var rest := PathEntities(segments[j + 1..], names);
      assert here + (FromOption(name) + rest) == here + FromOption(name) + rest;
      if name.Some? {
        DistinctSnoc(here, name.value);
        found := AddNew(found, name.value);
        here := here + [name.value];
      }
      j := j + 1;
    }
    assert segments[|segments|..] == [];
    assert here + [] == here;
  }

  method InferWith(m: ApiModule, resolver: Resolver, ghost names: seq<string>) returns (found: seq<string>)
    requires resolver.For(names)
    ensures found == Inferred(m, names)
  {
    var paths := Paths(m);
    found := [];
    for i := 0 to |paths|
      invariant found == Distinct(MentionedEntities(paths[..i], names))
    {
      assert paths[..i + 1][..i] == paths[..i];
      found := InferFromPath(found, Split(paths[i], '/'), resolver, names, MentionedEntities(paths[..i], names));
    }
    assert paths[..|paths|] == paths;
  }

  // ---------- resolving a whole design ----------

  function ResolveAll(values: seq<string>, names: seq<string>): seq<string> {
    if values == [] then []
    else ResolveAll(values[..|values| - 1], names) + FromOption(Resolve(names, values[|values| - 1]))
  }

  /** Declared and inferred coverage, restricted to entities that exist. */
  function ResolvedModule(m: ApiModule, names: seq<string>): ApiModule {
    m.(coveredEntities := Some(Distinct(ResolveAll(m.Claims(), names) + Inferred(m, names))))
  }

  function ResolvedModules(ms: seq<ApiModule>, names: seq<string>): (r: seq<ApiModule>)
    ensures |r| == |ms|
    ensures forall i :: 0 <= i < |ms| ==> r[i] == ResolvedModule(ms[i], names)
  {
    seq(|ms|, i requires 0 <= i < |ms| => ResolvedModule(ms[i], names))
  }

  /** Some group lists `entity`. */
  predicate Claimed(ms: seq<ApiModule>, entity: string) {
    exists i :: 0 <= i < |ms| && entity in ms[i].Claims()
  }

  /** Exclusions of existing, uncovered entities, under their exact names. */
  function ResolvedExclusions(es: seq<ExcludedEntity>, ms: seq<ApiModule>, names: seq<string>): seq<ExcludedEntity> {
    if es == [] then []
    else
      var e := es[|es| - 1];
      var name := Resolve(names, e.entity).GetOr("");
      ResolvedExclusions(es[..|es| - 1], ms, names)
      + (if name != "" && !Claimed(ms, name) then [e.(entity := name)] else [])
  }

  function ResolvedCoverage(design: ApiDesign, names: seq<string>): ApiDesign {
    var ms := ResolvedModules(design.modules, names);
    design.(modules := ms, excludedEntities := Listed(ResolvedExclusions(design.Exclusions(), ms, names)))
  }

  method CollectClaims(claims: seq<string>, resolver: Resolver, ghost names: seq<string>)
    returns (covered: seq<string>)
    requires resolver.For(names)
    ensures covered == Distinct(ResolveAll(claims, names))
  {
    covered := [];
    for i := 0 to |claims|
      invariant covered == Distinct(ResolveAll(claims[..i], names))
    {
      assert claims[..i + 1][..i] == claims[..i];
      var name := resolver.Lookup(claims[i]);
      if name.Some? {
        DistinctSnoc(ResolveAll(claims[..i], names), name.value);
        covered := AddNew(covered, name.value);
      } else {
        assert ResolveAll(claims[..i + 1], names) == ResolveAll(claims[..i], names);
      }
    }
    assert claims[..|claims|] == claims;
  }

  method AddAll(start: seq<string>, extra: seq<string>, ghost source: seq<string>)
    returns (covered: seq<string>)
    requires start == Distinct(source)
    ensures covered == Distinct(source + extra)
  {
    covered := start;
    assert source + extra[..0] == source;
    for i := 0 to |extra|
      invariant covered == Distinct(source + extra[..i])
    {
      DistinctSnoc(source + extra[..i], extra[i]);
      assert source + extra[..i + 1] == source + extra[..i] + [extra[i]];
      covered := AddNew(covered, extra[i]);
    }
    assert extra[..|extra|] == extra;
  }

  method ResolveModule(m: ApiModule, resolver: Resolver, ghost names: seq<string>) returns (r: ApiModule)
    requires resolver.For(names)
    ensures r == ResolvedModule(m, names)
  {
    var declared := CollectClaims(m.Claims(), resolver, names);
    var inferred := InferWith(m, resolver, names);
    var covered := AddAll(declared, inferred, ResolveAll(m.Claims(), names));
    r := m.(coveredEntities := Some(covered));
  }

  method WithResolvedCoverage(design: ApiDesign, names: seq<string>) returns (r: ApiDesign)
    ensures r == ResolvedCoverage(design, names)
  {
    var resolver := MakeResolver(names);
    var ms := [];
    for i := 0 to |design.modules|
      invariant ms == ResolvedModules(design.modules, names)[..i]
    {
      var m := ResolveModule(design.modules[i], resolver, names);
      ms := ms + [m];
    }
    assert ms == ResolvedModules(design.modules, names);
    var es, kept := design.Exclusions(), [];
    for i := 0 to |es|
      invariant kept == ResolvedExclusions(es[..i], ms, names)
    {
      assert es[..i + 1][..i] == es[..i];
      var name := resolver.Lookup(es[i].entity).GetOr("");
      if name != "" && !Claimed(ms, name) {
        kept := kept + [es[i].(entity := name)];
      }
    }
    assert es[..|es|] == es;
    r := design.(modules := ms, excludedEntities := Listed(kept));
  }

  // ---------- the validator ----------

  datatype EntityCoverage = EntityCoverage(
    covered: seq<string>, excluded: seq<string>, missing: seq<string>, ok: bool)

  /** Some group claims the entity. */
  predicate Covers(ms: seq<ApiModule>, names: seq<string>, n: string) {
    exists i :: 0 <= i < |ms| && ClaimsEntity(ms[i], names, n)
  }

  predicate ClaimsEntity(m: ApiModule, names: seq<string>, n: string) {
    exists j :: 0 <= j < |m.Claims()| && Resolve(names, m.Claims()[j]) == Some(n)
  }

  predicate IsJustified(e: ExcludedEntity) { Trim(e.reason) != "" }

  /** Some exclusion with a stated reason names the entity. */
  predicate Excuses(es: seq<ExcludedEntity>, names: seq<string>, n: string) {
    exists k :: 0 <= k < |es| && IsJustified(es[k]) && Resolve(names, es[k].entity) == Some(n)
  }

  /** The listed names that are in `s`, in order. */
  function Keep(names: seq<string>, s: set<string>): (r: seq<string>)
    ensures forall x :: x in r <==> x in names && x in s
  {
    if names == [] then []
    else (if names[0] in s then [names[0]] else []) + Keep(names[1..], s)
  }

  function CoveredSet(design: ApiDesign, names: seq<string>): set<string> {
    set n | n in names && Covers(design.modules, names, n)
  }

  function ExcludedSet(design: ApiDesign, names: seq<string>): set<string> {
    set n | n in names && !Covers(design.modules, names, n) && Excuses(design.Exclusions(), names, n)
  }

  function MissingSet(design: ApiDesign, names: seq<string>): set<string> {
    set n | n in names && !Covers(design.modules, names, n) && !Excuses(design.Exclusions(), names, n)
  }

  function CoverageOf(design: ApiDesign, names: seq<string>): EntityCoverage {
    var missing := Keep(names, MissingSet(design, names));
    EntityCoverage(Keep(names, CoveredSet(design, names)), Keep(names, ExcludedSet(design, names)),
                   missing, missing == [])
  }

  lemma ResolveIsListed(names: seq<string>, value: string)
    ensures Resolve(names, value).Some? ==> Resolve(names, value).value in names
  {
    LastWithKeyIsListed(names, Key(value));
    FirstWithSingularIsListed(names, Key(value));
  }

  method CoveredNames(ms: seq<ApiModule>, resolver: Resolver, ghost names: seq<string>) returns (covered: set<string>)
    requires resolver.For(names)
    ensures forall n :: n in covered <==> Covers(ms, names, n)
  {
    hide Resolve;
    covered := {};
    for i := 0 to |ms|
      invariant forall n :: n in covered <==> exists k :: 0 <= k < i && ClaimsEntity(ms[k], names, n)
    {
      var claims := ms[i].Claims();
      ghost var before := covered;
      for j := 0 to |claims|
        invariant forall n :: n in covered <==>
                    n in before || exists k :: 0 <= k < j && Resolve(names, claims[k]) == Some(n)
      {
        var name := resolver.Lookup(claims[j]);
        if name.Some? {
          covered := covered + {name.value};
        }
      }
      assert forall n :: n in covered <==> n in before || ClaimsEntity(ms[i], names, n);
    }
  }

  /** The excused names, leaving out those that some group serves. */
  method ExcusedNames(es: seq<ExcludedEntity>, covered: set<string>, resolver: Resolver, ghost names: seq<string>)
    returns (excluded: set<string>)
    requires resolver.For(names)
    ensures forall n :: n in excluded <==> n !in covered && Excuses(es, names, n)
  {
    hide Resolve, IsJustified;
    excluded := {};
    for i := 0 to |es|
      invariant forall n :: n in excluded <==>
                  (n !in covered
                   && exists k :: 0 <= k < i && IsJustified(es[k]) && Resolve(names, es[k].entity) == Some(n))
    {
      if !IsJustified(es[i]) {
        continue;
      }
      var name := resolver.Lookup(es[i].entity);
      if name.Some? && name.value !in covered {
        excluded := excluded + {name.value};
      }
    }
  }

  method ValidateEntityCoverage(design: ApiDesign, names: seq<string>) returns (r: EntityCoverage)
    ensures r == CoverageOf(design, names)
  {
    hide Resolve, Covers, Excuses;
    var resolver := MakeResolver(names);
    var covered := CoveredNames(design.modules, resolver, names);
    var excluded := ExcusedNames(design.Exclusions(), covered, resolver, names);
    var uncounted := set n | n in names && n !in covered && n !in excluded;
    KeepCongruent(names, covered, CoveredSet(design, names));
    KeepCongruent(names, excluded, ExcludedSet(design, names));
    KeepCongruent(names, uncounted, MissingSet(design, names));
    var missing := Keep(names, uncounted);
    r := EntityCoverage(Keep(names, covered), Keep(names, excluded), missing, missing == []);
  }

  lemma {:induction false} KeepCongruent(names: seq<string>, a: set<string>, b: set<string>)
    requires forall n :: n in names ==> (n in a <==> n in b)
    ensures Keep(names, a) == Keep(names, b)
  {
    if names != [] {
      forall n | n in names[1..] ensures n in a <==> n in b {
        assert n in names;
      }
      KeepCongruent(names[1..], a, b);
      assert names[0] in names;
    }
  }

  lemma {:induction false} KeepCounts(names: seq<string>, s: set<string>, x: string)
    ensures multiset(Keep(names, s))[x] == if x in s then multiset(names)[x] else 0
  {
    if names != [] {
      KeepCounts(names[1..], s, x);
      assert names == [names[0]] + names[1..];
    }
  }

  /** Covered, excluded and missing split the entity names: every listing of a name is in
      exactly one of the three reports. */
  lemma CoveragePartitions(design: ApiDesign, names: seq<string>)
    ensures var r := CoverageOf(design, names);
            && multiset(r.covered) + multiset(r.excluded) + multiset(r.missing) == multiset(names)
            && (forall n :: n in r.covered ==> n !in r.excluded && n !in r.missing)
            && (forall n :: n in r.excluded ==> n !in r.missing)
  {
    var r := CoverageOf(design, names);
    var sum := multiset(r.covered) + multiset(r.excluded) + multiset(r.missing);
    forall x ensures sum[x] == multiset(names)[x] {
      KeepCounts(names, CoveredSet(design, names), x);
      KeepCounts(names, ExcludedSet(design, names), x);
      KeepCounts(names, MissingSet(design, names), x);
      assert x in names <==> x in multiset(names);
    }
    assert sum == multiset(names);
  }

  // ---------- resolving is idempotent ----------

  /** Every element is a listed name that resolves to itself. */
  predicate AllSettled(values: seq<string>, names: seq<string>) {
    forall i :: 0 <= i < |values| ==> values[i] in names && Resolve(names, values[i]) == Some(values[i])
  }

  lemma {:induction false} ResolveAllSettles(values: seq<string>, names: seq<string>)
    requires DistinctEntityKeys(names)
    ensures AllSettled(ResolveAll(values, names), names)
  {
    if values != [] {
      ResolveAllSettles(values[..|values| - 1], names);
      if Resolve(names, values[|values| - 1]).Some? {
        ResolveIsFixedPoint(names, values[|values| - 1]);
      }
    }
  }

  lemma {:induction false} ResolveAllFixed(values: seq<string>, names: seq<string>)
    requires AllSettled(values, names)
    ensures ResolveAll(values, names) == values
  {
    hide Resolve;
    if values != [] {
      var front, last := values[..|values| - 1], values[|values| - 1];
      assert last in names && Resolve(names, last) == Some(last);
      ResolveAllFixed(front, names);
      assert FromOption(Some(last)) == [last] && front + [last] == values;
    }
  }

  lemma {:induction false} PathEntitiesSettle(segments: seq<string>, names: seq<string>)
    requires DistinctEntityKeys(names)
    ensures AllSettled(PathEntities(segments, names), names)
  {
    if segments != [] {
      PathEntitiesSettle(segments[1..], names);
      if Resolve(names, segments[0]).Some? {
        ResolveIsFixedPoint(names, segments[0]);
      }
    }
  }

  lemma {:induction false} MentionedSettle(paths: seq<string>, names: seq<string>)
    requires DistinctEntityKeys(names)
    ensures AllSettled(MentionedEntities(paths, names), names)
  {
    if paths != [] {
      MentionedSettle(paths[..|paths| - 1], names);
      PathEntitiesSettle(Split(paths[|paths| - 1], '/'), names);
    }
  }

  /** The coverage a resolved group lists: settled, distinct, and containing the inferred part. */
  lemma ResolvedClaims(m: ApiModule, names: seq<string>)
    requires DistinctEntityKeys(names)
    ensures var claims := ResolvedModule(m, names).Claims();
            && AllSettled(claims, names) && NoDuplicates(claims)
            && (forall x :: x in claims <==> x in ResolveAll(m.Claims(), names) || x in Inferred(m, names))
  {
    ResolveAllSettles(m.Claims(), names);
    MentionedSettle(Paths(m), names);
    var mentioned := MentionedEntities(Paths(m), names);
    DistinctMembers(mentioned);
    var all := ResolveAll(m.Claims(), names) + Inferred(m, names);
    DistinctMembers(all);
    forall i | 0 <= i < |Distinct(all)|
      ensures Distinct(all)[i] in names && Resolve(names, Distinct(all)[i]) == Some(Distinct(all)[i])
    {
      assert Distinct(all)[i] in all;
    }
  }

  lemma ResolvedModuleIdempotent(m: ApiModule, names: seq<string>)
    requires DistinctEntityKeys(names)
    ensures ResolvedModule(ResolvedModule(m, names), names) == ResolvedModule(m, names)
  {
    var once := ResolvedModule(m, names);
    ResolvedClaims(m, names);
    ResolveAllFixed(once.Claims(), names);
    assert Inferred(once, names) == Inferred(m, names);
    DistinctAbsorbs(once.Claims(), Inferred(m, names));
    DistinctFixed(once.Claims());
  }

  lemma {:induction false} ResolvedExclusionsFixed(es: seq<ExcludedEntity>, ms: seq<ApiModule>, names: seq<string>)
    requires DistinctEntityKeys(names)
    ensures var once := ResolvedExclusions(es, ms, names);
            && ResolvedExclusions(once, ms, names) == once
            && (forall i :: 0 <= i < |once| ==> once[i].entity in names && !Claimed(ms, once[i].entity)
                                                && Resolve(names, once[i].entity) == Some(once[i].entity))
  {
    if es != [] {
      ResolvedExclusionsFixed(es[..|es| - 1], ms, names);
      var e := es[|es| - 1];
      var front, once := ResolvedExclusions(es[..|es| - 1], ms, names), ResolvedExclusions(es, ms, names);
      if Resolve(names, e.entity).Some? {
        ResolveIsFixedPoint(names, e.entity);
      }
      if once != front {
        assert once[..|once| - 1] == front;
      }
    }
  }

  lemma ResolvedCoverageIdempotent(design: ApiDesign, names: seq<string>)
    requires DistinctEntityKeys(names)
    ensures ResolvedCoverage(ResolvedCoverage(design, names), names) == ResolvedCoverage(design, names)
  {
    var once := ResolvedCoverage(design, names);
    var ms := ResolvedModules(design.modules, names);
    forall i | 0 <= i < |ms| ensures ResolvedModule(ms[i], names) == ms[i] {
      ResolvedModuleIdempotent(design.modules[i], names);
    }
    assert ResolvedModules(ms, names) == ms;
    ResolvedExclusionsFixed(design.Exclusions(), ms, names);
    assert once.Exclusions() == ResolvedExclusions(design.Exclusions(), ms, names);
  }
}
