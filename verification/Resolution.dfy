/** What a loose name stands for, read off the table names alone, and what a design that
    already serves every table comes out as. */
module Resolution {
  import opened Text
  import opened Collections
  import opened Numerals
  import opened Schema
  import opened Coverage
  import opened Merge
  import opened RestApi
  import opened RestPartition
  import opened Completeness

  // ---------- keys ----------

  lemma {:induction false} KeepConcat(s: string, t: string)
    ensures KeepAlnum(s + t) == KeepAlnum(s) + KeepAlnum(t)
  {
    if s == "" {
      assert s + t == t;
    } else {
      KeepConcat(s[1..], t);
      assert (s + t)[1..] == s[1..] + t && (s + t)[0] == s[0];
    }
  }

  /** A key is the letters and digits of a name, letters in lower case. */
  lemma KeyIsLettersAndDigits(s: string, c: char)
    ensures Key("") == ""
    ensures Key(s + [c]) == Key(s) + (if 'a' <= c <= 'z' || '0' <= c <= '9' then [c]
                                      else if 'A' <= c <= 'Z' then [c - 'A' + 'a']
                                      else "")
  {
    LowerConcat(s, [c]);
    KeepConcat(Lower(s), Lower([c]));
    var one := Lower([c]);
    assert one == [LowerChar(c)] && one[1..] == "";
    assert KeepAlnum(one[1..]) == "";
  }

  // ---------- one loose name ----------

  predicate HasKey(names: seq<string>, k: string) {
    exists j :: 0 <= j < |names| && Key(names[j]) == k
  }

  /** The name at `i` is what `value` means: the last one with the very same letters and digits, or,
      when there is none, the first one that is its plural. */
  predicate Means(names: seq<string>, value: string, i: nat)
    requires i < |names|
  {
    var k := Key(value);
    && k != ""
    && ( || (Key(names[i]) == k && forall j :: i < j < |names| ==> Key(names[j]) != k)
         || (Key(names[i]) == k + "s" && !HasKey(names, k) && forall j :: 0 <= j < i ==> Key(names[j]) != k + "s"))
  }

  lemma {:induction false} LastWithKeyAt(names: seq<string>, k: string, i: nat)
    requires i < |names| && Key(names[i]) == k && forall j :: i < j < |names| ==> Key(names[j]) != k
    ensures LastWithKey(names, k) == Some(names[i])
  {
    hide Key;
    if i < |names| - 1 {
      LastWithKeyAt(names[..|names| - 1], k, i);
    }
  }

  lemma {:induction false} FirstWithSingularAt(names: seq<string>, k: string, i: nat)
    requires i < |names| && Singular(Key(names[i])) == k && forall j :: 0 <= j < i ==> Singular(Key(names[j])) != k
    ensures FirstWithSingular(names, k) == Some(names[i])
  {
    hide Key, Singular;
    if i < |names| - 1 {
      FirstWithSingularAt(names[..|names| - 1], k, i);
    } else {
      NoSingular(names[..i], k);
    }
  }

  lemma {:induction false} NoSingular(names: seq<string>, k: string)
    requires forall j :: 0 <= j < |names| ==> Singular(Key(names[j])) != k
    ensures FirstWithSingular(names, k) == None
  {
    hide Key, Singular;
    if names != [] {
      NoSingular(names[..|names| - 1], k);
    }
  }

  lemma PluralOnly(k: string, key: string)
    requires key != k
    ensures Singular(key) == k <==> key == k + "s"
  {
    if Singular(key) == k {
      assert key == key[..|key| - 1] + [key[|key| - 1]];
    }
    if key == k + "s" {
      assert key[..|key| - 1] == k;
    }
  }

  lemma LastIndexOf(names: seq<string>, k: string) returns (i: nat)
    requires HasKey(names, k)
    ensures i < |names| && Key(names[i]) == k && forall j :: i < j < |names| ==> Key(names[j]) != k
  {
    hide Key;
    i := |names| - 1;
    while Key(names[i]) != k
      invariant 0 <= i < |names| && forall j :: i < j < |names| ==> Key(names[j]) != k
      decreases i
    {
      i := i - 1;
    }
  }

  /** The same for the first. */
  lemma FirstIndexOf(names: seq<string>, k: string) returns (i: nat)
    requires HasKey(names, k)
    ensures i < |names| && Key(names[i]) == k && forall j :: 0 <= j < i ==> Key(names[j]) != k
  {
    hide Key;
    i := 0;
    while Key(names[i]) != k
      invariant 0 <= i < |names| && forall j :: 0 <= j < i ==> Key(names[j]) != k
      decreases |names| - i
    {
      i := i + 1;
    }
  }

  /** A meant name is the answer. */
  lemma MeaningDecides(names: seq<string>, value: string, i: nat)
    requires i < |names| && Means(names, value, i)
    ensures Resolve(names, value) == Some(names[i])
  {
    hide Key, Singular;
    var k := Key(value);
    if Key(names[i]) == k {
      LastWithKeyAt(names, k, i);
    } else {
      LastWithKeyIsListed(names, k);
      forall j | 0 <= j < |names| ensures Singular(Key(names[j])) == k <==> Key(names[j]) == k + "s" {
        PluralOnly(k, Key(names[j]));
      }
      FirstWithSingularAt(names, k, i);
    }
  }

  /** A name without letters or digits means nothing, nor does one that is neither a listed key nor
      the singular of one. */
  lemma NothingIsMeant(names: seq<string>, value: string)
    requires var k := Key(value); k == "" || (!HasKey(names, k) && !HasKey(names, k + "s"))
    ensures Resolve(names, value) == None
  {
    hide Key, Singular;
    var k := Key(value);
    if k != "" {
      LastWithKeyIsListed(names, k);
      forall j | 0 <= j < |names| ensures Singular(Key(names[j])) != k {
        PluralOnly(k, Key(names[j]));
      }
      NoSingular(names, k);
    }
  }

  /** The resolver gives exactly the meant names. */
  lemma ResolveIff(names: seq<string>, value: string, n: string)
    ensures Resolve(names, value) == Some(n) <==> exists i :: 0 <= i < |names| && Means(names, value, i) && names[i] == n
  {
    hide Key, Resolve;
    var k := Key(value);
    forall i | 0 <= i < |names| && Means(names, value, i) ensures Resolve(names, value) == Some(names[i]) {
      MeaningDecides(names, value, i);
    }
    if k != "" && HasKey(names, k) {
      var i := LastIndexOf(names, k);
      assert Means(names, value, i);
    } else if k != "" && HasKey(names, k + "s") {
      var i := FirstIndexOf(names, k + "s");
      assert Means(names, value, i);
    } else {
      NothingIsMeant(names, value);
    }
  }

  // ---------- one path ----------

  predicate IsParameter(segment: string) {
    segment != "" && segment[0] in [':', '{']
  }

  /** The segment at `j` names a resource of the group: it is not the prefix, and no parameter
      comes before it. */
  predicate IsOwnSegment(segments: seq<string>, j: nat)
    requires j < |segments|
  {
    && segments[j] !in ["", "api"]
    && forall i :: 0 <= i <= j ==> !IsParameter(segments[i])
  }

  predicate Addresses(segments: seq<string>, names: seq<string>, n: string) {
    exists j :: 0 <= j < |segments| && IsOwnSegment(segments, j) && Resolve(names, segments[j]) == Some(n)
  }

  lemma {:induction false} PathEntitiesIff(segments: seq<string>, names: seq<string>, n: string)
    ensures n in PathEntities(segments, names) <==> Addresses(segments, names, n)
  {
    hide Resolve;
    if segments != [] {
      var rest := segments[1..];
      PathEntitiesIff(rest, names, n);
      assert forall i :: 0 <= i < |rest| ==> rest[i] == segments[i + 1];
      if j :| 0 <= j < |rest| && IsOwnSegment(rest, j) && Resolve(names, rest[j]) == Some(n) && !IsParameter(segments[0]) {
        forall i | 0 <= i <= j + 1 ensures !IsParameter(segments[i]) {
          if i > 0 { assert !IsParameter(rest[i - 1]); }
        }
        assert IsOwnSegment(segments, j + 1);
      }
      if j :| 0 <= j < |segments| && IsOwnSegment(segments, j) && Resolve(names, segments[j]) == Some(n) {
        assert !IsParameter(segments[0]);
        if j > 0 {
          forall i | 0 <= i <= j - 1 ensures !IsParameter(rest[i]) {
            assert rest[i] == segments[i + 1];
          }
          assert IsOwnSegment(rest, j - 1);
        } else {
          assert FromOption(Some(n)) == [n];
        }
      }
    }
  }

  /** Some path of the group addresses the table: its base path or one of an endpoint. */
  predicate IsAddressed(m: ApiModule, names: seq<string>, n: string) {
    || Addresses(Split(m.basePath, '/'), names, n)
    || exists i :: 0 <= i < |m.endpoints| && Addresses(Split(m.endpoints[i].path, '/'), names, n)
  }

  lemma {:induction false} MentionedIff(paths: seq<string>, names: seq<string>, n: string)
    ensures n in MentionedEntities(paths, names) <==> exists i :: 0 <= i < |paths| && Addresses(Split(paths[i], '/'), names, n)
  {
    hide Addresses, Split, PathEntities;
    if paths != [] {
      var front, last := paths[..|paths| - 1], paths[|paths| - 1];
      MentionedIff(front, names, n);
      PathEntitiesIff(Split(last, '/'), names, n);
      if i :| 0 <= i < |front| && Addresses(Split(front[i], '/'), names, n) {
        assert paths[i] == front[i];
      }
      if i :| 0 <= i < |paths| && Addresses(Split(paths[i], '/'), names, n) {
        if i < |front| { assert front[i] == paths[i]; }
      }
    }
  }

  /** What inference finds for a group is exactly what its paths address. */
  lemma InferredIff(m: ApiModule, names: seq<string>, n: string)
    ensures n in Inferred(m, names) <==> IsAddressed(m, names, n)
  {
    hide Addresses, Split, MentionedEntities;
    var paths := Paths(m);
    MentionedIff(paths, names, n);
    DistinctMembers(MentionedEntities(paths, names));
    assert paths[0] == m.basePath && forall i :: 0 <= i < |m.endpoints| ==> paths[i + 1] == m.endpoints[i].path;
    if i :| 0 <= i < |paths| && Addresses(Split(paths[i], '/'), names, n) {
      if i > 0 { assert paths[i] == m.endpoints[i - 1].path; }
    }
  }

  // ---------- a whole design ----------

  /** The group serves the table: it claims it, or one of its paths addresses it. */
  predicate Serves(m: ApiModule, names: seq<string>, n: string) {
    IsAddressed(m, names, n) || exists j :: 0 <= j < |m.Claims()| && Resolve(names, m.Claims()[j]) == Some(n)
  }

  predicate IsServed(design: ApiDesign, names: seq<string>, n: string) {
    exists i :: 0 <= i < |design.modules| && Serves(design.modules[i], names, n)
  }

  lemma {:induction false} ResolveAllIff(values: seq<string>, names: seq<string>, n: string)
    ensures n in ResolveAll(values, names) <==> exists j :: 0 <= j < |values| && Resolve(names, values[j]) == Some(n)
  {
    hide Resolve;
    if values != [] {
      var front, last := values[..|values| - 1], values[|values| - 1];
      ResolveAllIff(front, names, n);
      assert values == front + [last];
      if j :| 0 <= j < |front| && Resolve(names, front[j]) == Some(n) {
        assert values[j] == front[j];
      }
      if j :| 0 <= j < |values| && Resolve(names, values[j]) == Some(n) {
        if j < |front| { assert front[j] == values[j]; } else { assert FromOption(Some(n)) == [n]; }
      }
    }
  }

  /** Resolving lists, for each group, exactly what it serves. */
  lemma ResolvedListsServed(m: ApiModule, names: seq<string>, n: string)
    ensures n in ResolvedModule(m, names).Claims() <==> Serves(m, names, n)
  {
    hide Resolve, IsAddressed, Inferred;
    ResolveAllIff(m.Claims(), names, n);
    InferredIff(m, names, n);
    DistinctMembers(ResolveAll(m.Claims(), names) + Inferred(m, names));
  }

  lemma ServedIsClaimed(design: ApiDesign, names: seq<string>, n: string)
    ensures Claimed(ResolvedCoverage(design, names).modules, n) <==> IsServed(design, names, n)
  {
    hide Serves, ResolvedModule;
    var ms := ResolvedCoverage(design, names).modules;
    forall i | 0 <= i < |ms| ensures n in ms[i].Claims() <==> Serves(design.modules[i], names, n) {
      ResolvedListsServed(design.modules[i], names, n);
    }
    if IsServed(design, names, n) {
      var i :| 0 <= i < |design.modules| && Serves(design.modules[i], names, n);
      assert n in ms[i].Claims();
    }
  }

  /** An exclusion with a reason means the table. */
  predicate IsExcused(design: ApiDesign, names: seq<string>, n: string) {
    exists k :: 0 <= k < |design.Exclusions()| && Trim(design.Exclusions()[k].reason) != ""
                && Resolve(names, design.Exclusions()[k].entity) == Some(n)
  }

  lemma {:induction false} ExclusionIsKept(es: seq<ExcludedEntity>, ms: seq<ApiModule>, names: seq<string>, k: nat, n: string)
    requires k < |es| && Resolve(names, es[k].entity) == Some(n) && n != "" && !Claimed(ms, n)
    ensures es[k].(entity := n) in ResolvedExclusions(es, ms, names)
  {
    hide Resolve, Claimed;
    if k < |es| - 1 {
      ExclusionIsKept(es[..|es| - 1], ms, names, k, n);
    }
  }

  /** Resolving neither loses nor invents an excuse, except for what is served. */
  lemma ExcusedIff(design: ApiDesign, names: seq<string>, n: string)
    requires DistinctEntityKeys(names) && n in names && !IsServed(design, names, n)
    ensures Excuses(ResolvedCoverage(design, names).Exclusions(), names, n) <==> IsExcused(design, names, n)
  {
    hide Resolve, Claimed, DistinctEntityKeys, ResolvedModules, Trim, IsServed;
    var ms, es := ResolvedCoverage(design, names).modules, ResolvedCoverage(design, names).Exclusions();
    assert es == ResolvedExclusions(design.Exclusions(), ms, names);
    ServedIsClaimed(design, names, n);
    EmptyHasNoKey(names, n);
    if k :| 0 <= k < |design.Exclusions()| && Trim(design.Exclusions()[k].reason) != ""
            && Resolve(names, design.Exclusions()[k].entity) == Some(n) {
      ExclusionIsKept(design.Exclusions(), ms, names, k, n);
      var j :| 0 <= j < |es| && es[j] == design.Exclusions()[k].(entity := n);
      ResolveIsFixedPoint(names, design.Exclusions()[k].entity);
      assert IsJustified(es[j]) && Resolve(names, es[j].entity) == Some(n);
    }
    if j :| 0 <= j < |es| && IsJustified(es[j]) && Resolve(names, es[j].entity) == Some(n) {
      ResolvedExclusionsFixed(design.Exclusions(), ms, names);
      ExclusionHasSource(design.Exclusions(), ms, names, es[j]);
    }
  }

  /** What the design says of each table before anything is resolved decides whether it is missing. */
  lemma MissingIff(design: ApiDesign, names: seq<string>, n: string)
    requires DistinctEntityKeys(names) && n in names
    ensures n in CoverageOf(ResolvedCoverage(design, names), names).missing
            <==> !IsServed(design, names, n) && !IsExcused(design, names, n)
  {
    hide Resolve, DistinctEntityKeys, ResolvedCoverage, Covers, Excuses, IsServed, IsExcused, Claimed;
    MissingMeansUnaccounted(ResolvedCoverage(design, names), names, n);
    CoversIffClaimed(design, names, n);
    ServedIsClaimed(design, names, n);
    if !IsServed(design, names, n) {
      ExcusedIff(design, names, n);
    }
  }

  lemma {:induction false} FillerIsAppended(start: seq<ApiModule>, added: seq<ApiModule>, missing: seq<string>, i: nat)
    requires i < |added| && Fills(added[i], missing) != []
    ensures |MergedModules(start, added, missing)| > |start|
  {
    hide Fills, FreeName;
    var front := added[..|added| - 1];
    if i < |front| {
      FillerIsAppended(start, front, missing, i);
    } else {
      MergeOnlyFillsGaps(start, front, missing);
    }
  }

  /** An exclusion is only generated beside a group. */
  lemma {:induction false} NestedBesideGroup(all: seq<Entity>, inScope: set<string>, scope: seq<Entity>, qs: Option<QueryScope>,
                                             start: Table<ApiModule>, n: nat)
    requires n <= |scope|
    ensures var g := Nest(all, inScope, scope, qs, Groups(start, []), n); g.excluded != [] ==> g.modules != []
  {
    hide BuiltParent, JunctionEndpoints, JunctionReason, EntityModule, DemandFor, IsJunctionEntity;
    if n > 0 {
      NestedBesideGroup(all, inScope, scope, qs, start, n - 1);
    }
  }

  lemma {:induction false} ChildrenKeepSize(all: seq<Entity>, inScope: set<string>, scope: seq<Entity>, qs: Option<QueryScope>,
                                            start: Table<ApiModule>, n: nat)
    requires n <= |scope|
    ensures |Children(all, inScope, scope, qs, start, n)| == |start|
  {
    hide BuiltParent, ChildCollectionEndpoint, DemandFor, IsNested;
    if n > 0 {
      ChildrenKeepSize(all, inScope, scope, qs, start, n - 1);
    }
  }

  lemma SomethingIsBuilt(db: DatabaseDesign, s: set<string>, qs: Option<QueryScope>)
    requires DistinctEntityKeys(EntityNames(db)) && Keep(EntityNames(db), s) != []
    ensures Filler(db, Keep(EntityNames(db), s), qs).modules != []
  {
    hide DistinctEntityKeys, Keep, TopLevel, Nest, Children, Accounts, Scope;
    var missing := Keep(EntityNames(db), s);
    var all, scope := db.entities, Scope(db.entities, Some(missing));
    var inScope := NamesOf(scope);
    var top := TopLevel(all, inScope, scope, qs, |scope|);
    FillerAccounts(db, s, qs);
    NestedBesideGroup(all, inScope, scope, qs, top, |scope|);
    ChildrenKeepSize(all, inScope, scope, qs, Nest(all, inScope, scope, qs, Groups(top, []), |scope|).modules, |scope|);
    assert missing[0] in missing;
  }

  /** The designed groups stay in front, each as designed but for its list of tables, which names
      exactly those it serves. */
  lemma DesignedGroupsStay(design: ApiDesign, db: DatabaseDesign, qs: Option<QueryScope>, i: nat, n: string)
    requires DistinctEntityKeys(EntityNames(db)) && i < |design.modules|
    ensures var after := EnsuredCoverage(design, db, qs);
            && |after.modules| >= |design.modules|
            && after.modules[i] == design.modules[i].(coveredEntities := after.modules[i].coveredEntities)
            && (n in after.modules[i].Claims() <==> Serves(design.modules[i], EntityNames(db), n))
  {
    hide DistinctEntityKeys, CoveredSet, ExcludedSet, MissingSet, Keep, FillerModules, Filler, ResolvedModule, Serves, MergedModules;
    var names := EntityNames(db);
    var resolved := ResolvedCoverage(design, names);
    var missing := CoverageOf(resolved, names).missing;
    ResolvedShape(design.modules[i], names);
    ResolvedListsServed(design.modules[i], names, n);
    ModulesOfResolved(design, names);
    if missing != [] {
      var merged := MergedFiller(resolved, db, missing, qs);
      EnsuredIsMerged(design, db, qs);
      MergeOnlyFillsGaps(resolved.modules, FillerModules(db, missing, qs), missing);
      ModulesOfResolved(merged, names);
      assert merged.modules[i] == resolved.modules[i];
      ResolvedModuleIdempotent(design.modules[i], names);
    }
  }

  lemma ResolvedShape(m: ApiModule, names: seq<string>)
    ensures ResolvedModule(m, names) == m.(coveredEntities := ResolvedModule(m, names).coveredEntities)
  {
  }

  /** A group is generated if and only if some table is neither served by a designed group nor
      excused with a reason. */
  lemma NothingIsAddedIff(design: ApiDesign, db: DatabaseDesign, qs: Option<QueryScope>)
    requires DistinctEntityKeys(EntityNames(db))
    ensures |EnsuredCoverage(design, db, qs).modules| == |design.modules|
            <==> forall n :: n in EntityNames(db) ==> IsServed(design, EntityNames(db), n) || IsExcused(design, EntityNames(db), n)
  {
    hide DistinctEntityKeys, CoveredSet, ExcludedSet, MissingSet, FillerModules, Filler, ResolvedModule, IsServed, IsExcused;
    hide MergedModules, Fills, Keep;
    var names := EntityNames(db);
    var resolved := ResolvedCoverage(design, names);
    var missing := CoverageOf(resolved, names).missing;
    forall n | n in names ensures n in missing <==> !IsServed(design, names, n) && !IsExcused(design, names, n) {
      MissingIff(design, names, n);
    }
    ModulesOfResolved(design, names);
    if missing != [] {
      assert missing[0] in missing && missing[0] in names;
      var s := MissingSet(resolved, names);
      SomethingIsBuilt(db, s, qs);
      GroupFills(db, s, qs, 0);
      FillerIsAppended(resolved.modules, FillerModules(db, missing, qs), missing, 0);
      EnsuredIsMerged(design, db, qs);
      ModulesOfResolved(MergedFiller(resolved, db, missing, qs), names);
    }
  }

  // ---------- a singular path ----------

  /** A base path below `/api` serves whatever table its resource name means. */
  lemma BaseServesMeaning(m: ApiModule, names: seq<string>, resource: string, i: nat)
    requires i < |names| && Means(names, resource, i) && m.basePath == "/api/" + resource
    requires '/' !in resource && resource !in ["", "api"] && !IsParameter(resource)
    ensures Serves(m, names, names[i])
  {
    hide Resolve, Means, Split;
    MeaningDecides(names, resource, i);
    UnderApi(resource);
    SplitNone(resource, '/');
    var segments := Split(m.basePath, '/');
    assert segments == ["", "api", resource];
    assert IsOwnSegment(segments, 2);
  }

  lemma KeysOfUsers()
    ensures Key("user") == "user" && Key("users") == "users"
  {
    hide Key;
    KeyIsLettersAndDigits("", 'u');
    KeyIsLettersAndDigits("u", 's');
    KeyIsLettersAndDigits("us", 'e');
    KeyIsLettersAndDigits("use", 'r');
    KeyIsLettersAndDigits("user", 's');
    assert "" + ['u'] == "u" && "u" + ['s'] == "us" && "us" + ['e'] == "use" && "use" + ['r'] == "user" && "user" + ['s'] == "users";
  }

  /** One group at `/api/user` is all a table called `users` needs, whatever the group claims. */
  lemma SingularGroupIsEnough(design: ApiDesign, db: DatabaseDesign, qs: Option<QueryScope>)
    requires EntityNames(db) == ["users"] && |design.modules| == 1 && design.modules[0].basePath == "/api/user"
    ensures var after := EnsuredCoverage(design, db, qs); |after.modules| == 1 && "users" in after.modules[0].Claims()
  {
    hide EnsuredCoverage, Key, Serves;
    var names := EntityNames(db);
    KeysOfUsers();
    assert Means(names, "user", 0);
    BaseServesMeaning(design.modules[0], names, "user", 0);
    assert IsServed(design, names, "users");
    NothingIsAddedIff(design, db, qs);
    DesignedGroupsStay(design, db, qs, 0, "users");
  }
}
