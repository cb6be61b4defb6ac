/** Coverage as a reader of the stored design sees it: after normalizing. */
module ReadBack {
  import opened Text
  import opened Collections
  import opened Numerals
  import opened Schema
  import opened Coverage
  import opened Merge
  import opened Normalize
  import opened NormalizeTwice
  import opened RestApi
  import opened Completeness
  import opened StuckExample

  function Reread(d: ApiDesign): ApiDesign { NormalDesign(RawOfDesign(d)) }

  // ---------- white space never changes what a name resolves to ----------

  lemma {:induction false} KeepSkipsFront(s: string)
    ensures KeepAlnum(TrimStart(s)) == KeepAlnum(s)
  {
    if s != "" && IsSpace(s[0]) {
      KeepSkipsFront(s[1..]);
    }
  }

  lemma {:induction false} KeepSkipsLast(s: string, c: char)
    requires !IsAlnumLower(c)
    ensures KeepAlnum(s + [c]) == KeepAlnum(s)
  {
    var t := s + [c];
    if s == "" {
      assert t[1..] == "";
    } else {
      KeepSkipsLast(s[1..], c);
      assert t[1..] == s[1..] + [c];
    }
  }

  lemma {:induction false} KeepSkipsEnd(s: string)
    ensures KeepAlnum(TrimEnd(s)) == KeepAlnum(s)
  {
    if s != "" && IsSpace(s[|s| - 1]) {
      KeepSkipsEnd(s[..|s| - 1]);
      KeepSkipsLast(s[..|s| - 1], s[|s| - 1]);
      assert s[..|s| - 1] + [s[|s| - 1]] == s;
    }
  }

  lemma KeyOfTrimmed(s: string)
    ensures Key(Trim(s)) == Key(s)
    ensures Trim(s) == "" ==> Key(s) == ""
  {
    hide TrimStart, TrimEnd, KeepAlnum;
    LowerTrim(s);
    KeepSkipsFront(Lower(s));
    KeepSkipsEnd(TrimStart(Lower(s)));
    NothingKeeps();
  }

  lemma NothingKeeps()
    ensures Key("") == ""
  {
  }

  lemma ResolveTrimmed(names: seq<string>, value: string)
    ensures Resolve(names, Trim(value)) == Resolve(names, value)
    ensures Resolve(names, value).Some? ==> Trim(value) != ""
  {
    hide Trim, Key;
    KeyOfTrimmed(value);
  }

  // ---------- groups: the first of a name is kept, with its claims ----------

  lemma {:induction false} PresentExactly(names: seq<Option<string>>)
    ensures forall x :: x in PresentNames(names) <==> Some(x) in names && Trim(x) != ""
  {
    hide Trim;
    if names != [] {
      PresentExactly(names[1..]);
      assert names == [names[0]] + names[1..];
    }
  }

  lemma ClaimsReadBack(m: ApiModule, names: seq<string>, n: string)
    ensures ClaimsEntity(NormalModule(RawOfModule(m)), names, n) <==> ClaimsEntity(m, names, n)
  {
    hide Trim, Resolve, PresentNames, NormalEndpoints, DedupedBy, ParseSource;
    var claims := m.Claims();
    var raw := seq(|claims|, i requires 0 <= i < |claims| => Some(claims[i]));
    var kept := NormalModule(RawOfModule(m)).Claims();
    PresentExactly(raw);
    assert m.coveredEntities.Some? ==> kept == PresentNames(raw);
    if j :| 0 <= j < |claims| && Resolve(names, claims[j]) == Some(n) {
      ResolveTrimmed(names, claims[j]);
      assert raw[j] == Some(claims[j]) && claims[j] in kept;
      var k :| 0 <= k < |kept| && kept[k] == claims[j];
    }
    if k :| 0 <= k < |kept| && Resolve(names, kept[k]) == Some(n) {
      assert kept[k] in kept && Some(kept[k]) in raw;
      var j :| 0 <= j < |raw| && raw[j] == Some(kept[k]);
    }
  }

  /** Some group that is the first of its name, up to space and case, claims the entity. */
  predicate FirstGroupClaims(d: ApiDesign, names: seq<string>, n: string) {
    exists i :: 0 <= i < |d.modules| && IsFirst(d.modules, NameOf, i) && ClaimsEntity(d.modules[i], names, n)
  }

  lemma FirstsByName(a: seq<ApiModule>, b: seq<ApiModule>, i: nat)
    requires |a| == |b| && i < |a| && forall k :: 0 <= k < |a| ==> a[k].name == b[k].name
    ensures IsFirst(a, NameOf, i) <==> IsFirst(b, NameOf, i)
  {
    hide Fold;
  }

  lemma CoversReadBack(d: ApiDesign, names: seq<string>, n: string)
    ensures Covers(Reread(d).modules, names, n) <==> FirstGroupClaims(d, names, n)
  {
    hide NormalModule, RawOfModule, ClaimsEntity, IsFirst, FirstPositions, NormalExclusions, RawOfExclusions;
    var all := NormalModules(RawOfModules(d.modules));
    var kept := DedupedBy(all, NameOf);
    assert Reread(d).modules == kept;
    FirstPositionsExact(all, NameOf, |all|);
    var at := FirstPositions(all, NameOf, |all|);
    forall i | 0 <= i < |d.modules|
      ensures ClaimsEntity(all[i], names, n) <==> ClaimsEntity(d.modules[i], names, n)
      ensures all[i].name == d.modules[i].name
    {
      ClaimsReadBack(d.modules[i], names, n);
      NameIsKept(d.modules[i]);
    }
    if k :| 0 <= k < |kept| && ClaimsEntity(kept[k], names, n) {
      assert at[k] in at && kept[k] == all[at[k]];
      FirstsByName(all, d.modules, at[k]);
      assert IsFirst(d.modules, NameOf, at[k]) && ClaimsEntity(d.modules[at[k]], names, n);
    }
    if i :| 0 <= i < |d.modules| && IsFirst(d.modules, NameOf, i) && ClaimsEntity(d.modules[i], names, n) {
      FirstsByName(all, d.modules, i);
      assert i in at;
      var k :| 0 <= k < |at| && at[k] == i;
      assert kept[k] == all[i];
    }
  }

  // ---------- exclusions: those with a reason are kept ----------

  lemma {:induction false} ExclusionsExactly(es: seq<RawExclusion>)
    ensures forall x :: x in NormalExclusions(es) <==>
              exists e :: e in es && IsShaped(e) && x == ExcludedEntity(Trim(e.entity.value), Trim(e.reason.value))
  {
    hide Trim, IsShaped;
    if es != [] {
      ExclusionsExactly(es[1..]);
      assert es == [es[0]] + es[1..];
      ShapedHasBoth(es[0]);
    }
  }

  lemma ShapedHasBoth(e: RawExclusion)
    ensures IsShaped(e) ==> e.entity.Some? && e.reason.Some?
  {
  }

  lemma ExcusesReadBack(d: ApiDesign, names: seq<string>, n: string)
    ensures Excuses(Reread(d).Exclusions(), names, n) <==> Excuses(d.Exclusions(), names, n)
  {
    hide Trim, Resolve, NormalModules, RawOfModules, DedupedBy, NormalExclusions;
    var es := d.Exclusions();
    var raw, kept := RawOfExclusions(es), Reread(d).Exclusions();
    ExclusionsExactly(raw);
    assert d.excludedEntities.Some? ==> kept == NormalExclusions(raw);
    if k :| 0 <= k < |es| && IsJustified(es[k]) && Resolve(names, es[k].entity) == Some(n) {
      ResolveTrimmed(names, es[k].entity);
      TrimIdempotent(es[k].reason);
      assert raw[k] in raw && IsShaped(raw[k]);
      var x := ExcludedEntity(Trim(es[k].entity), Trim(es[k].reason));
      assert x in kept;
      var j :| 0 <= j < |kept| && kept[j] == x;
    }
    if j :| 0 <= j < |kept| && IsJustified(kept[j]) && Resolve(names, kept[j].entity) == Some(n) {
      assert kept[j] in kept;
      var e :| e in raw && IsShaped(e) && kept[j] == ExcludedEntity(Trim(e.entity.value), Trim(e.reason.value));
      var k :| 0 <= k < |raw| && raw[k] == e;
      ResolveTrimmed(names, es[k].entity);
    }
  }

  // ---------- what a reader sees ----------

  /** Served by some group, but only by groups whose name an earlier one has, and not excused. */
  predicate IsLostOnReading(d: ApiDesign, names: seq<string>, n: string) {
    Covers(d.modules, names, n) && !FirstGroupClaims(d, names, n) && !Excuses(d.Exclusions(), names, n)
  }

  lemma FirstGroupServes(d: ApiDesign, names: seq<string>, n: string)
    requires FirstGroupClaims(d, names, n)
    ensures Covers(d.modules, names, n)
  {
    hide IsFirst, ClaimsEntity;
  }

  /** Reading a design back keeps it complete if and only if it was complete and no table is served
      only under a name an earlier group has, up to space and case. This holds of every design. */
  lemma ReadingKeepsCoverageIff(d: ApiDesign, names: seq<string>)
    ensures CoverageOf(Reread(d), names).ok <==>
              CoverageOf(d, names).ok && forall n :: n in names ==> !IsLostOnReading(d, names, n)
  {
    hide Covers, Excuses, FirstGroupClaims, Reread;
    OkIffAllAccounted(d, names);
    OkIffAllAccounted(Reread(d), names);
    forall n | n in names
      ensures IsAccounted(Reread(d), names, n) <==> IsAccounted(d, names, n) && !IsLostOnReading(d, names, n)
    {
      CoversReadBack(d, names, n);
      ExcusesReadBack(d, names, n);
      if FirstGroupClaims(d, names, n) {
        FirstGroupServes(d, names, n);
      }
    }
  }

  /** The guarantee as it is read: with a reason on every exclusion, the stored design is complete for
      its readers exactly when no table is lost that way. */
  lemma EnsuredReadsCompleteIff(design: ApiDesign, db: DatabaseDesign, qs: Option<QueryScope>)
    requires DistinctEntityKeys(EntityNames(db)) && AllJustified(design.Exclusions())
    ensures var d, names := EnsuredCoverage(design, db, qs), EntityNames(db);
            CoverageOf(Reread(d), names).ok <==> forall n :: n in names ==> !IsLostOnReading(d, names, n)
  {
    hide EnsuredCoverage, CoverageOf, Reread, IsLostOnReading, DistinctEntityKeys;
    EnsureIsComplete(design, db, qs);
    ReadingKeepsCoverageIff(EnsuredCoverage(design, db, qs), EntityNames(db));
  }

  /** So nothing is lost when no two groups have one name up to space and case. */
  lemma DistinctNamesReadComplete(d: ApiDesign, names: seq<string>)
    requires DistinctKeys(d.modules, NameOf)
    ensures CoverageOf(Reread(d), names).ok <==> CoverageOf(d, names).ok
  {
    hide CoverageOf, Reread, ClaimsEntity, Excuses, Fold;
    ReadingKeepsCoverageIff(d, names);
    forall n | n in names ensures !IsLostOnReading(d, names, n) {
      if i :| 0 <= i < |d.modules| && ClaimsEntity(d.modules[i], names, n) {
        assert IsFirst(d.modules, NameOf, i);
      }
    }
  }

  // ---------- a table that is lost ----------

  const TWO := DatabaseDesign("PostgreSQL", [A, B], [])

  /** The design calls its one group, which serves `a`, by the other table's name. */
  const MISNAMED := ApiDesign("", "", [ApiModule("b", "", [], Some(["a"]), None)], None)

  lemma TwoKeys()
    ensures EntityNames(TWO) == ["a", "b"] && DistinctEntityKeys(["a", "b"])
    ensures Resolve(["a", "b"], "a") == Some("a") && Resolve(["b"], "b") == Some("b")
  {
    hide Key;
    var names, one := ["a", "b"], ["b"];
    OneLetterKey("a");
    OneLetterKey("b");
    assert EntityNames(TWO) == names;
    assert forall i :: 0 <= i < |names| ==> Key(names[i]) == names[i];
    ResolveListed(names, 0);
    ResolveListed(one, 0);
  }

  lemma MisnamedResolves()
    ensures ResolvedModule(MISNAMED.modules[0], ["a", "b"]) == MISNAMED.modules[0]
    ensures ResolvedCoverage(MISNAMED, ["a", "b"]) == MISNAMED
  {
    hide Resolve, DistinctEntityKeys;
    var names, m := ["a", "b"], MISNAMED.modules[0];
    TwoKeys();
    var claims := ["a"];
    assert claims[..0] == [];
    assert ResolveAll(claims, names) == ResolveAll([], names) + ["a"];
    assert Paths(m) == [""];
    assert Paths(m)[..0] == [] && Split("", '/') == [""];
    assert [""][1..] == [];
    assert MentionedEntities([""], names) == MentionedEntities([], names) + PathEntities([""], names) == [];
    assert Inferred(m, names) == [];
    assert Distinct(claims) == AddNew(Distinct([]), "a") == claims;
    assert ResolvedModules(MISNAMED.modules, names) == MISNAMED.modules;
  }

  lemma OnlyBIsMissing()
    ensures CoverageOf(MISNAMED, ["a", "b"]).missing == ["b"]
  {
    hide Resolve, DistinctEntityKeys;
    var names := ["a", "b"];
    TwoKeys();
    assert MISNAMED.modules[0].Claims()[0] == "a" && ClaimsEntity(MISNAMED.modules[0], names, "a");
    assert Covers(MISNAMED.modules, names, "a") && !Covers(MISNAMED.modules, names, "b");
    var missing := MissingSet(MISNAMED, names);
    assert "a" !in missing && "b" in missing;
    assert names[1..] == ["b"] && names[1..][1..] == [];
    assert Keep(["b"], missing) == ["b"] + Keep([], missing);
    assert Keep(names, missing) == [] + Keep(["b"], missing);
  }

  lemma FillerForB() returns (demand: ListQueryDemand)
    ensures BuiltGroups(TWO, Some(["b"]), None) == Groups([Entry("b", EntityModule(B, demand))], [])
  {
    hide EntityModule;
    var all, only, scope := TWO.entities, Some(["b"]), [B];
    demand := DemandFor(None, B);
    assert all[1..] == [B] && all[1..][1..] == [];
    assert Scope([B], only) == [B] + Scope([], only);
    assert Scope(all, only) == [] + Scope([B], only) == scope;
    var inScope := NamesOf(scope);
    assert B.columns[1..] == [] && ForeignKeys(B.columns) == [] + ForeignKeys([]) == [];
    assert BuiltParent(all, inScope, B) == None;
    assert TopLevel(all, inScope, scope, None, 1) == Put(TopLevel(all, inScope, scope, None, 0), "b", EntityModule(B, demand));
    var top: Table<ApiModule> := [Entry("b", EntityModule(B, demand))];
    assert TopLevel(all, inScope, scope, None, 1) == top;
    assert Nest(all, inScope, scope, None, Groups(top, []), 1) == Nest(all, inScope, scope, None, Groups(top, []), 0) == Groups(top, []);
    assert Children(all, inScope, scope, None, top, 1) == Children(all, inScope, scope, None, top, 0) == top;
  }

  lemma CapitalB()
    ensures Capitalize("b") == "B" && Fold("B") == Fold("b") && "B" != "b"
  {
    TrimOfTrimmed("B");
    TrimOfTrimmed("b");
  }

  lemma BIsFreeBesideSmallB()
    ensures FreeName("B", " ", {"b"}) == "B"
  {
  }

  /** Names are kept apart with their case when merging, so the generated group is called `B`. */
  lemma OneIsAdopted(start: seq<ApiModule>, m: ApiModule)
    requires ModuleNames(start) == {"b"} && m.name == "B" && m.Claims() == ["b"]
    ensures MergedModules(start, [m], ["b"]) == start + [Adopted(m, ["b"], {"b"})]
    ensures Adopted(m, ["b"], {"b"}).name == "B"
  {
    hide Resolve, DistinctEntityKeys, FreeName, ModuleNames, ResolveAll;
    TwoKeys();
    BIsFreeBesideSmallB();
    OneClaimFills(m);
    var added := [m];
    assert added[..0] == [];
    assert MergedModules(start, [], ["b"]) == start;
  }

  lemma OneClaimFills(m: ApiModule)
    requires m.Claims() == ["b"]
    ensures Fills(m, ["b"]) == ["b"]
  {
    hide Resolve;
    TwoKeys();
    var claims := ["b"];
    assert claims[..0] == [];
    assert ResolveAll(claims, ["b"]) == ResolveAll([], ["b"]) + ["b"];
  }

  lemma NothingExcluded(filled: set<string>)
    ensures MergedExclusions([], [], ["b"], filled) == []
  {
  }

  lemma MisnamedIsMerged()
    ensures var d := MergedFiller(MISNAMED, TWO, ["b"], None);
            |d.modules| == 2 && d.modules[0] == MISNAMED.modules[0] && d.modules[1].name == "B" && d.Exclusions() == []
  {
    hide EntityEndpoints, BuiltGroups, Capitalize, Adopted, MergedModules, MergedExclusions, AllClaims;
    CapitalB();
    var demand := FillerForB();
    var added := FillerModules(TWO, ["b"], None);
    assert |added| == 1 && added[0].Claims() == ["b"] && added[0].name == "B";
    assert added == [added[0]];
    assert ModuleNames(MISNAMED.modules) == {"b"} by { assert MISNAMED.modules[0].name == "b"; }
    OneIsAdopted(MISNAMED.modules, added[0]);
    NothingExcluded(AllClaims(MergedModules(MISNAMED.modules, added, ["b"])));
  }

  lemma ResolvedNames(d: ApiDesign, names: seq<string>)
    ensures var r := ResolvedCoverage(d, names);
            && |r.modules| == |d.modules| && (forall i :: 0 <= i < |d.modules| ==> r.modules[i] == ResolvedModule(d.modules[i], names))
            && (d.Exclusions() == [] ==> r.Exclusions() == [])
  {
    hide ResolvedModule, Resolve, Claimed;
  }

  lemma MergedNames()
    ensures var ms := EnsuredCoverage(MISNAMED, TWO, None).modules;
            |ms| == 2 && ms[0] == MISNAMED.modules[0] && ms[1].name == "B"
    ensures EnsuredCoverage(MISNAMED, TWO, None).Exclusions() == []
  {
    hide DistinctEntityKeys, Resolve, ResolvedModule, ResolvedCoverage, CoverageOf, EnsuredCoverage, MergedFiller;
    var names := ["a", "b"];
    TwoKeys();
    MisnamedResolves();
    OnlyBIsMissing();
    MisnamedIsMerged();
    EnsuredIsMerged(MISNAMED, TWO, None);
    ResolvedNames(MergedFiller(MISNAMED, TWO, ["b"], None), names);
    ResolvedKeepsName(MergedFiller(MISNAMED, TWO, ["b"], None).modules[1], names);
  }

  lemma ResolvedKeepsName(m: ApiModule, names: seq<string>)
    ensures ResolvedModule(m, names).name == m.name
  {
    hide ResolveAll, Inferred, Distinct;
  }

  /** The guarantee puts every table under a group, but the two groups are one to a reader, who sees
      the first: `b` is missing again. */
  lemma MisnamedGroupHidesTable()
    ensures CoverageOf(EnsuredCoverage(MISNAMED, TWO, None), EntityNames(TWO)).ok
    ensures !CoverageOf(Reread(EnsuredCoverage(MISNAMED, TWO, None)), EntityNames(TWO)).ok
  {
    hide Resolve, DistinctEntityKeys, EnsuredCoverage, CoverageOf, Reread, Fold;
    var d, names := EnsuredCoverage(MISNAMED, TWO, None), ["a", "b"];
    TwoKeys();
    MergedNames();
    CapitalB();
    EnsureIsComplete(MISNAMED, TWO, None);
    EnsuredReadsCompleteIff(MISNAMED, TWO, None);
    assert !ClaimsEntity(d.modules[0], names, "b");
    assert !IsFirst(d.modules, NameOf, 1);
    assert !FirstGroupClaims(d, names, "b");
    assert names[1] in names;
    ServedOrExcused(d, names, "b");
  }

  lemma ServedOrExcused(d: ApiDesign, names: seq<string>, n: string)
    requires CoverageOf(d, names).ok && n in names
    ensures Covers(d.modules, names, n) || Excuses(d.Exclusions(), names, n)
  {
    hide Covers, Excuses, CoverageOf;
    OkIffAllAccounted(d, names);
  }
}
