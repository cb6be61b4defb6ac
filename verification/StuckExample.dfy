/** A concrete design the coverage guarantee leaves incomplete. */
module StuckExample {
  import opened Text
  import opened Collections
  import opened Schema
  import opened Coverage
  import opened Merge
  import opened RestApi
  import opened RestPartition
  import opened Completeness

  function Link(name: string, target: string): Column {
    Column(name, "uuid", false, false, false, Some(Reference(target, "id")))
  }

  const A := Entity("a", "", [Column("id", "uuid", false, true, false, None)])
  const B := Entity("b", "", [Column("id", "uuid", false, true, false, None)])
  const C := Entity("c", "", [Link("a_id", "a"), Link("b_id", "b")])
  const SCHEMA := DatabaseDesign("PostgreSQL", [A, B, C], [])

  /** No groups yet, and the join table excluded without a reason. */
  const DESIGN := ApiDesign("", "", [], Some([ExcludedEntity("c", "")]))

  lemma OneLetterKey(s: string)
    requires |s| == 1 && IsAlnumLower(s[0])
    ensures Key(s) == s
  {
    assert Lower(s) == s;
    assert s == [s[0]] && KeepAlnum(s) == [s[0]] + KeepAlnum(s[1..]);
  }

  lemma KeysAreDistinct()
    ensures EntityNames(SCHEMA) == ["a", "b", "c"]
    ensures DistinctEntityKeys(EntityNames(SCHEMA)) && SlashFree(EntityNames(SCHEMA))
  {
    hide Key;
    var names := ["a", "b", "c"];
    OneLetterKey("a");
    OneLetterKey("b");
    OneLetterKey("c");
    assert forall i :: 0 <= i < |names| ==> Key(names[i]) == names[i];
    assert EntityNames(SCHEMA) == names;
  }

  lemma KeysOfTheTables()
    ensures ForeignKeys(A.columns) == [] == ForeignKeys(B.columns)
    ensures ForeignKeys(C.columns) == [Link("a_id", "a"), Link("b_id", "b")]
  {
    assert A.columns[1..] == [] == B.columns[1..];
    assert ForeignKeys([]) == [];
    assert C.columns[1..] == [Link("b_id", "b")] && C.columns[1..][1..] == [];
    assert ForeignKeys(C.columns[1..]) == [Link("b_id", "b")];
  }

  lemma ParentIsListed()
    ensures ByName(SCHEMA.entities, "a") == Some(A)
  {
    var all := SCHEMA.entities;
    assert all[..2] == [A, B] && all[..2][..1] == [A] && ByName([A], "a") == Some(A);
    assert ByName([A, B], "a") == ByName([A], "a");
  }

  lemma OnlyTheJunctionNests(inScope: set<string>)
    requires "a" in inScope
    ensures IsNested(SCHEMA.entities, inScope, C) && BuiltParent(SCHEMA.entities, inScope, C) == Some("a")
    ensures !IsNested(SCHEMA.entities, inScope, A) && !IsNested(SCHEMA.entities, inScope, B)
  {
    hide ForeignKeys, ByName;
    KeysOfTheTables();
    ParentIsListed();
  }

  lemma BuildNestsTheJunction(only: Option<seq<string>>)
    requires Scope(SCHEMA.entities, only) == [A, B, C]
    ensures "c" in EntitiesOf(BuiltGroups(SCHEMA, only, None).excluded)
  {
    hide EntityModule, JunctionReason, JunctionEndpoints, Children, IsNested, BuiltParent, TopLevel, GoodTable, Scope;
    var all := SCHEMA.entities;
    var inScope := NamesOf(all);
    assert all[0].name in inScope;
    OnlyTheJunctionNests(inScope);
    TopLevelGood(all, inScope, all, None, 3);
    var top := TopLevel(all, inScope, all, None, 3);
    assert all[0].name in TopNames(all, inScope, all, 3);
    HasIff(top, "a");
    var start := Groups(top, []);
    assert Nest(all, inScope, all, None, start, 2) == Nest(all, inScope, all, None, start, 1) == start;
    var es := Nest(all, inScope, all, None, start, 3).excluded;
    assert es[0].entity == "c";
  }

  function Resolved(): ApiDesign { ResolvedCoverage(DESIGN, EntityNames(SCHEMA)) }

  lemma ExclusionStaysBlank()
    ensures Resolved().modules == [] && Resolved().Exclusions() == [ExcludedEntity("c", "")]
  {
    hide DistinctEntityKeys, SlashFree, Resolve, EntityNames;
    var names := EntityNames(SCHEMA);
    KeysAreDistinct();
    ResolveListed(names, 2);
    var es := DESIGN.Exclusions();
    assert es[..0] == [];
    assert ResolvedExclusions([], [], names) == [];
    assert ResolvedExclusions(es, [], names) == [] + [ExcludedEntity("c", "")];
  }

  lemma AllAreMissing()
    ensures Scope(SCHEMA.entities, Some(CoverageOf(Resolved(), EntityNames(SCHEMA)).missing)) == [A, B, C]
    ensures "c" in CoverageOf(Resolved(), EntityNames(SCHEMA)).missing
  {
    hide DistinctEntityKeys, SlashFree, Resolve, Resolved, EntityNames, CoverageOf;
    var names, all := EntityNames(SCHEMA), SCHEMA.entities;
    KeysAreDistinct();
    ExclusionStaysBlank();
    var missing := CoverageOf(Resolved(), names).missing;
    assert !IsJustified(Resolved().Exclusions()[0]);
    MissingMeansUnaccounted(Resolved(), names, "a");
    MissingMeansUnaccounted(Resolved(), names, "b");
    MissingMeansUnaccounted(Resolved(), names, "c");
    assert names[0] in names && names[1] in names && names[2] in names;
    assert all[1..] == [B, C] && all[1..][1..] == [C] && all[1..][1..][1..] == [];
    assert Scope([C], Some(missing)) == [C] + Scope([], Some(missing));
    assert Scope([B, C], Some(missing)) == [B, C];
  }

  /** The junction is nested by the fallback, but its blank exclusion shadows the reason. */
  lemma BlankReasonIsStuck()
    ensures IsStuck(DESIGN, SCHEMA, None, "c")
    ensures !CoverageOf(EnsuredCoverage(DESIGN, SCHEMA, None), EntityNames(SCHEMA)).ok
  {
    hide BuiltGroups, EnsuredCoverage, DistinctEntityKeys, SlashFree, ResolvedCoverage, EntityNames, CoverageOf, Scope;
    KeysAreDistinct();
    ExclusionStaysBlank();
    AllAreMissing();
    BuildNestsTheJunction(Some(CoverageOf(Resolved(), EntityNames(SCHEMA)).missing));
    var es := Resolved().Exclusions();
    assert es[0].entity in EntitiesOf(es);
    EnsureIsCompleteIff(DESIGN, SCHEMA, None);
    var names := EntityNames(SCHEMA);
    assert names[2] in names;
  }
}
