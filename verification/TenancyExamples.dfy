/** Concrete schemas a second tenancy pass changes. */
module TenancyExamples {
  import opened Text
  import opened Collections
  import opened Schema
  import opened Shared
  import opened SharedSafety
  import opened Tenancy
  import opened TenancySafety
  import opened TenancyTwice

  // ---------- a statement about one table ----------

  predicate IsWord(s: string) { s != "" && forall i :: 0 <= i < |s| ==> IsLetter(s[i]) }

  lemma {:induction false} OneWord(s: string)
    requires IsWord(s)
    ensures LeadingLetters(s) == s && Words(s) == [s]
  {
    if |s| > 1 {
      OneWord(s[1..]);
    }
    assert [s[0]] + s[1..] == s;
    assert s[|s|..] == "";
  }

  lemma WordIsPlain(s: string)
    requires IsWord(s)
    ensures Lower(s) == s && Trim(s) == s && Fold(s) == s
  {
    assert !IsSpace(s[0]) && !IsSpace(s[|s| - 1]);
    TrimOfTrimmed(s);
  }

  /** A plural in plain `-s`, and its singular. */
  predicate IsPlainPlural(s: string) {
    IsWord(s) && |s| >= 4 && s[|s| - 1] == 's' && s[|s| - 2] != 'e' && s[|s| - 2] != 's'
  }

  lemma PlainSingular(s: string)
    requires IsPlainPlural(s)
    ensures SingularNoun(s) == s[..|s| - 1] && SingularNoun(s[..|s| - 1]) == s[..|s| - 1]
  {
    WordIsPlain(s);
    var one := s[..|s| - 1];
    WordIsPlain(one);
    EndsOtherwise(s, "ies");
    EndsOtherwise(s, "sses");
    EndsOtherwise(s, "shes");
    EndsOtherwise(s, "ches");
    EndsOtherwise(s, "xes");
    EndsOtherwise(s, "zes");
    EndsOtherwise(s, "ses");
    EndsOtherwise(one, "ies");
    EndsOtherwise(one, "sses");
    EndsOtherwise(one, "shes");
    EndsOtherwise(one, "ches");
    EndsOtherwise(one, "xes");
    EndsOtherwise(one, "zes");
    EndsOtherwise(one, "ses");
  }

  lemma EndsOtherwise(s: string, suffix: string)
    requires |s| >= 2 && |suffix| >= 2 && suffix[|suffix| - 2..] == "es" && (s[|s| - 2] != 'e' || s[|s| - 1] != 's')
    ensures !EndsWith(s, suffix)
  {
  }

  function Stating(plural: string): Declaration
    requires IsPlainPlural(plural)
  {
    Declaration([plural[..|plural| - 1]], plural + " are shared by the whole organization")
  }

  lemma SingularIsCandidate(plural: string)
    requires IsPlainPlural(plural)
    ensures plural[..|plural| - 1] in EntityCandidates(plural)
  {
    hide SingularNoun, Words;
    WordIsPlain(plural);
    OneWord(plural);
    PlainSingular(plural);
    var one := plural[..|plural| - 1];
    assert [plural][..0] == [];
    assert Heads([plural])[0] == one;
    assert NounVariants(one)[0] == one;
    assert LongOnes(NounVariants(one))[0] == one;
  }

  /** Such a statement is about the table of that name. */
  lemma StatingIsAbout(plural: string, ds: seq<Declaration>, i: nat)
    requires IsPlainPlural(plural) && i < |ds| && ds[i] == Stating(plural)
    ensures DeclarationFor(Trim(plural), ds).Some?
  {
    hide EntityCandidates;
    WordIsPlain(plural);
    SingularIsCandidate(plural);
    assert ds[i].candidates[0] in EntityCandidates(plural);
    assert Names(ds[i], EntityCandidates(plural));
  }

  // ---------- a boundary that is shared itself ----------

  function Key(name: string, target: string): Column {
    Column(name, "uuid", false, false, false, Some(Reference(target, "id")))
  }

  const BRANCHES := Entity("branches", "", [])
  const DEPARTMENTS := Entity("departments", "", [Key("branch_id", "branches")])
  const DOCTORS := Entity("doctors", "", [Key("department_id", "departments")])
  const CLINIC := DatabaseDesign("PostgreSQL", [BRANCHES, DEPARTMENTS, DOCTORS], [])

  lemma PlainPlurals()
    ensures IsPlainPlural("departments") && IsPlainPlural("doctors")
  {
  }

  function ClinicSignals(): Signals {
    PlainPlurals();
    Signals(true, {"branches"}, [Stating("departments"), Stating("doctors")])
  }

  lemma ClinicTenant()
    ensures TenantEntityFor(ClinicSignals()) == Tenant("branches", "branch_id")
  {
    assert TENANT_NOUNS[0].table in ClinicSignals().tenantNouns;
  }

  lemma ClinicNames()
    ensures Fold("branches") == "branches" && Fold("departments") == "departments" && Fold("doctors") == "doctors"
    ensures Trim("branches") == "branches" && Trim("departments") == "departments" && Trim("doctors") == "doctors"
    ensures Lower("departments") == "departments" && Lower("doctors") == "doctors"
  {
    hide Fold, Trim, Lower;
    BranchesIsWord();
    PlainPlurals();
    WordIsPlain("branches");
    WordIsPlain("departments");
    WordIsPlain("doctors");
  }

  lemma BranchesIsWord()
    ensures IsWord("branches")
  {
  }

  lemma NoScopeTableStartsWithDAs()
    ensures !IsScopeTableName("departments") && !IsScopeTableName("doctors")
  {
    hide Trim, Fold;
    ClinicNames();
    assert forall i :: 0 <= i < |SCOPE_TABLES| ==> |SCOPE_TABLES[i]| > 0 && SCOPE_TABLES[i][0] != 'd';
  }

  lemma DepartmentKey()
    ensures IsScopeColumn("department_id") && IsScopeColumn("branch_id")
  {
    hide IsScopeColumn;
    NounKey(21, "department_id");
    NounKey(6, "branch_id");
  }

  lemma ClinicIsDeclared()
    ensures var ds := ClinicSignals().declarations;
            DeclarationFor(Trim("departments"), ds).Some? && DeclarationFor(Trim("doctors"), ds).Some?
  {
    hide DeclarationFor, IsPlainPlural, Trim;
    PlainPlurals();
    StatingIsAbout("departments", ClinicSignals().declarations, 0);
    StatingIsAbout("doctors", ClinicSignals().declarations, 1);
  }

  /** `departments` is a boundary because `doctors` points at it with a scoping key. */
  lemma DepartmentsIsBoundary()
    ensures "departments" in Boundary(CLINIC, Tenant("branches", "branch_id"))
    ensures "branches" in Boundary(CLINIC, Tenant("branches", "branch_id"))
    ensures "doctors" !in Boundary(CLINIC, Tenant("branches", "branch_id"))
  {
    hide Fold, Trim, IsScopeColumn, IsScopeTableName, Boundary;
    ClinicNames();
    NoScopeTableStartsWithDAs();
    DepartmentKey();
    var es := CLINIC.entities;
    assert es[2].columns[0] == Key("department_id", "departments");
    assert ScopesTo(es[2], "departments");
    assert !ScopesTo(es[0], "doctors") && !ScopesTo(es[1], "doctors") && !ScopesTo(es[2], "doctors");
  }

  /** It is none any more once that key is demoted. */
  lemma DepartmentsIsNoLastingBoundary()
    ensures var tenant := Tenant("branches", "branch_id");
            !IsLastingBoundary("departments", CLINIC, tenant, ClinicSignals().declarations)
            && IsLastingBoundary("branches", CLINIC, tenant, ClinicSignals().declarations)
  {
    hide Fold, Trim, IsScopeColumn, IsScopeTableName, Boundary, DeclarationFor, ClinicSignals;
    var tenant, ds, es := Tenant("branches", "branch_id"), ClinicSignals().declarations, CLINIC.entities;
    var boundary := Boundary(CLINIC, tenant);
    ClinicNames();
    NoScopeTableStartsWithDAs();
    ClinicIsDeclared();
    DepartmentsIsBoundary();
    PlainKeyIsNotReferenceOnly(DOCTORS.columns[0]);
    assert !IsLastingScope(es[2], es[2].columns[0], boundary, ds);
    assert !ScopesLastingly(es[2], "departments", boundary, ds);
    assert !ScopesLastingly(es[1], "departments", boundary, ds);
    assert !ScopesLastingly(es[0], "departments", boundary, ds);
  }

  lemma PlainKeyIsNotReferenceOnly(c: Column)
    requires !c.nullable
    ensures !IsReferenceOnly(c)
  {
  }

  /** Statements about departments and doctors: the first pass leaves `departments` alone, because
      it is still a boundary then, with its mandatory branch; the second pass demotes that. */
  lemma DepartmentsAreCorrectedLate()
    ensures HasLateCorrection(CLINIC, ClinicSignals().declarations, Tenant("branches", "branch_id"))
  {
    hide Fold, Trim, IsScopeColumn, Boundary, DeclarationFor, ClinicSignals, IsLastingBoundary;
    var tenant, ds, e := Tenant("branches", "branch_id"), ClinicSignals().declarations, CLINIC.entities[1];
    var less := LastingBoundary(CLINIC, tenant, ds);
    ClinicNames();
    ClinicIsDeclared();
    DepartmentsIsBoundary();
    DepartmentsIsNoLastingBoundary();
    PlainKeyIsNotReferenceOnly(e.columns[0]);
    assert LeavesBoundary(e, Boundary(CLINIC, tenant), less, ds);
    assert NeedsDemotion(e.columns[0], less);
  }

  /** So regenerating that schema is not stable: `departments` is owned after the first pass and
      corrected by the second. */
  lemma ClinicIsNotStable()
    ensures var after := AppliedTenancy(CLINIC, ClinicSignals()); AppliedTenancy(after, ClinicSignals()) != after
    ensures DEPARTMENTS in AppliedTenancy(CLINIC, ClinicSignals()).entities
  {
    hide AppliedTenancy, ClinicSignals, HasLateCorrection, Boundary, DeclarationFor, IsAlreadyScoped, KeepsScoping, Fold;
    ClinicTenant();
    ClinicIsMultiTenant();
    ClinicIsScoped();
    DepartmentsAreCorrectedLate();
    MultiTenantTwiceIff(CLINIC, ClinicSignals());
    DepartmentsComeOutOwned();
  }

  lemma ClinicIsMultiTenant()
    ensures ClinicSignals().multiTenant && ClinicSignals().declarations != []
  {
  }

  lemma ClinicIsScoped()
    ensures HasTenancy(CLINIC)
  {
    hide IsScopeColumn, IsStrippable, Trim;
    DepartmentKey();
    assert CLINIC.entities[1].columns[0].name == "branch_id";
    assert IsAlreadyScoped(CLINIC.entities[1]);
  }

  lemma DepartmentsComeOutOwned()
    ensures DEPARTMENTS in AppliedTenancy(CLINIC, ClinicSignals()).entities
  {
    hide Boundary, ClinicSignals, HasTenancy, DeclarationFor, Trim, Fold, TenantEntityFor;
    ClinicTenant();
    ClinicIsMultiTenant();
    ClinicIsScoped();
    ClinicNames();
    DepartmentsIsBoundary();
    assert AppliedTenancy(CLINIC, ClinicSignals()).entities[1] == DEPARTMENTS;
  }

  // ---------- the only scoping there was ----------

  const PATIENTS := Entity("patients", "", [Column("branch_id", "uuid", false, false, false, None)])
  const PRACTICE := DatabaseDesign("PostgreSQL", [PATIENTS], [])

  lemma PatientsIsPlural()
    ensures IsPlainPlural("patients")
  {
  }

  function PracticeSignals(): Signals {
    PatientsIsPlural();
    Signals(true, {}, [Stating("patients")])
  }

  lemma PracticeTenant()
    ensures TenantEntityFor(PracticeSignals()) == DEFAULT_TENANT
  {
    hide PracticeSignals;
    PracticeMentionsNothing();
    NothingMentioned(TENANT_NOUNS);
  }

  lemma PracticeMentionsNothing()
    ensures PracticeSignals().tenantNouns == {}
  {
  }

  lemma PracticeNames()
    ensures Fold("patients") == "patients" && Trim("patients") == "patients" && Fold("tenants") == "tenants"
    ensures !IsScopeTableName("patients")
  {
    hide Fold, Trim, Lower, IsPlainPlural, IsWord, SCOPE_TABLES;
    PatientsIsWord();
    TenantsIsWord();
    WordIsPlain("patients");
    WordIsPlain("tenants");
    NoScopeTableIsPatients();
  }

  lemma PatientsIsWord()
    ensures IsWord("patients")
  {
  }

  lemma PatientsIsNoBoundary(boundary: set<string>)
    requires boundary == Boundary(PRACTICE, TenantEntityFor(PracticeSignals()))
    ensures Fold("patients") !in boundary
  {
    hide Boundary, IsScopeColumn, IsScopeTableName, Fold, Trim, TenantEntityFor, PracticeSignals;
    PracticeNames();
    PracticeTenant();
    assert !ScopesTo(PATIENTS, "patients");
  }

  lemma TenantsIsWord()
    ensures IsWord("tenants")
  {
  }

  lemma NoScopeTableIsPatients()
    ensures forall i :: 0 <= i < |SCOPE_TABLES| ==> SCOPE_TABLES[i] != "patients"
  {
    assert forall i :: 0 <= i < |SCOPE_TABLES| ==> |SCOPE_TABLES[i]| < 2 || SCOPE_TABLES[i][0] != 'p' || SCOPE_TABLES[i][1] != 'a';
  }

  lemma {:induction false} NothingMentioned(tenants: seq<Tenant>)
    ensures FirstMentioned(tenants, {}) == DEFAULT_TENANT
  {
    if tenants != [] {
      NothingMentioned(tenants[1..]);
    }
  }

  /** When the one scoping key of a schema sits on a shared record, the first pass demotes it, and
      the second finds no tenancy and adds a tenant table. */
  lemma PracticeIsNotStable()
    ensures var after := AppliedTenancy(PRACTICE, PracticeSignals()); AppliedTenancy(after, PracticeSignals()) != after
  {
    hide AppliedTenancy, Boundary, DeclarationFor, IsScopeColumn, TenantEntityFor, Fold, Trim, HasLateCorrection;
    var ds, e := PracticeSignals().declarations, PATIENTS;
    var boundary := Boundary(PRACTICE, TenantEntityFor(PracticeSignals()));
    PatientsIsPlural();
    StatingIsAbout("patients", ds, 0);
    PatientsIsNoBoundary(boundary);
    DepartmentKey();
    PracticeIsScoped();
    PlainKeyIsNotReferenceOnly(e.columns[0]);
    assert IsSharedTable(e.name, boundary, ds) && NeedsDemotion(e.columns[0], boundary);
    assert !StaysScoped(e, boundary, ds);
    assert !KeepsScoping(PRACTICE, boundary, ds);
    MultiTenantTwiceIff(PRACTICE, PracticeSignals());
  }

  lemma PracticeIsScoped()
    ensures HasTenancy(PRACTICE)
  {
    hide IsScopeColumn, IsStrippable, Trim;
    DepartmentKey();
    assert PRACTICE.entities[0].columns[0].name == "branch_id";
    assert IsAlreadyScoped(PRACTICE.entities[0]);
  }

  // ---------- a table promoted by removing another ----------

  const TENANTS := Entity("tenants", "", [])
  const STORES := Entity("stores", "", [Key("tenant_id", "tenants")])
  const SHELVES := Entity("shelves", "", [Key("store_id", "stores")])
  const SHOP := DatabaseDesign("PostgreSQL", [TENANTS, STORES, SHELVES], [])
  const ONE_BUSINESS := Signals(false, {}, [])

  lemma ShopNames()
    ensures Fold("tenants") == "tenants" && Fold("stores") == "stores" && Fold("shelves") == "shelves"
    ensures Trim("tenants") == "tenants" && Trim("stores") == "stores" && Trim("shelves") == "shelves"
    ensures IsScopeTableName("tenants") && IsScopeTableName("stores") && !IsScopeTableName("shelves")
  {
    hide Fold, Trim, Lower;
    ShopWords();
    WordIsPlain("tenants");
    WordIsPlain("stores");
    WordIsPlain("shelves");
    assert SCOPE_TABLES[1] == "tenants" && SCOPE_TABLES[16] == "stores";
    assert forall i :: 0 <= i < |SCOPE_TABLES| ==> |SCOPE_TABLES[i]| < 2 || SCOPE_TABLES[i][0] != 's' || SCOPE_TABLES[i][1] != 'h';
  }

  lemma ShopWords()
    ensures IsWord("tenants") && IsWord("stores") && IsWord("shelves")
  {
  }

  lemma ShopKeys()
    ensures IsStripColumn("tenant_id") && IsStripColumn("store_id")
  {
    assert Lower("tenant_id") == "tenant_id" && Lower("store_id") == "store_id";
    assert "tenant_id"[..6] == "tenant" && "store_id"[..5] == "store";
    assert STRIP_NOUNS[0] == "tenant" && STRIP_NOUNS[6] == "store";
  }

  lemma ShopScopes(name: string)
    ensures ScopesBy(STORES, name) && ScopesBy(SHELVES, name) && !ScopesBy(TENANTS, name)
  {
    hide IsStripColumn, Fold;
    ShopKeys();
    assert STORES.columns[0].name == "tenant_id" && SHELVES.columns[0].name == "store_id";
  }

  lemma OnlyTenantsGo()
    ensures StrippedTables(SHOP) == {"tenants"}
  {
    hide Fold, Trim, ScopesBy, IsScopeTableName;
    var es := SHOP.entities;
    ShopNames();
    ShopScopes("tenants");
    ShopScopes("stores");
    assert es[1..] == [STORES, SHELVES] && es[1..][1..] == [SHELVES] && es[1..][1..][1..] == [];
    assert CountOthers([SHELVES], "tenants") == 1 && CountScoping([SHELVES], "tenants") == 1;
    assert CountOthers([STORES, SHELVES], "tenants") == 2 && CountScoping([STORES, SHELVES], "tenants") == 2;
    assert CountOthers(es, "tenants") == 2 && CountScoping(es, "tenants") == 2;
    assert CountOthers([SHELVES], "stores") == 1 && CountScoping([SHELVES], "stores") == 1;
    assert CountOthers([STORES, SHELVES], "stores") == 1 && CountScoping([STORES, SHELVES], "stores") == 1;
    assert CountOthers(es, "stores") == 2 && CountScoping(es, "stores") == 1;
    assert IsStrippable(es[0], SHOP) && !IsStrippable(es[1], SHOP) && !IsStrippable(es[2], SHOP);
  }

  lemma StoresArePromoted()
    ensures IsPromoted(STORES, SHOP.entities, {"tenants"})
  {
    hide Fold, Trim, IsScopeTableName, IsStripColumn;
    var es, gone := SHOP.entities, {"tenants"};
    ShopNames();
    ShopKeys();
    assert SHELVES.columns[0] == Key("store_id", "stores");
    assert StillScopesBy(SHELVES, "stores", gone);
    assert es[1..] == [STORES, SHELVES] && es[1..][1..] == [SHELVES] && es[1..][1..][1..] == [];
    assert OthersLeft([SHELVES], "stores", gone) == 1 && ScopingLeft([SHELVES], "stores", gone) == 1;
    assert OthersLeft([STORES, SHELVES], "stores", gone) == 1 && ScopingLeft([STORES, SHELVES], "stores", gone) == 1;
    assert OthersLeft(es, "stores", gone) == 1 && ScopingLeft(es, "stores", gone) == 1;
  }

  /** Removing `tenants` leaves `stores` with every other table hanging off it, so the second pass
      of a single business removes `stores` as well. */
  lemma ShopIsNotStable()
    ensures var after := AppliedTenancy(SHOP, ONE_BUSINESS); AppliedTenancy(after, ONE_BUSINESS) != after
  {
    hide AppliedTenancy, StrippedTables, IsPromoted;
    OnlyTenantsGo();
    StoresArePromoted();
    assert SHOP.entities[1] == STORES;
    SingleBusinessTwiceIff(SHOP, ONE_BUSINESS);
  }
}
