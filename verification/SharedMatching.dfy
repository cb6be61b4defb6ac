/** Which tables a statement about shared records is about, and what reads as a tenant boundary. */
module SharedMatching {
  import opened Text
  import opened Collections
  import opened Shared
  import opened Tenancy

  // ---------- the nouns of a table name ----------

  /** Words for the container rather than for what it contains. */
  predicate IsContainer(noun: string) {
    || noun in ["record", "data", "datum", "information", "info", "profile"]
    || noun in ["file", "history", "entry", "detail", "list", "table"]
    || noun in ["entity", "account", "master", "chart", "document", "row"]
  }

  lemma ContainerIff(noun: string)
    ensures noun in CONTAINER_NOUNS <==> IsContainer(noun)
  {
    var a, b: seq<string> := ["record", "data", "datum", "information", "info", "profile"], ["file", "history", "entry", "detail", "list", "table"];
    var c: seq<string> := ["entity", "account", "master", "chart", "document", "row"];
    assert CONTAINER_NOUNS == a + b + c;
  }

  /** The word at `i` is what the name is about, or a container behind it: only containers follow. */
  predicate IsHeadAt(words: seq<string>, i: nat)
    requires i < |words|
  {
    forall j :: i < j < |words| ==> IsContainer(SingularNoun(words[j]))
  }

  /** The noun itself, or for a `-ship` word the noun it derives from; at least three letters. */
  predicate IsVariant(noun: string, x: string) {
    var base := SingularNoun(noun);
    && |x| >= 3
    && (x == base || (|base| > 6 && EndsWith(base, "ship") && x == base[..|base| - 4]))
  }

  lemma {:induction false} HeadsIff(words: seq<string>, x: string)
    ensures x in Heads(words) <==> exists i :: 0 <= i < |words| && IsHeadAt(words, i) && x == SingularNoun(words[i])
  {
    hide SingularNoun, IsContainer, IsHeadAt;
    if words != [] {
      var front, last := words[..|words| - 1], SingularNoun(words[|words| - 1]);
      HeadsIff(front, x);
      ContainerIff(last);
      LastIsHead(words);
      assert words == front + [words[|front|]];
      forall i | 0 <= i < |front| ensures IsHeadAt(words, i) <==> IsHeadAt(front, i) && IsContainer(last) {
        HeadBefore(front, words[|front|], i);
      }
    }
  }

  lemma LastIsHead(words: seq<string>)
    requires words != []
    ensures IsHeadAt(words, |words| - 1)
  {
  }

  /** One more word keeps a head one exactly when it is a container. */
  lemma HeadBefore(front: seq<string>, last: string, i: nat)
    requires i < |front|
    ensures IsHeadAt(front + [last], i) <==> IsHeadAt(front, i) && IsContainer(SingularNoun(last))
  {
    hide SingularNoun, IsContainer;
    var words := front + [last];
    assert words[|front|] == last;
    assert forall j :: i < j < |front| ==> words[j] == front[j];
  }

  lemma VariantsIff(noun: string, x: string)
    ensures x in LongOnes(NounVariants(noun)) <==> IsVariant(noun, x)
  {
    hide SingularNoun, EndsWith;
    var all := NounVariants(noun);
    assert all[1..] == [] || (all[1..][1..] == [] && |all| == 2);
    assert LongOnes([]) == [];
  }

  lemma {:induction false} LongVariantsIff(heads: seq<string>, x: string)
    ensures x in LongVariants(heads) <==> exists h :: h in heads && IsVariant(h, x)
  {
    hide NounVariants, LongOnes, IsVariant;
    if heads != [] {
      LongVariantsIff(heads[1..], x);
      VariantsIff(heads[0], x);
      assert heads == [heads[0]] + heads[1..];
    }
  }

  /** A noun stands for a table: it is a variant of the last word of its name, or of one behind which only
      containers follow. */
  predicate StandsForTable(table: string, x: string) {
    var words := Words(Lower(table));
    exists i :: 0 <= i < |words| && IsHeadAt(words, i) && IsVariant(SingularNoun(words[i]), x)
  }

  lemma CandidatesIff(table: string, x: string)
    ensures x in EntityCandidates(table) <==> StandsForTable(table, x)
  {
    hide SingularNoun, IsVariant, Words, Lower, IsHeadAt;
    var words := Words(Lower(table));
    LongVariantsIff(Heads(words), x);
    if h :| h in Heads(words) && IsVariant(h, x) {
      HeadsIff(words, h);
    }
    if i :| 0 <= i < |words| && IsHeadAt(words, i) && IsVariant(SingularNoun(words[i]), x) {
      HeadsIff(words, SingularNoun(words[i]));
    }
  }

  /** The statement's subject may be this table. */
  predicate IsAboutTable(d: Declaration, table: string) {
    exists k :: 0 <= k < |d.candidates| && StandsForTable(table, d.candidates[k])
  }

  /** The first statement about a table is the one that counts. */
  lemma DeclarationIff(table: string, ds: seq<Declaration>, i: nat)
    ensures DeclarationFor(table, ds) == Some(i) <==>
              i < |ds| && IsAboutTable(ds[i], table) && forall j :: 0 <= j < i ==> !IsAboutTable(ds[j], table)
  {
    hide EntityCandidates, StandsForTable;
    forall j | 0 <= j < |ds| ensures Names(ds[j], EntityCandidates(table)) <==> IsAboutTable(ds[j], table) {
      forall k | 0 <= k < |ds[j].candidates| ensures ds[j].candidates[k] in EntityCandidates(table) <==> StandsForTable(table, ds[j].candidates[k]) {
        CandidatesIff(table, ds[j].candidates[k]);
      }
    }
    FirstNamingIff(ds, EntityCandidates(table), i);
  }

  lemma {:induction false} FirstNamingIff(ds: seq<Declaration>, heads: seq<string>, i: nat)
    ensures FirstNaming(ds, heads) == Some(i) <==> i < |ds| && Names(ds[i], heads) && forall j :: 0 <= j < i ==> !Names(ds[j], heads)
  {
    hide Names;
    if ds != [] {
      FirstNamingIff(ds[1..], heads, if i > 0 then i - 1 else 0);
      assert forall j :: 1 <= j < |ds| ==> ds[j] == ds[1..][j - 1];
    }
  }

  // ---------- what reads as a boundary ----------

  /** The places and organizations a business may have several of. */
  predicate IsPlace(noun: string) {
    || noun in ["tenant", "organization", "organisation", "org", "workspace", "company", "branch", "store"]
    || noun in ["merchant", "vendor", "clinic", "hospital", "school", "campus", "warehouse", "outlet"]
    || noun in ["practice", "franchise", "location", "site", "facility", "department"]
  }

  /** A place followed by `_id`, in any case. */
  predicate IsPlaceKey(column: string) {
    var low := Lower(column);
    |low| >= 3 && IsPlace(low[..|low| - 3]) && low == low[..|low| - 3] + "_id"
  }

  lemma ScopeColumnIff(column: string)
    ensures IsScopeColumn(column) <==> IsPlaceKey(column)
  {
    hide Lower, EndsWith;
    IdEnds(Lower(column));
    if |column| >= 3 {
      PlaceIff(Lower(column)[..|column| - 3]);
    }
  }

  lemma IdEnds(low: string)
    ensures EndsWith(low, "_id") <==> |low| >= 3 && low == low[..|low| - 3] + "_id"
  {
    if EndsWith(low, "_id") {
      assert low == low[..|low| - 3] + low[|low| - 3..];
    }
    if |low| >= 3 && low == low[..|low| - 3] + "_id" {
      assert (low[..|low| - 3] + "_id")[|low| - 3..] == "_id";
    }
  }

  lemma PlaceIff(noun: string)
    ensures noun in SCOPE_NOUNS <==> IsPlace(noun)
  {
    var a: seq<string> := ["tenant", "organization", "organisation", "org", "workspace", "company", "branch", "store"];
    var b: seq<string> := ["merchant", "vendor", "clinic", "hospital", "school", "campus", "warehouse", "outlet"];
    var c: seq<string> := ["practice", "franchise", "location", "site", "facility", "department"];
    assert SCOPE_NOUNS == a + b + c;
  }

  /** The nouns never used for anything but a tenant: only these scope a column by their name alone when
      tenancy is taken out. */
  predicate IsOrganization(noun: string) {
    || noun in ["tenant", "organization", "org", "workspace", "company"]
    || noun in ["branch", "store", "merchant", "vendor"]
  }

  predicate IsOrganizationKey(column: string) {
    var low := Lower(column);
    |low| >= 3 && IsOrganization(low[..|low| - 3]) && low == low[..|low| - 3] + "_id"
  }

  lemma StripColumnIff(column: string)
    ensures IsStripColumn(column) <==> IsOrganizationKey(column)
  {
    hide Lower, EndsWith;
    IdEnds(Lower(column));
    if |column| >= 3 {
      OrganizationIff(Lower(column)[..|column| - 3]);
    }
  }

  lemma OrganizationIff(noun: string)
    ensures noun in STRIP_NOUNS <==> IsOrganization(noun)
  {
    var a, b: seq<string> := ["tenant", "organization", "org", "workspace", "company"], ["branch", "store", "merchant", "vendor"];
    assert STRIP_NOUNS == a + b;
  }

  /** The names a boundary table goes by: some in both numbers, the others in the plural. */
  predicate IsPlaceTable(name: string) {
    || name in ["tenant", "organization", "organisation", "org", "account", "workspace"]
    || name in ["tenants", "organizations", "organisations", "orgs", "accounts", "workspaces"]
    || name in ["companies", "branches", "clinics", "hospitals", "stores", "merchants", "vendors", "schools"]
    || name in ["campuses", "warehouses", "outlets", "practices", "franchises", "locations", "sites", "facilities"]
  }

  lemma ScopeTableIff(name: string)
    ensures IsScopeTableName(name) <==> IsPlaceTable(Lower(name))
  {
    hide Lower;
    var low := Lower(name);
    var a: seq<string> := ["tenant", "tenants", "organization", "organizations", "organisation", "organisations", "org", "orgs",
                           "account", "accounts", "workspace", "workspaces"];
    var b: seq<string> := ["companies", "branches", "clinics", "hospitals", "stores", "merchants", "vendors", "schools"];
    var c: seq<string> := ["campuses", "warehouses", "outlets", "practices", "franchises", "locations", "sites", "facilities"];
    assert SCOPE_TABLES == a + b + c;
  }
}
