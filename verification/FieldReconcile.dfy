/** The field-type pass as it runs, and what it guarantees. */
module FieldReconcile {
  import opened Text
  import opened Collections
  import opened Schema
  import opened FieldTypes

  // ---------- the pass ----------

  /** Rewrites one field and counts it if it was wrong. */
  method FixOneField(index: SchemaTypeIndex, f: SchemaField, context: seq<string>, start: Table<ApiTypeCorrection>)
    returns (fixed: SchemaField, tally: Table<ApiTypeCorrection>, changed: bool)
    ensures fixed == FixField(index, f, context)
    ensures tally == Tally(start, WrongField(index, f, context))
    ensures !changed ==> fixed == f
  {
    hide ResolveFieldType, TypeName, CorrectionKey;
    assert Tally(start, []) == start;
    var resolved := ResolveFieldType(index, f.name, context);
    if resolved.None? || f.fieldType == resolved.value.typeName {
      return f, start, false;
    }
    tally := start;
    if !SameFieldType(f.fieldType, resolved.value.typeName) {
      var c := ApiTypeCorrection(resolved.value.entity, f.name, f.fieldType, resolved.value.typeName, 1);
      assert [c][..0] == [];
      tally := TallyOne(tally, c);
    }
    fixed, changed := f.(fieldType := resolved.value.typeName), true;
  }

  method FixFieldList(index: SchemaTypeIndex, fields: seq<SchemaField>, context: seq<string>, start: Table<ApiTypeCorrection>)
    returns (fixed: seq<SchemaField>, tally: Table<ApiTypeCorrection>, changed: bool)
    ensures fixed == FixFields(index, fields, context)
    ensures tally == Tally(start, WrongFields(index, fields, context))
    ensures !changed ==> fixed == fields
  {
    hide FixField, WrongField, TallyOne;
    fixed, tally, changed := [], start, false;
    for i := 0 to |fields|
      invariant |fixed| == i && forall j :: 0 <= j < i ==> fixed[j] == FixField(index, fields[j], context)
      invariant tally == Tally(start, WrongFields(index, fields[..i], context))
      invariant !changed ==> fixed == fields[..i]
    {
      assert fields[..i + 1][..i] == fields[..i];
      var f, hit;
      f, tally, hit := FixOneField(index, fields[i], context, tally);
      TallyConcat(start, WrongFields(index, fields[..i], context), WrongField(index, fields[i], context));
      fixed, changed := fixed + [f], changed || hit;
    }
    assert fields[..|fields|] == fields;
    assert fixed == FixFields(index, fields, context);
  }

  lemma {:induction false} TallyConcat(t: Table<ApiTypeCorrection>, a: seq<ApiTypeCorrection>, b: seq<ApiTypeCorrection>)
    ensures Tally(t, a + b) == Tally(Tally(t, a), b)
  {
    hide TallyOne;
    if b == [] {
      assert a + b == a;
    } else {
      TallyConcat(t, a, b[..|b| - 1]);
      assert (a + b)[..|a + b| - 1] == a + b[..|b| - 1];
    }
  }

  method FixOneEndpoint(index: SchemaTypeIndex, m: ApiModule, e: ApiEndpoint, start: Table<ApiTypeCorrection>)
    returns (fixed: ApiEndpoint, tally: Table<ApiTypeCorrection>, changed: bool)
    ensures fixed == FixEndpoint(index, m, e)
    ensures tally == Tally(start, WrongInEndpoint(index, m, e))
    ensures !changed ==> fixed == e
  {
    hide FixFields, WrongFields, ContextFor, Tally;
    var context := ContextFor(index, m.basePath, m.Claims(), e.path);
    var request, inRequest, response, inResponse;
    request, tally, inRequest := FixFieldList(index, e.requestSchema, context, start);
    response, tally, inResponse := FixFieldList(index, e.responseSchema, context, tally);
    TallyConcat(start, WrongFields(index, e.requestSchema, context), WrongFields(index, e.responseSchema, context));
    fixed := e.(requestSchema := request, responseSchema := response);
    changed := inRequest || inResponse;
  }

  method FixOneModule(index: SchemaTypeIndex, m: ApiModule, start: Table<ApiTypeCorrection>)
    returns (fixed: ApiModule, tally: Table<ApiTypeCorrection>, changed: bool)
    ensures fixed == FixModule(index, m)
    ensures tally == Tally(start, WrongInEndpoints(index, m, m.endpoints))
    ensures !changed ==> fixed == m
  {
    hide FixEndpoint, WrongInEndpoint, Tally;
    var es := m.endpoints;
    var out := [];
    tally, changed := start, false;
    EmptyTally(start);
    for i := 0 to |es|
      invariant |out| == i && forall j :: 0 <= j < i ==> out[j] == FixEndpoint(index, m, es[j])
      invariant tally == Tally(start, WrongInEndpoints(index, m, es[..i]))
      invariant !changed ==> out == es[..i]
    {
      assert es[..i + 1][..i] == es[..i];
      var e, hit;
      e, tally, hit := FixOneEndpoint(index, m, es[i], tally);
      TallyConcat(start, WrongInEndpoints(index, m, es[..i]), WrongInEndpoint(index, m, es[i]));
      out, changed := out + [e], changed || hit;
    }
    assert es[..|es|] == es;
    assert out == FixModule(index, m).endpoints;
    fixed := m.(endpoints := out);
  }

  lemma EmptyTally(t: Table<ApiTypeCorrection>)
    ensures Tally(t, []) == t
  {
  }

  method FixAllModules(index: SchemaTypeIndex, ms: seq<ApiModule>)
    returns (out: seq<ApiModule>, tally: Table<ApiTypeCorrection>, changed: bool)
    ensures out == FixModules(index, ms) && tally == Tally([], WrongInModules(index, ms))
    ensures !changed ==> out == ms
  {
    hide FixModule, WrongInEndpoints, Tally;
    out, tally, changed := [], [], false;
    EmptyTally([]);
    for i := 0 to |ms|
      invariant |out| == i && forall j :: 0 <= j < i ==> out[j] == FixModule(index, ms[j])
      invariant tally == Tally([], WrongInModules(index, ms[..i]))
      invariant !changed ==> out == ms[..i]
    {
      assert ms[..i + 1][..i] == ms[..i];
      var m, hit;
      m, tally, hit := FixOneModule(index, ms[i], tally);
      TallyConcat([], WrongInModules(index, ms[..i]), WrongInEndpoints(index, ms[i], ms[i].endpoints));
      out, changed := out + [m], changed || hit;
    }
    assert ms[..|ms|] == ms;
    assert out == FixModules(index, ms);
  }

  method ReconcileApiFieldTypes(d: ApiDesign, db: DatabaseDesign, collate: (string, string) -> bool)
    returns (r: FieldTypeReconciliation)
    ensures r == Reconciled(d, db, collate)
  {
    hide FixModules, WrongInModules, Insert;
    var index := BuildSchemaTypeIndex(db);
    if index.columns == map[] {
      EmptyIndexIsSilent(db.entities);
      SilentDesign(index, d);
      return FieldTypeReconciliation(d, []);
    }
    var ms, tally, changed := FixAllModules(index, d.modules);
    var corrections := Sorted(ValuesOf(tally), collate);
    r := FieldTypeReconciliation(if changed then d.(modules := ms) else d, corrections);
  }

  // ---------- an index of nothing ----------

  predicate IsSilent(index: SchemaTypeIndex) {
    index.columns == map[] && index.primaryKey == map[] && index.byNoun == map[]
  }

  lemma KeyIsAdded(index: SchemaTypeIndex, e: Entity)
    ensures Trim(e.name) != "" ==> Lower(Trim(e.name)) in IndexEntity(index, e).columns
  {
    hide Trim, Lower, SingularNoun, PrimaryKeyColumn, ColumnsByName;
  }

  lemma {:induction false} EmptyIndexIsSilent(entities: seq<Entity>)
    requires IndexOf(entities).columns == map[]
    ensures IsSilent(IndexOf(entities))
  {
    hide Trim, Lower, SingularNoun, PrimaryKeyColumn, ColumnsByName;
    if entities != [] {
      var before, last := IndexOf(entities[..|entities| - 1]), entities[|entities| - 1];
      KeyIsAdded(before, last);
      EmptyIndexIsSilent(entities[..|entities| - 1]);
    }
  }

  lemma {:induction false} SilentColumns(index: SchemaTypeIndex, name: string, context: seq<string>)
    requires IsSilent(index)
    ensures ColumnType(index, name, context) == None && OwnKeyType(index, context) == None
  {
    if context != [] {
      SilentColumns(index, name, context[1..]);
    }
  }

  lemma SilentResolve(index: SchemaTypeIndex, name: string, context: seq<string>)
    requires IsSilent(index)
    ensures ResolveFieldType(index, name, context) == None
  {
    hide Fold, EndsWith, KeyNoun;
    SilentColumns(index, Fold(name), context);
  }

  lemma {:induction false} SilentFields(index: SchemaTypeIndex, fields: seq<SchemaField>, context: seq<string>)
    requires IsSilent(index)
    ensures WrongFields(index, fields, context) == []
    ensures FixFields(index, fields, context) == fields
  {
    hide ResolveFieldType;
    if fields != [] {
      SilentFields(index, fields[..|fields| - 1], context);
    }
    forall i | 0 <= i < |fields| ensures FixField(index, fields[i], context) == fields[i] {
      SilentResolve(index, fields[i].name, context);
    }
    if fields != [] {
      SilentResolve(index, fields[|fields| - 1].name, context);
    }
  }

  lemma {:induction false} SilentEndpoints(index: SchemaTypeIndex, m: ApiModule, es: seq<ApiEndpoint>)
    requires IsSilent(index)
    ensures WrongInEndpoints(index, m, es) == []
    ensures forall i :: 0 <= i < |es| ==> FixEndpoint(index, m, es[i]) == es[i]
  {
    hide FixFields, WrongFields, ContextFor;
    if es != [] {
      SilentEndpoints(index, m, es[..|es| - 1]);
      var e := es[|es| - 1];
      var context := ContextFor(index, m.basePath, m.Claims(), e.path);
      SilentFields(index, e.requestSchema, context);
      SilentFields(index, e.responseSchema, context);
      forall i | 0 <= i < |es| ensures FixEndpoint(index, m, es[i]) == es[i] {
        if i < |es| - 1 { assert es[i] == es[..|es| - 1][i]; }
      }
    }
  }

  lemma {:induction false} SilentModules(index: SchemaTypeIndex, ms: seq<ApiModule>)
    requires IsSilent(index)
    ensures WrongInModules(index, ms) == []
    ensures forall i :: 0 <= i < |ms| ==> FixModule(index, ms[i]) == ms[i]
  {
    hide FixEndpoint, WrongInEndpoints;
    if ms != [] {
      SilentModules(index, ms[..|ms| - 1]);
      var m := ms[|ms| - 1];
      SilentEndpoints(index, m, m.endpoints);
      assert FixModule(index, m).endpoints == m.endpoints;
      forall i | 0 <= i < |ms| ensures FixModule(index, ms[i]) == ms[i] {
        if i < |ms| - 1 { assert ms[i] == ms[..|ms| - 1][i]; }
      }
    }
  }

  /** A schema without named tables changes nothing and reports nothing. */
  lemma SilentDesign(index: SchemaTypeIndex, d: ApiDesign)
    requires IsSilent(index)
    ensures FixDesign(index, d) == d && WrongInModules(index, d.modules) == []
  {
    hide FixModule;
    SilentModules(index, d.modules);
    assert FixModules(index, d.modules) == d.modules;
  }

  // ---------- agreement ----------

  /** Every field the schema speaks about has the schema's type. */
  predicate FieldsAgree(index: SchemaTypeIndex, fields: seq<SchemaField>, context: seq<string>) {
    forall i :: 0 <= i < |fields| ==>
      var resolved := ResolveFieldType(index, fields[i].name, context);
      resolved.Some? ==> fields[i].fieldType == resolved.value.typeName
  }

  predicate EndpointAgrees(index: SchemaTypeIndex, m: ApiModule, e: ApiEndpoint) {
    var context := ContextFor(index, m.basePath, m.Claims(), e.path);
    FieldsAgree(index, e.requestSchema, context) && FieldsAgree(index, e.responseSchema, context)
  }

  predicate Agrees(index: SchemaTypeIndex, d: ApiDesign) {
    forall i, j :: 0 <= i < |d.modules| && 0 <= j < |d.modules[i].endpoints| ==>
      EndpointAgrees(index, d.modules[i], d.modules[i].endpoints[j])
  }

  /** Equal but for the types of fields. */
  predicate SameButTypes(a: seq<SchemaField>, b: seq<SchemaField>) {
    |a| == |b| && forall i :: 0 <= i < |a| ==> a[i].name == b[i].name && a[i].required == b[i].required
  }

  predicate EndpointSameButTypes(a: ApiEndpoint, b: ApiEndpoint) {
    && a == b.(requestSchema := a.requestSchema, responseSchema := a.responseSchema)
    && SameButTypes(a.requestSchema, b.requestSchema) && SameButTypes(a.responseSchema, b.responseSchema)
  }

  predicate ModuleSameButTypes(a: ApiModule, b: ApiModule) {
    && a == b.(endpoints := a.endpoints) && |a.endpoints| == |b.endpoints|
    && forall i :: 0 <= i < |a.endpoints| ==> EndpointSameButTypes(a.endpoints[i], b.endpoints[i])
  }

  predicate DesignSameButTypes(a: ApiDesign, b: ApiDesign) {
    && a == b.(modules := a.modules) && |a.modules| == |b.modules|
    && forall i :: 0 <= i < |a.modules| ==> ModuleSameButTypes(a.modules[i], b.modules[i])
  }

  lemma FixedFieldsAgree(index: SchemaTypeIndex, fields: seq<SchemaField>, context: seq<string>)
    ensures FieldsAgree(index, FixFields(index, fields, context), context)
    ensures SameButTypes(FixFields(index, fields, context), fields)
  {
    hide ResolveFieldType;
  }

  /** After the pass every documented type is the schema's, and nothing but types moved. */
  lemma ReconciledAgrees(d: ApiDesign, db: DatabaseDesign, collate: (string, string) -> bool)
    ensures Agrees(IndexOf(db.entities), Reconciled(d, db, collate).design)
    ensures DesignSameButTypes(Reconciled(d, db, collate).design, d)
  {
    hide FixFields, FieldsAgree, SameButTypes, ContextFor, Sorted, Tally, WrongInModules;
    var index := IndexOf(db.entities);
    var r := FixDesign(index, d);
    forall i | 0 <= i < |d.modules|
      ensures ModuleSameButTypes(r.modules[i], d.modules[i])
      ensures forall j :: 0 <= j < |r.modules[i].endpoints| ==> EndpointAgrees(index, r.modules[i], r.modules[i].endpoints[j])
    {
      var m := d.modules[i];
      forall j | 0 <= j < |m.endpoints|
        ensures EndpointAgrees(index, m, FixEndpoint(index, m, m.endpoints[j]))
        ensures EndpointSameButTypes(FixEndpoint(index, m, m.endpoints[j]), m.endpoints[j])
      {
        var e := m.endpoints[j];
        var context := ContextFor(index, m.basePath, m.Claims(), e.path);
        FixedFieldsAgree(index, e.requestSchema, context);
        FixedFieldsAgree(index, e.responseSchema, context);
      }
    }
  }

  // ---------- a second run ----------

  lemma {:induction false} AgreeingFields(index: SchemaTypeIndex, fields: seq<SchemaField>, context: seq<string>)
    requires FieldsAgree(index, fields, context)
    ensures FixFields(index, fields, context) == fields && WrongFields(index, fields, context) == []
  {
    hide ResolveFieldType, TypeName;
    if fields != [] {
      AgreeingFields(index, fields[..|fields| - 1], context);
    }
  }

  lemma {:induction false} AgreeingEndpoints(index: SchemaTypeIndex, m: ApiModule, es: seq<ApiEndpoint>)
    requires forall j :: 0 <= j < |es| ==> EndpointAgrees(index, m, es[j])
    ensures WrongInEndpoints(index, m, es) == []
    ensures forall j :: 0 <= j < |es| ==> FixEndpoint(index, m, es[j]) == es[j]
  {
    hide FixFields, WrongFields, ContextFor, FieldsAgree;
    if es != [] {
      AgreeingEndpoints(index, m, es[..|es| - 1]);
      var e := es[|es| - 1];
      assert EndpointAgrees(index, m, e);
      var context := ContextFor(index, m.basePath, m.Claims(), e.path);
      AgreeingFields(index, e.requestSchema, context);
      AgreeingFields(index, e.responseSchema, context);
      forall j | 0 <= j < |es| ensures FixEndpoint(index, m, es[j]) == es[j] {
        if j < |es| - 1 { assert es[j] == es[..|es| - 1][j]; }
      }
    }
  }

  lemma {:induction false} AgreeingModules(index: SchemaTypeIndex, ms: seq<ApiModule>)
    requires forall i, j :: 0 <= i < |ms| && 0 <= j < |ms[i].endpoints| ==> EndpointAgrees(index, ms[i], ms[i].endpoints[j])
    ensures WrongInModules(index, ms) == [] && FixModules(index, ms) == ms
  {
    hide FixEndpoint, WrongInEndpoints, EndpointAgrees;
    if ms != [] {
      var front, m := ms[..|ms| - 1], ms[|ms| - 1];
      AgreeingModules(index, front);
      AgreeingEndpoints(index, m, m.endpoints);
      assert FixModule(index, m).endpoints == m.endpoints;
      forall i | 0 <= i < |ms| ensures FixModule(index, ms[i]) == ms[i] {
        if i < |ms| - 1 { assert ms[i] == front[i] && FixModules(index, front)[i] == front[i]; }
      }
    }
  }

  /** Running the pass on its own result changes nothing and reports nothing. */
  lemma ReconcilingTwice(d: ApiDesign, db: DatabaseDesign, collate: (string, string) -> bool)
    ensures var once := Reconciled(d, db, collate).design;
            Reconciled(once, db, collate) == FieldTypeReconciliation(once, [])
  {
    hide FixModules, WrongInModules, EndpointAgrees, DesignSameButTypes, IndexOf;
    ReconciledAgrees(d, db, collate);
    AgreeingModules(IndexOf(db.entities), Reconciled(d, db, collate).design.modules);
  }

  // ---------- the report accounts for every wrong field ----------

  function Occurrences(cs: seq<ApiTypeCorrection>): nat {
    if cs == [] then 0 else Occurrences(cs[..|cs| - 1]) + cs[|cs| - 1].occurrences
  }

  function TableOccurrences(t: Table<ApiTypeCorrection>): nat { Occurrences(ValuesOf(t)) }

  lemma {:induction false} OccurrencesUpdate(cs: seq<ApiTypeCorrection>, i: nat, c: ApiTypeCorrection)
    requires i < |cs|
    ensures Occurrences(cs[i := c]) == Occurrences(cs) - cs[i].occurrences + c.occurrences
  {
    var front := cs[..|cs| - 1];
    if i == |cs| - 1 {
      assert cs[i := c][..|cs| - 1] == front;
    } else {
      OccurrencesUpdate(front, i, c);
      assert cs[i := c][..|cs| - 1] == front[i := c];
    }
  }

  lemma TallyOneAddsOne(t: Table<ApiTypeCorrection>, c: ApiTypeCorrection)
    requires c.occurrences == 1
    ensures TableOccurrences(TallyOne(t, c)) == TableOccurrences(t) + 1
  {
    hide CorrectionKey;
    var p := Position(t, CorrectionKey(c));
    if p < |t| {
      var more := t[p].value.(occurrences := t[p].value.occurrences + 1);
      assert ValuesOf(TallyOne(t, c)) == ValuesOf(t)[p := more];
      OccurrencesUpdate(ValuesOf(t), p, more);
    } else {
      assert ValuesOf(TallyOne(t, c)) == ValuesOf(t) + [c];
      assert (ValuesOf(t) + [c])[..|t|] == ValuesOf(t);
    }
  }

  predicate AllSingle(cs: seq<ApiTypeCorrection>) {
    forall i :: 0 <= i < |cs| ==> cs[i].occurrences == 1
  }

  function Count(cs: seq<ApiTypeCorrection>, key: string): nat {
    if cs == [] then 0
    else Count(cs[..|cs| - 1], key) + (if CorrectionKey(cs[|cs| - 1]) == key then 1 else 0)
  }

  /** The entry of a key counts the wrong fields with that key, and its text has that key. */
  predicate Counts(t: Table<ApiTypeCorrection>, cs: seq<ApiTypeCorrection>) {
    && UniqueKeys(t)
    && (forall i :: 0 <= i < |t| ==> t[i].value.occurrences == Count(cs, t[i].key) && CorrectionKey(t[i].value) == t[i].key)
    && (forall i :: 0 <= i < |cs| ==> Has(t, CorrectionKey(cs[i])))
  }

  lemma {:induction false} AbsentCountsZero(cs: seq<ApiTypeCorrection>, key: string)
    requires forall i :: 0 <= i < |cs| ==> CorrectionKey(cs[i]) != key
    ensures Count(cs, key) == 0
  {
    hide CorrectionKey;
    if cs != [] {
      AbsentCountsZero(cs[..|cs| - 1], key);
    }
  }

  lemma SameKeyText(c: ApiTypeCorrection, n: nat)
    ensures CorrectionKey(c.(occurrences := n)) == CorrectionKey(c)
  {
  }

  lemma TallyOneCounts(t: Table<ApiTypeCorrection>, cs: seq<ApiTypeCorrection>, c: ApiTypeCorrection)
    requires Counts(t, cs) && c.occurrences == 1
    ensures Counts(TallyOne(t, c), cs + [c])
  {
    hide CorrectionKey;
    var key, after, all := CorrectionKey(c), TallyOne(t, c), cs + [c];
    var p := Position(t, key);
    assert all[..|all| - 1] == cs;
    assert UniqueKeys(after) && KeySet(after) == KeySet(t) + {key} by {
      PutKeepsKeys(t, key, after[p].value);
    }
    if p < |t| {
      SameKeyText(t[p].value, t[p].value.occurrences + 1);
    } else {
      forall i | 0 <= i < |cs| ensures CorrectionKey(cs[i]) != key {
        assert Has(t, CorrectionKey(cs[i]));
      }
      AbsentCountsZero(cs, key);
    }
    forall i | 0 <= i < |all| ensures Has(after, CorrectionKey(all[i])) {
      HasIff(after, CorrectionKey(all[i]));
      if i < |cs| { HasIff(t, CorrectionKey(cs[i])); }
    }
  }

  lemma {:induction false} TallyCounts(cs: seq<ApiTypeCorrection>)
    requires AllSingle(cs)
    ensures var t := Tally([], cs); Counts(t, cs) && TableOccurrences(t) == |cs|
  {
    hide TallyOne, Counts, TableOccurrences;
    if cs == [] {
      EmptyCounts();
    } else {
      var front, last := cs[..|cs| - 1], cs[|cs| - 1];
      TallyCounts(front);
      TallyOneCounts(Tally([], front), front, last);
      TallyOneAddsOne(Tally([], front), last);
      assert front + [last] == cs;
    }
  }

  lemma EmptyCounts()
    ensures Counts([], []) && TableOccurrences([]) == 0
  {
  }

  lemma {:induction false} InsertKeeps(sorted: seq<ApiTypeCorrection>, c: ApiTypeCorrection, collate: (string, string) -> bool)
    ensures var r := Insert(sorted, c, collate);
            multiset(r) == multiset(sorted) + multiset{c} && Occurrences(r) == Occurrences(sorted) + c.occurrences
  {
    hide Precedes;
    var r := Insert(sorted, c, collate);
    if sorted == [] {
      assert r[..0] == [];
    } else {
      var front, last := sorted[..|sorted| - 1], sorted[|sorted| - 1];
      assert sorted == front + [last];
      if Precedes(last, c, collate) {
        assert r[..|r| - 1] == sorted;
      } else {
        InsertKeeps(front, c, collate);
        assert r[..|r| - 1] == Insert(front, c, collate);
      }
    }
  }

  lemma {:induction false} SortedKeeps(cs: seq<ApiTypeCorrection>, collate: (string, string) -> bool)
    ensures var r := Sorted(cs, collate); multiset(r) == multiset(cs) && Occurrences(r) == Occurrences(cs)
  {
    hide Insert;
    if cs != [] {
      var front, last := cs[..|cs| - 1], cs[|cs| - 1];
      SortedKeeps(front, collate);
      InsertKeeps(Sorted(front, collate), last, collate);
      assert cs == front + [last];
    }
  }

  lemma {:induction false} WrongFieldsSingle(index: SchemaTypeIndex, fields: seq<SchemaField>, context: seq<string>)
    ensures AllSingle(WrongFields(index, fields, context))
  {
    hide IsWrong;
    if fields != [] {
      WrongFieldsSingle(index, fields[..|fields| - 1], context);
    }
  }

  lemma {:induction false} WrongInEndpointsSingle(index: SchemaTypeIndex, m: ApiModule, es: seq<ApiEndpoint>)
    ensures AllSingle(WrongInEndpoints(index, m, es))
  {
    hide WrongFields, ContextFor;
    if es != [] {
      WrongInEndpointsSingle(index, m, es[..|es| - 1]);
      var e := es[|es| - 1];
      var context := ContextFor(index, m.basePath, m.Claims(), e.path);
      WrongFieldsSingle(index, e.requestSchema, context);
      WrongFieldsSingle(index, e.responseSchema, context);
    }
  }

  lemma {:induction false} WrongInModulesSingle(index: SchemaTypeIndex, ms: seq<ApiModule>)
    ensures AllSingle(WrongInModules(index, ms))
  {
    hide WrongInEndpoints;
    if ms != [] {
      WrongInModulesSingle(index, ms[..|ms| - 1]);
      WrongInEndpointsSingle(index, ms[|ms| - 1], ms[|ms| - 1].endpoints);
    }
  }

  /** The occurrences in the report add up to the number of wrong fields in the design. */
  lemma ReportConservesCounts(d: ApiDesign, db: DatabaseDesign, collate: (string, string) -> bool)
    ensures Occurrences(Reconciled(d, db, collate).corrections) == |WrongInModules(IndexOf(db.entities), d.modules)|
  {
    hide WrongInModules, IndexOf, Counts, FixDesign, Tally, Sorted;
    var wrong := WrongInModules(IndexOf(db.entities), d.modules);
    WrongInModulesSingle(IndexOf(db.entities), d.modules);
    TallyCounts(wrong);
    SortedKeeps(ValuesOf(Tally([], wrong)), collate);
  }

  /** Each row of the report counts exactly the wrong fields it stands for. */
  lemma ReportCountsEachKind(d: ApiDesign, db: DatabaseDesign, collate: (string, string) -> bool, c: ApiTypeCorrection)
    requires c in Reconciled(d, db, collate).corrections
    ensures c.occurrences == Count(WrongInModules(IndexOf(db.entities), d.modules), CorrectionKey(c)) > 0
  {
    hide WrongInModules, IndexOf, FixDesign, Tally, Sorted, CorrectionKey, Count;
    var wrong := WrongInModules(IndexOf(db.entities), d.modules);
    WrongInModulesSingle(IndexOf(db.entities), d.modules);
    TallyCounts(wrong);
    var values := ValuesOf(Tally([], wrong));
    SortedKeeps(values, collate);
    assert c in multiset(Sorted(values, collate));
    assert c in values;
    TallyPositive(wrong);
  }

  predicate AllPositive(t: Table<ApiTypeCorrection>) {
    forall i :: 0 <= i < |t| ==> t[i].value.occurrences > 0
  }

  lemma {:induction false} TallyPositive(cs: seq<ApiTypeCorrection>)
    requires AllSingle(cs)
    ensures AllPositive(Tally([], cs))
  {
    hide CorrectionKey;
    if cs != [] {
      TallyPositive(cs[..|cs| - 1]);
      var t, c := Tally([], cs[..|cs| - 1]), cs[|cs| - 1];
      assert Tally([], cs) == TallyOne(t, c) && c.occurrences == 1;
    }
  }

  // ---------- the order of the report ----------

  /** A total, transitive "before or equal" on names. */
  ghost predicate IsCollation(collate: (string, string) -> bool) {
    && (forall a, b :: collate(a, b) || collate(b, a))
    && (forall a, b, c :: collate(a, b) && collate(b, c) ==> collate(a, c))
  }

  predicate InOrder(cs: seq<ApiTypeCorrection>, collate: (string, string) -> bool) {
    forall i, j :: 0 <= i < j < |cs| ==> Precedes(cs[i], cs[j], collate)
  }

  lemma PrecedesIsTotal(a: ApiTypeCorrection, b: ApiTypeCorrection, collate: (string, string) -> bool)
    requires IsCollation(collate) && !Precedes(a, b, collate)
    ensures Precedes(b, a, collate)
  {
  }

  lemma PrecedesIsTransitive(a: ApiTypeCorrection, b: ApiTypeCorrection, c: ApiTypeCorrection, collate: (string, string) -> bool)
    requires IsCollation(collate) && Precedes(a, b, collate) && Precedes(b, c, collate)
    ensures Precedes(a, c, collate)
  {
  }

  lemma SnocOrders(cs: seq<ApiTypeCorrection>, c: ApiTypeCorrection, collate: (string, string) -> bool)
    requires InOrder(cs, collate) && forall i :: 0 <= i < |cs| ==> Precedes(cs[i], c, collate)
    ensures InOrder(cs + [c], collate)
  {
    hide Precedes;
  }

  lemma {:induction false} InsertOrders(sorted: seq<ApiTypeCorrection>, c: ApiTypeCorrection, collate: (string, string) -> bool)
    requires IsCollation(collate) && InOrder(sorted, collate)
    ensures InOrder(Insert(sorted, c, collate), collate)
  {
    hide Precedes, IsCollation;
    if sorted != [] {
      var front, last := sorted[..|sorted| - 1], sorted[|sorted| - 1];
      if Precedes(last, c, collate) {
        forall i | 0 <= i < |sorted| ensures Precedes(sorted[i], c, collate) {
          if i < |sorted| - 1 { PrecedesIsTransitive(sorted[i], last, c, collate); }
        }
        SnocOrders(sorted, c, collate);
      } else {
        InsertOrders(front, c, collate);
        InsertKeeps(front, c, collate);
        PrecedesIsTotal(last, c, collate);
        var inner := Insert(front, c, collate);
        forall i | 0 <= i < |inner| ensures Precedes(inner[i], last, collate) {
          assert inner[i] in multiset(inner);
          if inner[i] != c {
            var k :| 0 <= k < |front| && front[k] == inner[i];
            assert sorted[k] == front[k];
          }
        }
        SnocOrders(inner, last, collate);
      }
    }
  }

  /** The report is sorted by occurrences, then by entity. */
  lemma SortedOrders(cs: seq<ApiTypeCorrection>, collate: (string, string) -> bool, i: nat, j: nat)
    requires IsCollation(collate)
    requires i < j < |Sorted(cs, collate)|
    ensures var a, b := Sorted(cs, collate)[i], Sorted(cs, collate)[j];
            if a.occurrences == b.occurrences then collate(a.entity, b.entity) else a.occurrences > b.occurrences
  {
    hide Sorted;
    SortedIsInOrder(cs, collate);
  }

  /** Rows of one count whose entities collate alike stay in the order they were found in. */
  lemma {:induction false} SortedKeepsTies(cs: seq<ApiTypeCorrection>, collate: (string, string) -> bool, count: nat, entity: string)
    requires IsCollation(collate)
    ensures var tied := (c: ApiTypeCorrection) => c.occurrences == count && collate(c.entity, entity) && collate(entity, c.entity);
            Kept(Sorted(cs, collate), tied) == Kept(cs, tied)
  {
    hide Insert;
    if cs != [] {
      var front, last := cs[..|cs| - 1], cs[|cs| - 1];
      SortedKeepsTies(front, collate, count, entity);
      var tied := (c: ApiTypeCorrection) => c.occurrences == count && collate(c.entity, entity) && collate(entity, c.entity);
      InsertKeepsTies(Sorted(front, collate), last, collate, count, entity);
      KeptSnoc(front, last, tied);
      assert cs == front + [last];
    }
  }

  lemma {:induction false} InsertKeepsTies(sorted: seq<ApiTypeCorrection>, c: ApiTypeCorrection, collate: (string, string) -> bool,
                                           count: nat, entity: string)
    requires IsCollation(collate)
    ensures var tied := (c: ApiTypeCorrection) => c.occurrences == count && collate(c.entity, entity) && collate(entity, c.entity);
            Kept(Insert(sorted, c, collate), tied) == Kept(sorted, tied) + (if tied(c) then [c] else [])
  {
    var tied := (c: ApiTypeCorrection) => c.occurrences == count && collate(c.entity, entity) && collate(entity, c.entity);
    KeptSnoc(sorted, c, tied);
    if sorted != [] && !Precedes(sorted[|sorted| - 1], c, collate) {
      var front, last := sorted[..|sorted| - 1], sorted[|sorted| - 1];
      InsertKeepsTies(front, c, collate, count, entity);
      KeptSnoc(front, last, tied);
      KeptSnoc(Insert(front, c, collate), last, tied);
      assert sorted == front + [last];
      assert !(tied(last) && tied(c));
    }
  }

  lemma {:induction false} SortedIsInOrder(cs: seq<ApiTypeCorrection>, collate: (string, string) -> bool)
    requires IsCollation(collate)
    ensures InOrder(Sorted(cs, collate), collate)
  {
    hide Precedes, IsCollation, Insert;
    if cs != [] {
      SortedIsInOrder(cs[..|cs| - 1], collate);
      InsertOrders(Sorted(cs[..|cs| - 1], collate), cs[|cs| - 1], collate);
    }
  }
}
