/** The report of the type pass, field by field. */
module TypeReport {
  import opened Text
  import opened Collections
  import opened Schema
  import opened FieldTypes
  import opened FieldReconcile
  import opened FieldGrounding
  import opened TypeVocabulary

  // ---------- the report of a design ----------

  /** The fields of an endpoint, in and out. */
  function FieldsOf(e: ApiEndpoint): seq<SchemaField> { e.requestSchema + e.responseSchema }

  /** What the schema says about a field of an endpoint of the group. */
  function SaysOf(es: seq<Entity>, m: ApiModule, e: ApiEndpoint, f: SchemaField): Option<ResolvedType> {
    SchemaSays(es, f.name, ContextFor(IndexOf(es), m.basePath, m.Claims(), e.path))
  }

  /** The field names a column of another type. */
  predicate Contradicts(es: seq<Entity>, m: ApiModule, e: ApiEndpoint, f: SchemaField) {
    SaysOf(es, m, e, f).Some? && !SameFieldType(f.fieldType, SaysOf(es, m, e, f).value.typeName)
  }

  /** The entry that stands for it. */
  function EntryOf(es: seq<Entity>, m: ApiModule, e: ApiEndpoint, f: SchemaField): ApiTypeCorrection
    requires SaysOf(es, m, e, f).Some?
  {
    var says := SaysOf(es, m, e, f).value;
    ApiTypeCorrection(says.entity, f.name, f.fieldType, says.typeName, 1)
  }

  lemma {:induction false} ListedFields(es: seq<Entity>, fields: seq<SchemaField>, context: seq<string>, x: ApiTypeCorrection)
    ensures x in WrongFields(IndexOf(es), fields, context) <==>
              exists f :: f in fields && SchemaSays(es, f.name, context).Some?
                          && !SameFieldType(f.fieldType, SchemaSays(es, f.name, context).value.typeName)
                          && x == ApiTypeCorrection(SchemaSays(es, f.name, context).value.entity, f.name, f.fieldType,
                                                    SchemaSays(es, f.name, context).value.typeName, 1)
  {
    hide IndexOf, SchemaSays, ResolveFieldType, TypeName;
    if fields != [] {
      var front, last := fields[..|fields| - 1], fields[|fields| - 1];
      ListedFields(es, front, context, x);
      ResolvingReadsTheSchema(es, last.name, context);
      assert fields == front + [last];
    }
  }

  lemma ListedInEndpoint(es: seq<Entity>, m: ApiModule, e: ApiEndpoint, x: ApiTypeCorrection)
    ensures x in WrongInEndpoint(IndexOf(es), m, e) <==> exists f :: f in FieldsOf(e) && Contradicts(es, m, e, f) && x == EntryOf(es, m, e, f)
  {
    hide IndexOf, SchemaSays, SameFieldType, ContextFor, WrongFields;
    var context := ContextFor(IndexOf(es), m.basePath, m.Claims(), e.path);
    ListedFields(es, e.requestSchema, context, x);
    ListedFields(es, e.responseSchema, context, x);
    forall f ensures f in FieldsOf(e) <==> f in e.requestSchema || f in e.responseSchema {
    }
    forall f ensures SaysOf(es, m, e, f) == SchemaSays(es, f.name, context) {
    }
  }

  lemma {:induction false} ListedInEndpoints(es: seq<Entity>, m: ApiModule, eps: seq<ApiEndpoint>, x: ApiTypeCorrection)
    ensures x in WrongInEndpoints(IndexOf(es), m, eps) <==>
              exists e, f :: e in eps && f in FieldsOf(e) && Contradicts(es, m, e, f) && x == EntryOf(es, m, e, f)
  {
    hide IndexOf, Contradicts, SaysOf, WrongInEndpoint, FieldsOf;
    if eps != [] {
      var front, last := eps[..|eps| - 1], eps[|eps| - 1];
      ListedInEndpoints(es, m, front, x);
      ListedInEndpoint(es, m, last, x);
      assert eps == front + [last];
    }
  }

  /** The field at some place of the design contradicts the schema, and `x` stands for it. */
  ghost predicate StandsFor(es: seq<Entity>, ms: seq<ApiModule>, x: ApiTypeCorrection) {
    exists m, e, f :: m in ms && e in m.endpoints && f in FieldsOf(e) && Contradicts(es, m, e, f) && x == EntryOf(es, m, e, f)
  }

  lemma {:induction false} ListedInModules(es: seq<Entity>, ms: seq<ApiModule>, x: ApiTypeCorrection)
    ensures x in WrongInModules(IndexOf(es), ms) <==> StandsFor(es, ms, x)
  {
    hide IndexOf, Contradicts, SaysOf, WrongInEndpoints, FieldsOf;
    if ms != [] {
      var front, last := ms[..|ms| - 1], ms[|ms| - 1];
      ListedInModules(es, front, x);
      ListedInEndpoints(es, last, last.endpoints, x);
      assert ms == front + [last];
    }
  }

  // ---------- its rows ----------

  /** The row is one of the entries, counted. */
  predicate IsCounted(c: ApiTypeCorrection, entries: seq<ApiTypeCorrection>) {
    exists i :: 0 <= i < |entries| && c == entries[i].(occurrences := c.occurrences)
  }

  lemma CountedLater(c: ApiTypeCorrection, entries: seq<ApiTypeCorrection>, last: ApiTypeCorrection)
    requires IsCounted(c, entries)
    ensures IsCounted(c, entries + [last]) && IsCounted(c.(occurrences := c.occurrences + 1), entries + [last])
  {
    var i :| 0 <= i < |entries| && c == entries[i].(occurrences := c.occurrences);
    assert (entries + [last])[i] == entries[i];
  }

  predicate AllCounted(t: Table<ApiTypeCorrection>, entries: seq<ApiTypeCorrection>) {
    forall i :: 0 <= i < |t| ==> IsCounted(t[i].value, entries)
  }

  lemma OneMoreCounted(t: Table<ApiTypeCorrection>, front: seq<ApiTypeCorrection>, last: ApiTypeCorrection)
    requires AllCounted(t, front)
    ensures AllCounted(TallyOne(t, last), front + [last])
  {
    hide CorrectionKey, IsCounted;
    NewIsCounted(front, last);
    forall i | 0 <= i < |t| ensures IsCounted(t[i].value, front + [last])
                            ensures IsCounted(t[i].value.(occurrences := t[i].value.occurrences + 1), front + [last]) {
      CountedLater(t[i].value, front, last);
    }
  }

  lemma {:induction false} RowsAreEntries(entries: seq<ApiTypeCorrection>)
    ensures AllCounted(Tally([], entries), entries)
  {
    hide TallyOne, AllCounted;
    if entries == [] {
      NothingCounted();
    } else {
      var front, last := entries[..|entries| - 1], entries[|entries| - 1];
      RowsAreEntries(front);
      OneMoreCounted(Tally([], front), front, last);
      assert entries == front + [last];
    }
  }

  lemma NothingCounted()
    ensures AllCounted([], [])
  {
  }

  lemma NewIsCounted(front: seq<ApiTypeCorrection>, last: ApiTypeCorrection)
    ensures IsCounted(last, front + [last])
  {
    assert (front + [last])[|front|] == last;
  }

  lemma RowsOf(d: ApiDesign, db: DatabaseDesign, collate: (string, string) -> bool)
    ensures var entries, rows := WrongInModules(IndexOf(db.entities), d.modules), Reconciled(d, db, collate).corrections;
            && (forall c :: c in rows ==> IsCounted(c, entries))
            && (forall x :: x in entries ==> exists c :: c in rows && CorrectionKey(c) == CorrectionKey(x))
  {
    hide WrongInModules, IndexOf, FixDesign, Tally, Sorted, CorrectionKey, IsCounted;
    var entries := WrongInModules(IndexOf(db.entities), d.modules);
    WrongInModulesSingle(IndexOf(db.entities), d.modules);
    TallyCounts(entries);
    RowsAreEntries(entries);
    var t := Tally([], entries);
    var values := ValuesOf(t);
    SortedKeeps(values, collate);
    forall c ensures c in Sorted(values, collate) <==> c in values {
      assert c in multiset(Sorted(values, collate)) <==> c in multiset(values);
    }
    forall x | x in entries ensures exists c :: c in values && CorrectionKey(c) == CorrectionKey(x) {
      var i :| 0 <= i < |entries| && entries[i] == x;
      assert values[Position(t, CorrectionKey(x))] in values;
    }
  }

  /** Every field that contradicts the schema is counted in a row of its table, name and both types; and when
      none does, nothing is reported. */
  lemma ContradictionIsReported(d: ApiDesign, db: DatabaseDesign, collate: (string, string) -> bool,
                                m: ApiModule, e: ApiEndpoint, f: SchemaField)
    requires m in d.modules && e in m.endpoints && f in FieldsOf(e) && Contradicts(db.entities, m, e, f)
    ensures var says := SaysOf(db.entities, m, e, f).value;
            exists c :: c in Reconciled(d, db, collate).corrections && c.occurrences > 0
                        && CorrectionKey(c) == says.entity + "|" + f.name + "|" + f.fieldType + "|" + says.typeName
  {
    hide Reconciled, WrongInModules, IndexOf, Contradicts, SaysOf, FieldsOf, IsCounted;
    ContradictionHasEntry(db.entities, m, e, f);
    var x := EntryOf(db.entities, m, e, f);
    assert StandsFor(db.entities, d.modules, x);
    ListedInModules(db.entities, d.modules, x);
    RowsOf(d, db, collate);
    var c :| c in Reconciled(d, db, collate).corrections && CorrectionKey(c) == CorrectionKey(x);
    ReportCountsEachKind(d, db, collate, c);
  }

  lemma ContradictionHasEntry(es: seq<Entity>, m: ApiModule, e: ApiEndpoint, f: SchemaField)
    requires Contradicts(es, m, e, f)
    ensures SaysOf(es, m, e, f).Some?
  {
  }

  /** The report is empty exactly when no field contradicts the schema. */
  lemma NothingReportedIff(d: ApiDesign, db: DatabaseDesign, collate: (string, string) -> bool)
    ensures Reconciled(d, db, collate).corrections == [] <==>
              forall m, e, f :: m in d.modules && e in m.endpoints && f in FieldsOf(e) ==> !Contradicts(db.entities, m, e, f)
  {
    hide Reconciled, WrongInModules, IndexOf, Contradicts, SaysOf, FieldsOf;
    var rows, entries := Reconciled(d, db, collate).corrections, WrongInModules(IndexOf(db.entities), d.modules);
    RowsOf(d, db, collate);
    if rows != [] {
      assert rows[0] in rows;
      var i :| 0 <= i < |entries| && rows[0] == entries[i].(occurrences := rows[0].occurrences);
      ListedInModules(db.entities, d.modules, entries[i]);
    }
    forall m, e, f | m in d.modules && e in m.endpoints && f in FieldsOf(e) && Contradicts(db.entities, m, e, f) ensures rows != [] {
      ContradictionIsReported(d, db, collate, m, e, f);
    }
  }

  // ---------- with nothing to mistake for a separator ----------

  predicate HasNoBar(c: ApiTypeCorrection) {
    '|' !in c.entity && '|' !in c.field && '|' !in c.from && '|' !in c.to
  }

  /** Nothing that is reported contains the separator of the keys. */
  ghost predicate ReportsNoBar(es: seq<Entity>, ms: seq<ApiModule>) {
    forall x :: StandsFor(es, ms, x) ==> HasNoBar(x)
  }

  lemma KeyParts(c: ApiTypeCorrection)
    requires HasNoBar(c)
    ensures Split(CorrectionKey(c), '|') == [c.entity, c.field, c.from, c.to]
  {
    hide Split;
    var last := c.from + ['|'] + c.to;
    SplitNone(c.to, '|');
    SplitPrefix(c.from, '|', c.to);
    SplitPrefix(c.field, '|', last);
    SplitPrefix(c.entity, '|', c.field + ['|'] + last);
    assert CorrectionKey(c) == c.entity + ['|'] + (c.field + ['|'] + last);
    assert last == c.from + ['|'] + c.to;
  }

  /** Then the row tells exactly the table, the field, the documented and the actual type. */
  lemma RowTellsBothTypes(d: ApiDesign, db: DatabaseDesign, collate: (string, string) -> bool,
                          m: ApiModule, e: ApiEndpoint, f: SchemaField)
    requires ReportsNoBar(db.entities, d.modules)
    requires m in d.modules && e in m.endpoints && f in FieldsOf(e) && Contradicts(db.entities, m, e, f)
    ensures var says := SaysOf(db.entities, m, e, f).value;
            exists c :: c in Reconciled(d, db, collate).corrections && c.occurrences > 0
                        && c.entity == says.entity && c.field == f.name && c.from == f.fieldType && c.to == says.typeName
  {
    hide Reconciled, WrongInModules, IndexOf, Contradicts, SaysOf, FieldsOf, CorrectionKey;
    ContradictionHasEntry(db.entities, m, e, f);
    var x, entries := EntryOf(db.entities, m, e, f), WrongInModules(IndexOf(db.entities), d.modules);
    assert StandsFor(db.entities, d.modules, x);
    ListedInModules(db.entities, d.modules, x);
    RowsOf(d, db, collate);
    var c :| c in Reconciled(d, db, collate).corrections && CorrectionKey(c) == CorrectionKey(x);
    ReportCountsEachKind(d, db, collate, c);
    var i :| 0 <= i < |entries| && c == entries[i].(occurrences := c.occurrences);
    ListedInModules(db.entities, d.modules, entries[i]);
    KeyParts(x);
    KeyParts(c);
  }

  /** Between words of the vocabulary a field contradicts the schema exactly when the words differ. */
  lemma WordsContradictIff(es: seq<Entity>, m: ApiModule, e: ApiEndpoint, f: SchemaField, v: Word, w: Word)
    requires SaysOf(es, m, e, f).Some? && IsWord(f.fieldType, v) && IsWord(SaysOf(es, m, e, f).value.typeName, w)
    ensures Contradicts(es, m, e, f) <==> v != w
  {
    hide SaysOf, SameFieldType, IsWord;
    WordsDecide(f.fieldType, SaysOf(es, m, e, f).value.typeName, v, w);
  }
}
