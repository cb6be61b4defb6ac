/** Making every documented field type agree with the database column it names. */
module FieldTypes {
  import opened Text
  import opened Collections
  import opened Schema

  // ---------- the index ----------

  /** `order` lists the entity keys as first inserted. */
  datatype SchemaTypeIndex = SchemaTypeIndex(
    order: seq<string>,
    columns: map<string, map<string, Column>>,
    primaryKey: map<string, string>,
    displayName: map<string, string>,
    byNoun: map<string, string>)

  const EMPTY_INDEX := SchemaTypeIndex([], map[], map[], map[], map[])

  function ColumnsByName(columns: seq<Column>): map<string, Column> {
    if columns == [] then map[]
    else
      var before, last := ColumnsByName(columns[..|columns| - 1]), columns[|columns| - 1];
      if last.name == "" then before else before[Fold(last.name) := last]
  }

  function PrimaryKeyColumn(columns: seq<Column>): Option<Column> {
    var marked := FindColumn(columns, (c: Column) => c.primaryKey);
    if marked.Some? then marked else FindColumn(columns, (c: Column) => Fold(c.name) == "id")
  }

  function IndexEntity(index: SchemaTypeIndex, e: Entity): SchemaTypeIndex {
    var name := Trim(e.name);
    if name == "" then index
    else
      var key, pk := Lower(name), PrimaryKeyColumn(e.columns);
      SchemaTypeIndex(
        AddNew(index.order, key),
        index.columns[key := ColumnsByName(e.columns)],
        if pk.Some? && pk.value.columnType != "" then index.primaryKey[key := Trim(pk.value.columnType)] else index.primaryKey,
        index.displayName[key := name],
        index.byNoun[key := key][SingularNoun(key) := key])
  }

  function IndexOf(entities: seq<Entity>): SchemaTypeIndex {
    if entities == [] then EMPTY_INDEX
    else IndexEntity(IndexOf(entities[..|entities| - 1]), entities[|entities| - 1])
  }

  method BuildSchemaTypeIndex(db: DatabaseDesign) returns (index: SchemaTypeIndex)
    ensures index == IndexOf(db.entities)
  {
    hide Trim, Lower, SingularNoun, PrimaryKeyColumn, Fold;
    var entities := db.entities;
    index := EMPTY_INDEX;
    for i := 0 to |entities|
      invariant index == IndexOf(entities[..i])
    {
      assert entities[..i + 1][..i] == entities[..i];
      var name := Trim(entities[i].name);
      if name == "" {
        continue;
      }
      var key, columns := Lower(name), entities[i].columns;
      var byName: map<string, Column> := map[];
      for j := 0 to |columns|
        invariant byName == ColumnsByName(columns[..j])
      {
        assert columns[..j + 1][..j] == columns[..j];
        if columns[j].name != "" {
          byName := byName[Fold(columns[j].name) := columns[j]];
        }
      }
      assert columns[..|columns|] == columns;
      var pk := PrimaryKeyColumn(columns);
      var primaryKey := index.primaryKey;
      if pk.Some? && pk.value.columnType != "" {
        primaryKey := primaryKey[key := Trim(pk.value.columnType)];
      }
      index := SchemaTypeIndex(AddNew(index.order, key), index.columns[key := byName], primaryKey,
                               index.displayName[key := name], index.byNoun[key := key][SingularNoun(key) := key]);
    }
    assert entities[..|entities|] == entities;
  }

  // ---------- resolving one field ----------

  datatype ResolvedType = ResolvedType(entity: string, typeName: string)

  function EntityForNoun(index: SchemaTypeIndex, noun: string): Option<string> {
    var clean := Fold(noun);
    if clean in index.byNoun then Some(index.byNoun[clean])
    else if SingularNoun(clean) in index.byNoun then Some(index.byNoun[SingularNoun(clean)])
    else None
  }

  function Shown(index: SchemaTypeIndex, entity: string): string {
    if entity in index.displayName then index.displayName[entity] else entity
  }

  /** An exact column of one of the context entities. */
  function ColumnType(index: SchemaTypeIndex, name: string, context: seq<string>): Option<ResolvedType> {
    if context == [] then None
    else if context[0] in index.columns && name in index.columns[context[0]]
            && index.columns[context[0]][name].columnType != "" then
      Some(ResolvedType(Shown(index, context[0]), Trim(index.columns[context[0]][name].columnType)))
    else ColumnType(index, name, context[1..])
  }

  function KeyOf(index: SchemaTypeIndex, entity: string): Option<ResolvedType> {
    if entity in index.primaryKey && index.primaryKey[entity] != "" then
      Some(ResolvedType(Shown(index, entity), index.primaryKey[entity]))
    else None
  }

  /** The primary key of the first context entity that has one. */
  function OwnKeyType(index: SchemaTypeIndex, context: seq<string>): Option<ResolvedType> {
    if context == [] then None
    else if KeyOf(index, context[0]).Some? then KeyOf(index, context[0])
    else OwnKeyType(index, context[1..])
  }

  predicate IsLineEnd(c: char) {
    c == '\n' || c == '\r' || c == '\U{2028}' || c == '\U{2029}'
  }

  predicate OneLine(s: string) { forall i :: 0 <= i < |s| ==> !IsLineEnd(s[i]) }

  /** The noun of a `<noun>_id` name. */
  function KeyNoun(name: string): Option<string> {
    if |name| >= 4 && EndsWith(name, "_id") && OneLine(name[..|name| - 3]) then Some(name[..|name| - 3]) else None
  }

  /** The database's type for one API field, or nothing when the schema is silent. */
  function ResolveFieldType(index: SchemaTypeIndex, fieldName: string, context: seq<string>): Option<ResolvedType> {
    var name := Fold(fieldName);
    if name == "" || EndsWith(name, "_ids") then None
    else
      var column := ColumnType(index, name, context);
      if column.Some? then column
      else if name == "id" then OwnKeyType(index, context)
      else
        match KeyNoun(name)
        case None => None
        case Some(noun) =>
          match EntityForNoun(index, noun)
          case None => None
          case Some(target) => KeyOf(index, target)
  }

  // ---------- the entities an endpoint is about ----------

  function Underscored(s: string): string {
    seq(|s|, i requires 0 <= i < |s| => if s[i] == '-' then '_' else s[i])
  }

  /** Entity-shaped segments, the last one first. */
  function PathContext(index: SchemaTypeIndex, segments: seq<string>): seq<string> {
    if segments == [] then []
    else
      var before, last := PathContext(index, segments[..|segments| - 1]), segments[|segments| - 1];
      if last == "" || last[0] == ':' || Lower(last) == "api" then before
      else
        match EntityForNoun(index, Underscored(last))
        case None => before
        case Some(entity) => [entity] + before
  }

  function CoveredContext(index: SchemaTypeIndex, covered: seq<string>): seq<string> {
    if covered == [] then []
    else
      var entity := Fold(covered[0]);
      (if entity != "" && entity in index.columns then [entity] else []) + CoveredContext(index, covered[1..])
  }

  predicate IsAuthPath(basePath: string) {
    exists i :: 0 <= i < |Split(basePath, '/')| && Lower(Split(basePath, '/')[i]) == "auth"
  }

  function FirstUsers(keys: seq<string>): seq<string> {
    if keys == [] then []
    else if Lower(keys[0]) in ["user", "users", "account", "accounts"] then [keys[0]]
    else FirstUsers(keys[1..])
  }

  function ContextFor(index: SchemaTypeIndex, basePath: string, covered: seq<string>, path: string): seq<string> {
    var context := Distinct(PathContext(index, Split(path, '/')) + CoveredContext(index, covered));
    if context != [] then context
    else if IsAuthPath(basePath) then FirstUsers(index.order)
    else []
  }

  // ---------- comparing type names ----------

  /** Drops everything from the first parenthesis that no line end follows. */
  function CutParenthesis(s: string): string {
    if s == "" then ""
    else if s[0] == '(' && OneLine(s) then ""
    else [s[0]] + CutParenthesis(s[1..])
  }

  /** Drops a last word and the white space before it. */
  function DropLastWord(s: Option<string>, word: string): Option<string> {
    match s
    case None => None
    case Some(text) =>
      if EndsWith(text, word) && |text| > |word| && IsSpace(text[|text| - |word| - 1]) then
        Some(TrimEnd(text[..|text| - |word|]))
      else None
  }

  function DropTimeZone(s: string): string {
    DropLastWord(DropLastWord(DropLastWord(Some(s), "zone"), "time"), "with").GetOr(s)
  }

  const TYPE_ALIASES: map<string, string> := map[
    "varchar" := "string", "char" := "string", "text" := "string", "str" := "string",
    "int" := "integer", "int4" := "integer", "int8" := "integer", "bigint" := "integer",
    "smallint" := "integer", "serial" := "integer", "bigserial" := "integer",
    "number" := "decimal", "numeric" := "decimal", "float" := "decimal", "double" := "decimal", "money" := "decimal",
    "bool" := "boolean", "datetime" := "timestamp", "timestamptz" := "timestamp",
    "jsonb" := "json", "guid" := "uuid"]

  function TypeName(typeName: string): string {
    var base := Trim(DropTimeZone(CutParenthesis(Fold(typeName))));
    if base in TYPE_ALIASES then TYPE_ALIASES[base] else base
  }

  /** Two spellings of one type. */
  predicate SameFieldType(a: string, b: string) {
    TypeName(a) == TypeName(b)
  }

  // ---------- rewriting ----------

  function FixField(index: SchemaTypeIndex, f: SchemaField, context: seq<string>): SchemaField {
    match ResolveFieldType(index, f.name, context)
    case None => f
    case Some(resolved) => f.(fieldType := resolved.typeName)
  }

  function FixFields(index: SchemaTypeIndex, fields: seq<SchemaField>, context: seq<string>): (r: seq<SchemaField>)
    ensures |r| == |fields| && forall i :: 0 <= i < |fields| ==> r[i] == FixField(index, fields[i], context)
  {
    seq(|fields|, i requires 0 <= i < |fields| => FixField(index, fields[i], context))
  }

  function FixEndpoint(index: SchemaTypeIndex, m: ApiModule, e: ApiEndpoint): ApiEndpoint {
    var context := ContextFor(index, m.basePath, m.Claims(), e.path);
    e.(requestSchema := FixFields(index, e.requestSchema, context),
       responseSchema := FixFields(index, e.responseSchema, context))
  }

  function FixModule(index: SchemaTypeIndex, m: ApiModule): ApiModule {
    m.(endpoints := seq(|m.endpoints|, i requires 0 <= i < |m.endpoints| => FixEndpoint(index, m, m.endpoints[i])))
  }

  function FixModules(index: SchemaTypeIndex, ms: seq<ApiModule>): (r: seq<ApiModule>)
    ensures |r| == |ms| && forall i :: 0 <= i < |ms| ==> r[i] == FixModule(index, ms[i])
  {
    seq(|ms|, i requires 0 <= i < |ms| => FixModule(index, ms[i]))
  }

  function FixDesign(index: SchemaTypeIndex, d: ApiDesign): ApiDesign {
    d.(modules := FixModules(index, d.modules))
  }

  // ---------- the report ----------

  datatype ApiTypeCorrection = ApiTypeCorrection(entity: string, field: string, from: string, to: string, occurrences: nat)

  function CorrectionKey(c: ApiTypeCorrection): string {
    c.entity + "|" + c.field + "|" + c.from + "|" + c.to
  }

  /** The field names a column and says something else. */
  predicate IsWrong(index: SchemaTypeIndex, f: SchemaField, context: seq<string>) {
    var resolved := ResolveFieldType(index, f.name, context);
    resolved.Some? && !SameFieldType(f.fieldType, resolved.value.typeName)
  }

  /** The entry a field contributes, if it is wrong. */
  function WrongField(index: SchemaTypeIndex, f: SchemaField, context: seq<string>): seq<ApiTypeCorrection> {
    if IsWrong(index, f, context) then
      var resolved := ResolveFieldType(index, f.name, context).value;
      [ApiTypeCorrection(resolved.entity, f.name, f.fieldType, resolved.typeName, 1)]
    else []
  }

  function WrongFields(index: SchemaTypeIndex, fields: seq<SchemaField>, context: seq<string>): seq<ApiTypeCorrection> {
    if fields == [] then []
    else WrongFields(index, fields[..|fields| - 1], context) + WrongField(index, fields[|fields| - 1], context)
  }

  function WrongInEndpoint(index: SchemaTypeIndex, m: ApiModule, e: ApiEndpoint): seq<ApiTypeCorrection> {
    var context := ContextFor(index, m.basePath, m.Claims(), e.path);
    WrongFields(index, e.requestSchema, context) + WrongFields(index, e.responseSchema, context)
  }

  function WrongInEndpoints(index: SchemaTypeIndex, m: ApiModule, es: seq<ApiEndpoint>): seq<ApiTypeCorrection> {
    if es == [] then []
    else WrongInEndpoints(index, m, es[..|es| - 1]) + WrongInEndpoint(index, m, es[|es| - 1])
  }

  /** One entry for each wrong field of the design, in order. */
  function WrongInModules(index: SchemaTypeIndex, ms: seq<ApiModule>): seq<ApiTypeCorrection> {
    if ms == [] then []
    else WrongInModules(index, ms[..|ms| - 1]) + WrongInEndpoints(index, ms[|ms| - 1], ms[|ms| - 1].endpoints)
  }

  function TallyOne(t: Table<ApiTypeCorrection>, c: ApiTypeCorrection): Table<ApiTypeCorrection> {
    var key := CorrectionKey(c);
    var p := Position(t, key);
    if p < |t| then Put(t, key, t[p].value.(occurrences := t[p].value.occurrences + 1)) else Put(t, key, c)
  }

  function Tally(t: Table<ApiTypeCorrection>, cs: seq<ApiTypeCorrection>): Table<ApiTypeCorrection> {
    if cs == [] then t else TallyOne(Tally(t, cs[..|cs| - 1]), cs[|cs| - 1])
  }

  function ValuesOf(t: Table<ApiTypeCorrection>): (r: seq<ApiTypeCorrection>)
    ensures |r| == |t| && forall i :: 0 <= i < |t| ==> r[i] == t[i].value
  {
    seq(|t|, i requires 0 <= i < |t| => t[i].value)
  }

  /** More occurrences first; ties by entity, under the reader's collation `collate`. */
  predicate Precedes(a: ApiTypeCorrection, b: ApiTypeCorrection, collate: (string, string) -> bool) {
    a.occurrences > b.occurrences || (a.occurrences == b.occurrences && collate(a.entity, b.entity))
  }

  function Insert(sorted: seq<ApiTypeCorrection>, c: ApiTypeCorrection, collate: (string, string) -> bool): seq<ApiTypeCorrection> {
    if sorted == [] then [c]
    else if Precedes(sorted[|sorted| - 1], c, collate) then sorted + [c]
    else Insert(sorted[..|sorted| - 1], c, collate) + [sorted[|sorted| - 1]]
  }

  function Sorted(cs: seq<ApiTypeCorrection>, collate: (string, string) -> bool): seq<ApiTypeCorrection> {
    if cs == [] then [] else Insert(Sorted(cs[..|cs| - 1], collate), cs[|cs| - 1], collate)
  }

  datatype FieldTypeReconciliation = FieldTypeReconciliation(design: ApiDesign, corrections: seq<ApiTypeCorrection>)

  function Reconciled(d: ApiDesign, db: DatabaseDesign, collate: (string, string) -> bool): FieldTypeReconciliation {
    var index := IndexOf(db.entities);
    FieldTypeReconciliation(FixDesign(index, d), Sorted(ValuesOf(Tally([], WrongInModules(index, d.modules))), collate))
  }
}
