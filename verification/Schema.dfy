/** The artifacts: a database design, and the API design generated beside it. */
module Schema {
  import opened Collections

  // ---------- database design ----------

  datatype Reference = Reference(entity: string, column: string)

  /** An absent flag reads as `false`. */
  datatype Column = Column(
    name: string,
    columnType: string,
    nullable: bool,
    primaryKey: bool,
    unique: bool,
    references: Option<Reference>)

  datatype Entity = Entity(name: string, description: string, columns: seq<Column>)

  datatype RelationType = OneToOne | OneToMany | ManyToMany

  datatype Relation = Relation(from: string, to: string, kind: RelationType, description: string)

  datatype DatabaseDesign = DatabaseDesign(
    databaseType: string,
    entities: seq<Entity>,
    relations: seq<Relation>)

  // ---------- API design ----------

  datatype HttpMethod = GET | POST | PUT | PATCH | DELETE

  datatype SchemaField = SchemaField(name: string, fieldType: string, required: bool)

  datatype ApiEndpoint = ApiEndpoint(
    verb: HttpMethod,
    path: string,
    summary: string,
    requestSchema: seq<SchemaField>,
    responseSchema: seq<SchemaField>,
    statusCodes: seq<int>)

  datatype ModuleSource = Llm | LlmRepair | GeneratedFallback

  datatype ApiModule = ApiModule(
    name: string,
    basePath: string,
    endpoints: seq<ApiEndpoint>,
    coveredEntities: Option<seq<string>>,
    source: Option<ModuleSource>)
  {
    /** A missing list reads as empty. */
    function Claims(): seq<string> { coveredEntities.GetOr([]) }
  }

  datatype ExcludedEntity = ExcludedEntity(entity: string, reason: string)

  datatype ApiDesign = ApiDesign(
    sessionId: string,
    generatedAt: string,
    modules: seq<ApiModule>,
    excludedEntities: Option<seq<ExcludedEntity>>)
  {
    function Exclusions(): seq<ExcludedEntity> { excludedEntities.GetOr([]) }
  }

  function EntityNames(db: DatabaseDesign): seq<string> {
    seq(|db.entities|, i requires 0 <= i < |db.entities| => db.entities[i].name)
  }

  /** An empty list is stored as no list at all. */
  function Listed<T>(s: seq<T>): Option<seq<T>> {
    if s == [] then None else Some(s)
  }

  /** The first column satisfying `p`. */
  function FindColumn(columns: seq<Column>, p: Column -> bool): (r: Option<Column>)
    ensures r.Some? ==> r.value in columns && p(r.value)
    ensures r.None? ==> forall i :: 0 <= i < |columns| ==> !p(columns[i])
  {
    if columns == [] then None
    else if p(columns[0]) then Some(columns[0])
    else FindColumn(columns[1..], p)
  }
}
