/** When the type repair leaves a deterministic build alone. */
module BuildTypes {
  import opened Text
  import opened Collections
  import opened Schema
  import opened FieldTypes
  import opened FieldReconcile
  import opened FieldGrounding
  import opened RestApi
  import opened RestPartition
  import opened RestWrites
  import opened RoleRepair
  import opened ListQuery
  import opened GroupReach
  import opened RoleReach

  // ---------- one field, one endpoint ----------

  /** The schema says nothing about the field, or says its very type. */
  predicate Fits(es: seq<Entity>, f: SchemaField, context: seq<string>) {
    var says := SchemaSays(es, f.name, context);
    says.Some? ==> f.fieldType == says.value.typeName
  }

  predicate AllFit(es: seq<Entity>, fields: seq<SchemaField>, context: seq<string>) {
    forall i :: 0 <= i < |fields| ==> Fits(es, fields[i], context)
  }

  lemma AgreeIffFit(es: seq<Entity>, fields: seq<SchemaField>, context: seq<string>)
    ensures FieldsAgree(IndexOf(es), fields, context) <==> AllFit(es, fields, context)
  {
    hide IndexOf, ResolveFieldType, SchemaSays;
    forall i | 0 <= i < |fields|
      ensures ResolveFieldType(IndexOf(es), fields[i].name, context) == SchemaSays(es, fields[i].name, context)
    {
      ResolvingReadsTheSchema(es, fields[i].name, context);
    }
  }

  /** The tables an endpoint of this table's group is about. */
  function About(es: seq<Entity>, key: string, path: string): seq<string> {
    ContextFor(IndexOf(es), BasePath(key), [key], path)
  }

  predicate EndpointFits(es: seq<Entity>, key: string, e: ApiEndpoint) {
    var context := About(es, key, e.path);
    AllFit(es, e.requestSchema, context) && AllFit(es, e.responseSchema, context)
  }

  // ---------- read off the schema ----------

  /** A table in its own group: its columns and its list filters. */
  predicate OwnFits(es: seq<Entity>, e: Entity, demand: ListQueryDemand) {
    var context := About(es, e.name, BasePath(e.name));
    AllFit(es, QueryParams(e, demand), context) && AllFit(es, ResponseFields(e.columns), context)
  }

  /** A junction in its parent's group: its columns. */
  predicate NestedFits(es: seq<Entity>, e: Entity, parent: string) {
    AllFit(es, ResponseFields(e.columns), About(es, parent, NestedPath(parent, e.name)))
  }

  /** A child collection in its parent's group: its columns and its list filters, but the parent's key. */
  predicate ChildFits(es: seq<Entity>, e: Entity, parent: string, demand: ListQueryDemand) {
    var context := About(es, parent, NestedPath(parent, e.name));
    && AllFit(es, FieldsExcept(QueryParams(e, demand), ParentKey(e, parent)), context)
    && AllFit(es, ResponseFields(e.columns), context)
  }

  function Misfit(es: seq<Entity>): Mark { (key, e) => !EndpointFits(es, key, e) }

  function Misfits(es: seq<Entity>, qs: Option<QueryScope>): Sources {
    Sources(e => !OwnFits(es, e, DemandFor(qs, e)),
            (e, parent) => !NestedFits(es, e, parent),
            (e, parent) => !ChildFits(es, e, parent, DemandFor(qs, e)))
  }

  // ---------- the blocks of endpoints ----------

  lemma {:induction false} SplitSnoc(s: string, last: string)
    requires '/' !in last
    ensures Split(s + ['/'] + last, '/') == Split(s, '/') + [last]
  {
    var t := s + ['/'] + last;
    if s == "" {
      assert t[1..] == last;
      SplitNone(last, '/');
    } else {
      assert t[1..] == s[1..] + ['/'] + last;
      SplitSnoc(s[1..], last);
    }
  }

  /** A parameter at the end of a path names no table. */
  lemma ParamIsIgnored(es: seq<Entity>, key: string, name: string)
    ensures About(es, key, ItemPath(name)) == About(es, key, BasePath(name))
  {
    hide IndexOf, Split, EntityForNoun, CoveredContext, FirstUsers, IsAuthPath, Distinct;
    var segments, id := Split(BasePath(name), '/'), ":id";
    assert ItemPath(name) == BasePath(name) + ['/'] + id;
    SplitSnoc(BasePath(name), id);
    var all := segments + [id];
    assert all[..|all| - 1] == segments && all[|all| - 1] == id;
    assert PathContext(IndexOf(es), all) == PathContext(IndexOf(es), segments);
  }

  lemma WritesFit(es: seq<Entity>, columns: seq<Column>, except: Option<string>, context: seq<string>)
    requires AllFit(es, ResponseFields(columns), context)
    ensures AllFit(es, WritableFields(columns, except), context)
  {
    hide Fits, IsServerManaged;
    WritableFieldsExact(columns, except);
    var fields := WritableFields(columns, except);
    forall i | 0 <= i < |fields| ensures Fits(es, fields[i], context) {
      assert fields[i] in fields;
      var c :| c in columns && fields[i] == FieldOf(c);
      var j :| 0 <= j < |columns| && columns[j] == c;
      assert ResponseFields(columns)[j] == fields[i];
    }
  }

  lemma NothingToFit(es: seq<Entity>, context: seq<string>)
    ensures AllFit(es, [], context)
  {
  }

  lemma EntityFits(es: seq<Entity>, e: Entity, demand: ListQueryDemand)
    ensures HasMark(Misfit(es), e.name, EntityEndpoints(e, demand)) <==> !OwnFits(es, e, demand)
  {
    hide AllFit, About, QueryParams, WritableFields, ResponseFields, BasePath, ItemPath, Singular;
    var endpoints, context := EntityEndpoints(e, demand), About(es, e.name, BasePath(e.name));
    ParamIsIgnored(es, e.name, e.name);
    NothingToFit(es, context);
    if OwnFits(es, e, demand) {
      WritesFit(es, e.columns, None, context);
      forall i | 0 <= i < |endpoints| ensures EndpointFits(es, e.name, endpoints[i]) {
      }
    } else {
      assert !EndpointFits(es, e.name, endpoints[0]);
      assert Misfit(es)(e.name, endpoints[0]);
    }
  }

  lemma JunctionFits(es: seq<Entity>, e: Entity, parent: string)
    ensures HasMark(Misfit(es), parent, JunctionEndpoints(e, parent)) <==> !NestedFits(es, e, parent)
  {
    hide AllFit, About, WritableFields, ResponseFields, NestedPath, Singular, OtherSide, LinkColumn, ParentKey;
    var endpoints, context := JunctionEndpoints(e, parent), About(es, parent, NestedPath(parent, e.name));
    NothingToFit(es, context);
    NothingToFit(es, About(es, parent, endpoints[2].path));
    if NestedFits(es, e, parent) {
      WritesFit(es, e.columns, ParentKey(e, parent), context);
      forall i | 0 <= i < |endpoints| ensures EndpointFits(es, parent, endpoints[i]) {
      }
    } else {
      assert !EndpointFits(es, parent, endpoints[0]);
      assert Misfit(es)(parent, endpoints[0]);
    }
  }

  lemma ChildCollectionFits(es: seq<Entity>, e: Entity, parent: string, demand: ListQueryDemand)
    ensures HasMark(Misfit(es), parent, [ChildCollectionEndpoint(e, parent, demand)]) <==> !ChildFits(es, e, parent, demand)
  {
    hide AllFit, About, QueryParams, FieldsExcept, ResponseFields, NestedPath, Singular, ParentKey;
    var child := [ChildCollectionEndpoint(e, parent, demand)];
    assert EndpointFits(es, parent, child[0]) <==> ChildFits(es, e, parent, demand);
    assert Misfit(es)(parent, child[0]) <==> !EndpointFits(es, parent, child[0]);
  }

  lemma MisfitsExplained(es: seq<Entity>, qs: Option<QueryScope>)
    ensures Explains(Misfits(es, qs), Misfit(es), qs)
  {
    hide HasMark, OwnFits, NestedFits, ChildFits, EntityEndpoints, JunctionEndpoints, ChildCollectionEndpoint, DemandFor, Misfit;
    var sources := Misfits(es, qs);
    forall e: Entity ensures sources.own(e) <==> HasMark(Misfit(es), e.name, EntityEndpoints(e, DemandFor(qs, e))) {
      EntityFits(es, e, DemandFor(qs, e));
    }
    forall e: Entity, parent: string
      ensures sources.nested(e, parent) <==> HasMark(Misfit(es), parent, JunctionEndpoints(e, parent))
    {
      JunctionFits(es, e, parent);
    }
    forall e: Entity, parent: string
      ensures sources.child(e, parent) <==> HasMark(Misfit(es), parent, [ChildCollectionEndpoint(e, parent, DemandFor(qs, e))])
    {
      ChildCollectionFits(es, e, parent, DemandFor(qs, e));
    }
  }

  // ---------- the whole build ----------

  /** The repair leaves exactly the designs alone that already agree with the schema. */
  lemma UnchangedIffAgrees(d: ApiDesign, db: DatabaseDesign, collate: (string, string) -> bool)
    ensures Reconciled(d, db, collate).design == d <==> Agrees(IndexOf(db.entities), d)
  {
    hide IndexOf, FixModules, WrongInModules, Tally, Sorted, EndpointAgrees;
    ReconciledAgrees(d, db, collate);
    if Agrees(IndexOf(db.entities), d) {
      AgreeingModules(IndexOf(db.entities), d.modules);
    }
  }

  predicate ModuleAgrees(index: SchemaTypeIndex, m: ApiModule) {
    forall j :: 0 <= j < |m.endpoints| ==> EndpointAgrees(index, m, m.endpoints[j])
  }

  lemma GroupAgreesIff(es: seq<Entity>, key: string, m: ApiModule, source: Option<ModuleSource>)
    requires GoodModule(key, m)
    ensures ModuleAgrees(IndexOf(es), if source.Some? then m.(source := source) else m) <==> !HasMark(Misfit(es), key, m.endpoints)
  {
    hide IndexOf, FieldsAgree, AllFit, ContextFor, BasePath;
    var stamped := if source.Some? then m.(source := source) else m;
    assert stamped.Claims() == [key];
    forall j | 0 <= j < |m.endpoints|
      ensures EndpointAgrees(IndexOf(es), stamped, m.endpoints[j]) <==> EndpointFits(es, key, m.endpoints[j])
    {
      AgreeIffFit(es, m.endpoints[j].requestSchema, About(es, key, m.endpoints[j].path));
      AgreeIffFit(es, m.endpoints[j].responseSchema, About(es, key, m.endpoints[j].path));
    }
    assert forall j :: 0 <= j < |m.endpoints| ==> (Misfit(es)(key, m.endpoints[j]) <==> !EndpointFits(es, key, m.endpoints[j]));
  }

  /** The Auth group's own fields: credentials and tokens, under the tables its paths name, or the
      users table. */
  predicate AuthFits(es: seq<Entity>) {
    forall j :: 0 <= j < |AuthModule().endpoints| ==>
      var e := AuthModule().endpoints[j];
      var context := ContextFor(IndexOf(es), "/api/auth", [], e.path);
      AllFit(es, e.requestSchema, context) && AllFit(es, e.responseSchema, context)
  }

  lemma AuthAgreesIff(es: seq<Entity>)
    ensures ModuleAgrees(IndexOf(es), AuthModule()) <==> AuthFits(es)
  {
    hide IndexOf, FieldsAgree, AllFit, ContextFor;
    var m := AuthModule();
    assert m.Claims() == [] && m.basePath == "/api/auth";
    forall j | 0 <= j < |m.endpoints|
      ensures var context := ContextFor(IndexOf(es), "/api/auth", [], m.endpoints[j].path);
              EndpointAgrees(IndexOf(es), m, m.endpoints[j]) <==>
                AllFit(es, m.endpoints[j].requestSchema, context) && AllFit(es, m.endpoints[j].responseSchema, context)
    {
      var context := ContextFor(IndexOf(es), "/api/auth", [], m.endpoints[j].path);
      AgreeIffFit(es, m.endpoints[j].requestSchema, context);
      AgreeIffFit(es, m.endpoints[j].responseSchema, context);
    }
  }

  lemma GroupsAgreeIff(db: DatabaseDesign, options: BuildOptions)
    requires !options.includeAuth
    ensures var r := ReachOf(db, options.only, Misfits(db.entities, options.queryScope));
            Agrees(IndexOf(db.entities), BuildOf(db, options)) <==> !exists name :: name in r.grouped && name in r.reached
  {
    hide IndexOf, BuiltGroups, GoodModule, Explains, ReachOf, EndpointAgrees, HasMark, Misfit, Misfits;
    var es, t := db.entities, BuiltGroups(db, options.only, options.queryScope).modules;
    var d, r := BuildOf(db, options), ReachOf(db, options.only, Misfits(db.entities, options.queryScope));
    MisfitsExplained(es, options.queryScope);
    BuildReflects(db, options.only, options.queryScope, Misfits(es, options.queryScope), Misfit(es));
    forall i | 0 <= i < |t| ensures ModuleAgrees(IndexOf(es), d.modules[i]) <==> t[i].key !in r.reached {
      assert GoodModule(t[i].key, t[i].value);
      GroupAgreesIff(es, t[i].key, t[i].value, options.source);
    }
    AgreesByModule(IndexOf(es), d);
    if name :| name in r.grouped && name in r.reached {
      var i :| 0 <= i < |t| && t[i].key == name;
      assert !ModuleAgrees(IndexOf(es), d.modules[i]);
    }
    if i :| 0 <= i < |t| && t[i].key in r.reached {
      assert t[i].key in KeySet(t);
    }
  }

  lemma AgreesByModule(index: SchemaTypeIndex, d: ApiDesign)
    ensures Agrees(index, d) <==> forall i :: 0 <= i < |d.modules| ==> ModuleAgrees(index, d.modules[i])
  {
    hide EndpointAgrees;
  }

  /** The type repair leaves a deterministic build alone if and only if no group of it is reached by a
      column or a list filter that the schema, read at that endpoint, gives another type, and the
      same holds of the Auth group when it is there. */
  lemma BuildIsRetypedIff(db: DatabaseDesign, options: BuildOptions, collate: (string, string) -> bool)
    ensures var r := ReachOf(db, options.only, Misfits(db.entities, options.queryScope));
            Reconciled(BuildOf(db, options), db, collate).design == BuildOf(db, options)
            <==> !(exists name :: name in r.grouped && name in r.reached) && (options.includeAuth ==> AuthFits(db.entities))
  {
    hide Agrees, Reconciled, RestBuild, AuthModule, ReachOf, Misfits, IndexOf, AuthFits;
    var groups := options.(includeAuth := false);
    UnchangedIffAgrees(BuildOf(db, options), db, collate);
    GroupsAgreeIff(db, groups);
    if options.includeAuth {
      AuthComesFirst(db, options);
      AuthAgreesIff(db.entities);
      AgreesWithFirst(IndexOf(db.entities), BuildOf(db, groups), BuildOf(db, options));
    }
  }

  lemma AgreesWithFirst(index: SchemaTypeIndex, d: ApiDesign, e: ApiDesign)
    requires e.modules == [AuthModule()] + d.modules
    ensures Agrees(index, e) <==> ModuleAgrees(index, AuthModule()) && Agrees(index, d)
  {
    hide ModuleAgrees, Agrees, AuthModule;
    AgreesByModule(index, d);
    AgreesByModule(index, e);
    assert e.modules[0] == AuthModule();
    forall i | 0 <= i < |d.modules| ensures e.modules[i + 1] == d.modules[i] {
    }
    if i :| 0 <= i < |d.modules| && !ModuleAgrees(index, d.modules[i]) {
      assert !ModuleAgrees(index, e.modules[i + 1]);
    }
  }

  // ---------- a column called like a parameter ----------

  const NOTES := Entity("notes", "", [Column("id", "uuid", false, true, false, None), Column("page", "text", false, false, false, None)])
  const NOTEBOOK := DatabaseDesign("PostgreSQL", [NOTES], [])

  lemma NotesNames()
    ensures Fold("notes") == "notes" && Fold("page") == "page" && Fold("id") == "id" && Trim("text") == "text"
    ensures Underscored("notes") == "notes" && Lower("notes") == "notes"
  {
    TrimOfTrimmed("notes");
    TrimOfTrimmed("page");
    TrimOfTrimmed("id");
    TrimOfTrimmed("text");
  }

  lemma NotesSegments()
    ensures Split(BasePath("notes"), '/') == ["", "api", "notes"]
  {
    hide Split;
    var api: string, notes: string := "api", "notes";
    assert BasePath(notes) == "" + ['/'] + (api + ['/'] + notes);
    SplitPrefix("", '/', api + ['/'] + notes);
    SplitPrefix(api, '/', notes);
    SplitNone(notes, '/');
  }

  lemma NotesPointAtThemselves()
    ensures PointsAt([NOTES], "notes", "notes")
  {
    hide Fold, SingularNoun, Lower, Underscored;
    NotesNames();
    assert TableForNoun([NOTES], "notes") == Some("notes");
  }

  lemma PageIsDeclared()
    ensures DeclaredType([NOTES], "notes", "page") == Some(ResolvedType(Trim("notes"), "text"))
  {
    hide Fold, Trim;
    NotesNames();
    assert TableOf([NOTES], "notes") == Some(NOTES);
    assert ColumnOf(NOTES.columns, "page") == Some(NOTES.columns[1]);
  }

  lemma PageIsText()
    ensures var r := SchemaSays([NOTES], "page", About([NOTES], "notes", BasePath("notes"))); r.Some? && r.value.typeName == "text"
  {
    hide Fold, Split, ContextFor, IndexOf, DeclaredType, FirstDeclared, PointsAt, BasePath;
    var es, context := [NOTES], About([NOTES], "notes", BasePath("notes"));
    NotesNames();
    NotesSegments();
    NotesPointAtThemselves();
    PageIsDeclared();
    LastSegmentLeads(es, BasePath("notes"), ["notes"], BasePath("notes"), 2, "notes");
    assert DeclaresFirst(es, "page", context, 0);
    FirstDeclaredDecides(es, "page", context, 0);
    assert !EndsWith("page", "_ids");
  }

  lemma NotesDoNotFit(demand: ListQueryDemand)
    ensures !OwnFits([NOTES], NOTES, demand)
  {
    hide SchemaSays, About, QueryParams, IsGrounded, HasName;
    QueryParamsAreSound(NOTES, demand);
    PageIsText();
    var params := QueryParams(NOTES, demand);
    assert params[0] == PAGINATION[0] == SchemaField("page", "integer", false);
    assert !Fits([NOTES], params[0], About([NOTES], "notes", BasePath("notes")));
  }

  /** A text column called `page`: the pagination parameter of the generated list is retyped. */
  lemma PageIsRetyped(options: BuildOptions, collate: (string, string) -> bool)
    requires options.only.None?
    ensures Reconciled(BuildOf(NOTEBOOK, options), NOTEBOOK, collate).design != BuildOf(NOTEBOOK, options)
  {
    hide Reconciled, BuildOf, AuthFits, OwnFits, ReachOf, ForeignKeys;
    NotesDoNotFit(DemandFor(options.queryScope, NOTES));
    NotesHaveNoKeys();
    LoneTable(NOTEBOOK, NOTES, Misfits(NOTEBOOK.entities, options.queryScope));
    BuildIsRetypedIff(NOTEBOOK, options, collate);
    assert "notes" in ReachOf(NOTEBOOK, options.only, Misfits(NOTEBOOK.entities, options.queryScope)).reached;
  }

  lemma NotesHaveNoKeys()
    ensures ForeignKeys(NOTES.columns) == []
  {
    assert NOTES.columns[1..][1..] == [];
    assert ForeignKeys(NOTES.columns[1..]) == [] + ForeignKeys([]);
  }
}
