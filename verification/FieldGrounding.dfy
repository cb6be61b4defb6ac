/** What a resolved field type means in terms of the schema itself. */
module FieldGrounding {
  import opened Text
  import opened Collections
  import opened Schema
  import opened FieldTypes
  import opened FieldReconcile

  // ---------- reading the schema directly ----------

  /** The last table so named; a blank name names none. */
  function TableOf(es: seq<Entity>, key: string): (r: Option<Entity>)
    ensures r.Some? ==> r.value in es && Fold(r.value.name) == key != ""
    ensures r.None? && key != "" ==> forall e :: e in es ==> Fold(e.name) != key
  {
    hide Fold;
    if es == [] || key == "" then None
    else if Fold(es[|es| - 1].name) == key then Some(es[|es| - 1])
    else TableOf(es[..|es| - 1], key)
  }

  /** The last column so named. */
  function ColumnOf(cs: seq<Column>, name: string): (r: Option<Column>)
    ensures r.Some? ==> r.value in cs && Fold(r.value.name) == name && r.value.name != ""
    ensures r.None? ==> forall c :: c in cs && c.name != "" ==> Fold(c.name) != name
  {
    hide Fold;
    if cs == [] then None
    else if cs[|cs| - 1].name != "" && Fold(cs[|cs| - 1].name) == name then Some(cs[|cs| - 1])
    else ColumnOf(cs[..|cs| - 1], name)
  }

  predicate HasTypedKey(e: Entity) {
    PrimaryKeyColumn(e.columns).Some? && PrimaryKeyColumn(e.columns).value.columnType != ""
  }

  /** The last table so named whose key column has a type. */
  function KeyedTableOf(es: seq<Entity>, key: string): (r: Option<Entity>)
    ensures r.Some? ==> r.value in es && Fold(r.value.name) == key != "" && HasTypedKey(r.value)
  {
    hide Fold, HasTypedKey;
    if es == [] || key == "" then None
    else if Fold(es[|es| - 1].name) == key && HasTypedKey(es[|es| - 1]) then Some(es[|es| - 1])
    else KeyedTableOf(es[..|es| - 1], key)
  }

  /** The last table whose name, or its singular, is this noun. */
  function TableForNoun(es: seq<Entity>, noun: string): (r: Option<string>)
    ensures r.Some? ==> TableOf(es, r.value).Some? && (r.value == noun || SingularNoun(r.value) == noun)
    ensures r.None? ==> forall e :: e in es && Fold(e.name) != "" ==> Fold(e.name) != noun && SingularNoun(Fold(e.name)) != noun
  {
    hide Fold, SingularNoun;
    if es == [] then None
    else
      var key := Fold(es[|es| - 1].name);
      if key != "" && (key == noun || SingularNoun(key) == noun) then Some(key) else TableForNoun(es[..|es| - 1], noun)
  }

  /** The table a noun or a path segment points at: by its own spelling first, then by its singular. */
  function Target(es: seq<Entity>, noun: string): (r: Option<string>)
    ensures r.Some? ==> TableOf(es, r.value).Some?
  {
    var own := TableForNoun(es, Fold(noun));
    if own.Some? then own else TableForNoun(es, SingularNoun(Fold(noun)))
  }

  /** The type this table declares for a column of that name. */
  function DeclaredType(es: seq<Entity>, key: string, name: string): Option<ResolvedType> {
    match TableOf(es, key)
    case None => None
    case Some(e) =>
      match ColumnOf(e.columns, name)
      case None => None
      case Some(c) => if c.columnType == "" then None else Some(ResolvedType(Trim(e.name), Trim(c.columnType)))
  }

  /** The type of the key of the table so named. */
  function KeyType(es: seq<Entity>, key: string): Option<ResolvedType> {
    match KeyedTableOf(es, key)
    case None => None
    case Some(e) =>
      var text := Trim(PrimaryKeyColumn(e.columns).value.columnType);
      if text == "" || TableOf(es, key).None? then None else Some(ResolvedType(Trim(TableOf(es, key).value.name), text))
  }

  /** The table at `k` is the first of these to declare such a column. */
  predicate DeclaresFirst(es: seq<Entity>, name: string, context: seq<string>, k: nat) {
    && k < |context| && DeclaredType(es, context[k], name).Some?
    && forall i :: 0 <= i < k ==> DeclaredType(es, context[i], name).None?
  }

  /** The first of the tables that declares such a column decides. */
  function FirstDeclared(es: seq<Entity>, name: string, context: seq<string>): Option<ResolvedType> {
    if context == [] then None
    else if DeclaredType(es, context[0], name).Some? then DeclaredType(es, context[0], name)
    else FirstDeclared(es, name, context[1..])
  }

  lemma {:induction false} FirstDeclaredDecides(es: seq<Entity>, name: string, context: seq<string>, k: nat)
    ensures DeclaresFirst(es, name, context, k) ==> FirstDeclared(es, name, context) == DeclaredType(es, context[k], name)
    ensures FirstDeclared(es, name, context).None? <==> forall i :: 0 <= i < |context| ==> DeclaredType(es, context[i], name).None?
  {
    hide DeclaredType;
    if context != [] {
      FirstDeclaredDecides(es, name, context[1..], if k > 0 then k - 1 else 0);
      assert forall i :: 1 <= i < |context| ==> context[i] == context[1..][i - 1];
    }
  }

  /** The table at `k` is the first of these with a typed key. */
  predicate KeyedFirst(es: seq<Entity>, context: seq<string>, k: nat) {
    && k < |context| && KeyType(es, context[k]).Some?
    && forall i :: 0 <= i < k ==> KeyType(es, context[i]).None?
  }

  /** The first of the tables with a typed key decides. */
  function FirstKeyed(es: seq<Entity>, context: seq<string>): Option<ResolvedType> {
    if context == [] then None
    else if KeyType(es, context[0]).Some? then KeyType(es, context[0])
    else FirstKeyed(es, context[1..])
  }

  lemma {:induction false} FirstKeyedDecides(es: seq<Entity>, context: seq<string>, k: nat)
    ensures KeyedFirst(es, context, k) ==> FirstKeyed(es, context) == KeyType(es, context[k])
    ensures FirstKeyed(es, context).None? <==> forall i :: 0 <= i < |context| ==> KeyType(es, context[i]).None?
  {
    hide KeyType;
    if context != [] {
      FirstKeyedDecides(es, context[1..], if k > 0 then k - 1 else 0);
      assert forall i :: 1 <= i < |context| ==> context[i] == context[1..][i - 1];
    }
  }

  /** What the schema says about a field of an endpoint that is about these tables. */
  function SchemaSays(es: seq<Entity>, fieldName: string, context: seq<string>): Option<ResolvedType> {
    var name := Fold(fieldName);
    if name == "" || EndsWith(name, "_ids") then None
    else if FirstDeclared(es, name, context).Some? then FirstDeclared(es, name, context)
    else if name == "id" then FirstKeyed(es, context)
    else
      match KeyNoun(name)
      case None => None
      case Some(noun) =>
        match Target(es, noun)
        case None => None
        case Some(table) => KeyType(es, table)
  }

  // ---------- the index holds exactly that ----------

  lemma {:induction false} IndexedColumns(cs: seq<Column>, name: string)
    ensures name in ColumnsByName(cs) <==> ColumnOf(cs, name).Some?
    ensures name in ColumnsByName(cs) ==> ColumnsByName(cs)[name] == ColumnOf(cs, name).value
  {
    hide Fold;
    if cs != [] {
      IndexedColumns(cs[..|cs| - 1], name);
    }
  }

  lemma FoldIsBlank(name: string)
    ensures Fold(name) == "" <==> Trim(name) == ""
  {
    hide Trim;
  }

  lemma {:induction false} IndexedTables(es: seq<Entity>, key: string)
    ensures var index, e := IndexOf(es), TableOf(es, key);
            && (key in index.columns <==> e.Some?) && (key in index.displayName <==> e.Some?)
            && (e.Some? ==> index.columns[key] == ColumnsByName(e.value.columns) && index.displayName[key] == Trim(e.value.name))
  {
    hide Trim, Lower, SingularNoun, PrimaryKeyColumn, ColumnsByName;
    if es != [] {
      IndexedTables(es[..|es| - 1], key);
      FoldIsBlank(es[|es| - 1].name);
    }
  }

  lemma {:induction false} IndexedKeys(es: seq<Entity>, key: string)
    ensures var index, e := IndexOf(es), KeyedTableOf(es, key);
            && (key in index.primaryKey <==> e.Some?)
            && (e.Some? ==> index.primaryKey[key] == Trim(PrimaryKeyColumn(e.value.columns).value.columnType))
  {
    hide Trim, Lower, SingularNoun, PrimaryKeyColumn, ColumnsByName;
    if es != [] {
      IndexedKeys(es[..|es| - 1], key);
      FoldIsBlank(es[|es| - 1].name);
    }
  }

  lemma {:induction false} IndexedNouns(es: seq<Entity>, noun: string)
    ensures var index, key := IndexOf(es), TableForNoun(es, noun);
            && (noun in index.byNoun <==> key.Some?) && (key.Some? ==> index.byNoun[noun] == key.value)
  {
    hide Trim, Lower, SingularNoun, PrimaryKeyColumn, ColumnsByName;
    if es != [] {
      IndexedNouns(es[..|es| - 1], noun);
      FoldIsBlank(es[|es| - 1].name);
    }
  }

  lemma NounTarget(es: seq<Entity>, noun: string)
    ensures EntityForNoun(IndexOf(es), noun) == Target(es, noun)
  {
    hide Fold, SingularNoun, IndexOf, TableForNoun;
    IndexedNouns(es, Fold(noun));
    IndexedNouns(es, SingularNoun(Fold(noun)));
  }

  lemma {:induction false} DeclaredColumn(es: seq<Entity>, name: string, context: seq<string>)
    ensures ColumnType(IndexOf(es), name, context) == FirstDeclared(es, name, context)
  {
    hide Fold, Trim, IndexOf, TableOf, ColumnOf, ColumnsByName;
    if context != [] {
      DeclaredColumn(es, name, context[1..]);
      IndexedTables(es, context[0]);
      if TableOf(es, context[0]).Some? {
        IndexedColumns(TableOf(es, context[0]).value.columns, name);
      }
    }
  }

  lemma TableKey(es: seq<Entity>, key: string)
    ensures KeyOf(IndexOf(es), key) == KeyType(es, key)
  {
    hide Fold, Trim, IndexOf, TableOf, KeyedTableOf, PrimaryKeyColumn;
    IndexedTables(es, key);
    IndexedKeys(es, key);
    if KeyedTableOf(es, key).Some? {
      assert TableOf(es, key).Some?;
    }
  }

  lemma {:induction false} OwnKey(es: seq<Entity>, context: seq<string>)
    ensures OwnKeyType(IndexOf(es), context) == FirstKeyed(es, context)
  {
    hide KeyOf, KeyType, IndexOf;
    if context != [] {
      OwnKey(es, context[1..]);
      TableKey(es, context[0]);
    }
  }

  /** Looking a field up in the index is reading the schema. */
  lemma ResolvingReadsTheSchema(es: seq<Entity>, fieldName: string, context: seq<string>)
    ensures ResolveFieldType(IndexOf(es), fieldName, context) == SchemaSays(es, fieldName, context)
  {
    hide Fold, EndsWith, KeyNoun, IndexOf, ColumnType, OwnKeyType, EntityForNoun, KeyOf, KeyType, Target, FirstDeclared, FirstKeyed;
    var name := Fold(fieldName);
    DeclaredColumn(es, name, context);
    OwnKey(es, context);
    if KeyNoun(name).Some? {
      NounTarget(es, KeyNoun(name).value);
      if Target(es, KeyNoun(name).value).Some? {
        TableKey(es, Target(es, KeyNoun(name).value).value);
      }
    }
  }

  // ---------- a resolved type is the type of a column ----------

  /** The trimmed type of a column of a table of that name: the column called so, or the table's key. */
  predicate IsColumnType(r: ResolvedType, es: seq<Entity>, name: string) {
    exists e, c :: e in es && c in e.columns && r.typeName == Trim(c.columnType) && Fold(r.entity) == Fold(e.name)
                   && (Fold(c.name) == name || PrimaryKeyColumn(e.columns) == Some(c))
  }

  lemma DeclaredIsColumnType(es: seq<Entity>, key: string, name: string)
    ensures DeclaredType(es, key, name).Some? ==> IsColumnType(DeclaredType(es, key, name).value, es, name)
  {
    hide Fold, Trim, TableOf, ColumnOf, PrimaryKeyColumn;
    if DeclaredType(es, key, name).Some? {
      var e := TableOf(es, key).value;
      var c := ColumnOf(e.columns, name).value;
      FoldOfTrimmed(e.name);
      assert e in es && c in e.columns;
    }
  }

  lemma FoldOfTrimmed(name: string)
    ensures Fold(Trim(name)) == Fold(name)
  {
    hide Trim;
    TrimIdempotent(name);
  }

  lemma KeyIsColumnType(es: seq<Entity>, key: string, name: string)
    ensures KeyType(es, key).Some? ==> IsColumnType(KeyType(es, key).value, es, name)
  {
    hide Fold, Trim, TableOf, KeyedTableOf, PrimaryKeyColumn;
    if KeyType(es, key).Some? {
      var e := KeyedTableOf(es, key).value;
      KeyColumnIsListed(e.columns);
      FoldOfTrimmed(TableOf(es, key).value.name);
      assert e in es && PrimaryKeyColumn(e.columns).value in e.columns;
    }
  }

  lemma KeyColumnIsListed(cs: seq<Column>)
    ensures PrimaryKeyColumn(cs).Some? ==>
              var c := PrimaryKeyColumn(cs).value;
              c in cs && (c.primaryKey || (Fold(c.name) == "id" && forall x :: x in cs ==> !x.primaryKey))
  {
    hide Fold;
  }

  lemma {:induction false} FirstsAreColumnTypes(es: seq<Entity>, name: string, context: seq<string>)
    ensures FirstDeclared(es, name, context).Some? ==> IsColumnType(FirstDeclared(es, name, context).value, es, name)
    ensures FirstKeyed(es, context).Some? ==> IsColumnType(FirstKeyed(es, context).value, es, name)
  {
    hide DeclaredType, KeyType, IsColumnType;
    if context != [] {
      FirstsAreColumnTypes(es, name, context[1..]);
      DeclaredIsColumnType(es, context[0], name);
      KeyIsColumnType(es, context[0], name);
    }
  }

  /** Whatever is resolved is the type of an actual column: one of that very name, or the key of the
      table. Nothing is ever invented. */
  lemma ResolvedIsColumnType(es: seq<Entity>, fieldName: string, context: seq<string>)
    ensures var r := ResolveFieldType(IndexOf(es), fieldName, context);
            r.Some? ==> IsColumnType(r.value, es, Fold(fieldName))
  {
    hide Fold, EndsWith, KeyNoun, IndexOf, ResolveFieldType, KeyType, DeclaredType, Target, FirstDeclared, FirstKeyed, IsColumnType;
    var name := Fold(fieldName);
    ResolvingReadsTheSchema(es, fieldName, context);
    FirstsAreColumnTypes(es, name, context);
    if KeyNoun(name).Some? && Target(es, KeyNoun(name).value).Some? {
      KeyIsColumnType(es, Target(es, KeyNoun(name).value).value, name);
    }
  }

  /** Priority and silence: the first table that declares the column decides; bare `id` is the key of
      the first table with one; `<noun>_id` is the key of the table the noun names; anything else,
      and any collection of ids, is left alone. */
  lemma ResolutionIsExact(es: seq<Entity>, fieldName: string, context: seq<string>, k: nat)
    ensures var name, r := Fold(fieldName), ResolveFieldType(IndexOf(es), fieldName, context);
            && (name == "" || EndsWith(name, "_ids") ==> r.None?)
            && (name != "" && !EndsWith(name, "_ids") && DeclaresFirst(es, name, context, k) ==> r == DeclaredType(es, context[k], name))
            && (name != "" && !EndsWith(name, "_ids") && !IsDeclared(es, name, context) ==>
                  && (name == "id" && KeyedFirst(es, context, k) ==> r == KeyType(es, context[k]))
                  && (name == "id" && (forall i :: 0 <= i < |context| ==> KeyType(es, context[i]).None?) ==> r.None?)
                  && (name != "id" && KeyNoun(name).None? ==> r.None?)
                  && (name != "id" && KeyNoun(name).Some? ==>
                        match Target(es, KeyNoun(name).value)
                        case Some(table) => r == KeyType(es, table)
                        case None => r.None?))
  {
    hide Fold, EndsWith, KeyNoun, IndexOf, ResolveFieldType, KeyType, DeclaredType, Target, FirstDeclared, FirstKeyed;
    var name := Fold(fieldName);
    ResolvingReadsTheSchema(es, fieldName, context);
    FirstDeclaredDecides(es, name, context, k);
    FirstKeyedDecides(es, context, k);
  }

  predicate IsDeclared(es: seq<Entity>, name: string, context: seq<string>) {
    exists i :: 0 <= i < |context| && DeclaredType(es, context[i], name).Some?
  }

  // ---------- the tables an endpoint is about ----------

  /** A path segment that points at a table. */
  predicate PointsAt(es: seq<Entity>, segment: string, table: string) {
    segment != "" && segment[0] != ':' && Lower(segment) != "api" && Target(es, Underscored(segment)) == Some(table)
  }

  lemma {:induction false} PathTables(es: seq<Entity>, segments: seq<string>, x: string)
    ensures x in PathContext(IndexOf(es), segments) <==> exists i :: 0 <= i < |segments| && PointsAt(es, segments[i], x)
  {
    hide IndexOf, Target, EntityForNoun, Lower;
    if segments != [] {
      var front, last := segments[..|segments| - 1], segments[|segments| - 1];
      PathTables(es, front, x);
      NounTarget(es, Underscored(last));
      assert segments == front + [last];
      if i :| 0 <= i < |segments| && PointsAt(es, segments[i], x) {
        if i < |front| { assert PointsAt(es, front[i], x); }
      }
      if i :| 0 <= i < |front| && PointsAt(es, front[i], x) {
        assert PointsAt(es, segments[i], x);
      }
    }
  }

  lemma {:induction false} CoveredTables(es: seq<Entity>, covered: seq<string>, x: string)
    ensures x in CoveredContext(IndexOf(es), covered) <==>
              TableOf(es, x).Some? && exists i :: 0 <= i < |covered| && Fold(covered[i]) == x
  {
    hide IndexOf, Fold, TableOf;
    if covered != [] {
      CoveredTables(es, covered[1..], x);
      IndexedTables(es, Fold(covered[0]));
      if i :| 0 <= i < |covered| && Fold(covered[i]) == x {
        if i > 0 { assert covered[1..][i - 1] == covered[i]; }
      }
    }
  }

  /** The endpoint's path or its group's coverage names this table. */
  predicate IsAbout(es: seq<Entity>, covered: seq<string>, path: string, table: string) {
    || (exists i :: 0 <= i < |Split(path, '/')| && PointsAt(es, Split(path, '/')[i], table))
    || (TableOf(es, table).Some? && exists i :: 0 <= i < |covered| && Fold(covered[i]) == table)
  }

  /** The tables consulted are exactly those the path or the coverage names; only an auth group that
      names none falls back to the users table. */
  lemma ContextIsExact(es: seq<Entity>, basePath: string, covered: seq<string>, path: string, x: string)
    ensures var context := ContextFor(IndexOf(es), basePath, covered, path);
            x in context <==>
              || IsAbout(es, covered, path, x)
              || (!(exists t :: IsAbout(es, covered, path, t)) && IsAuthPath(basePath) && x in FirstUsers(IndexOf(es).order))
  {
    hide IndexOf, Split, PathContext, CoveredContext, PointsAt, IsAuthPath, FirstUsers, Distinct, IsAbout;
    var named := PathContext(IndexOf(es), Split(path, '/')) + CoveredContext(IndexOf(es), covered);
    DistinctMembers(named);
    forall t ensures t in named <==> IsAbout(es, covered, path, t) {
      AboutIff(es, covered, path, t);
    }
    if Distinct(named) != [] {
      assert Distinct(named)[0] in named;
    }
  }

  lemma AboutIff(es: seq<Entity>, covered: seq<string>, path: string, t: string)
    ensures t in PathContext(IndexOf(es), Split(path, '/')) + CoveredContext(IndexOf(es), covered) <==> IsAbout(es, covered, path, t)
  {
    hide IndexOf, Split, PathContext, CoveredContext, PointsAt;
    PathTables(es, Split(path, '/'), t);
    CoveredTables(es, covered, t);
  }

  /** The last segment that points at a table comes first: a nested route is about the child. */
  lemma LastSegmentLeads(es: seq<Entity>, basePath: string, covered: seq<string>, path: string, i: nat, table: string)
    requires i < |Split(path, '/')| && PointsAt(es, Split(path, '/')[i], table)
    requires forall j, t :: i < j < |Split(path, '/')| ==> !PointsAt(es, Split(path, '/')[j], t)
    ensures var context := ContextFor(IndexOf(es), basePath, covered, path); context != [] && context[0] == table
  {
    hide IndexOf, Split, PathContext, CoveredContext, PointsAt, Distinct;
    var segments := Split(path, '/');
    PathLeads(es, segments, i, table);
    var all := PathContext(IndexOf(es), segments) + CoveredContext(IndexOf(es), covered);
    assert all[0] == table;
    DistinctStart(all);
  }

  lemma SilentSegment(es: seq<Entity>, front: seq<string>, last: string)
    requires forall t :: !PointsAt(es, last, t)
    ensures PathContext(IndexOf(es), front + [last]) == PathContext(IndexOf(es), front)
  {
    hide IndexOf, Target, EntityForNoun, Lower;
    var all, t := front + [last], Target(es, Underscored(last));
    assert all[..|all| - 1] == front;
    NounTarget(es, Underscored(last));
    assert t.Some? ==> (PointsAt(es, last, t.value) <==> last != "" && last[0] != ':' && Lower(last) != "api");
  }

  lemma {:induction false} PathLeads(es: seq<Entity>, segments: seq<string>, i: nat, table: string)
    requires i < |segments| && PointsAt(es, segments[i], table)
    requires forall j, t :: i < j < |segments| ==> !PointsAt(es, segments[j], t)
    ensures var context := PathContext(IndexOf(es), segments); context != [] && context[0] == table
  {
    hide IndexOf, Target, EntityForNoun, Lower;
    var front, last := segments[..|segments| - 1], segments[|segments| - 1];
    if i < |front| {
      forall j, t | i < j < |front| ensures !PointsAt(es, front[j], t) {
        assert front[j] == segments[j];
      }
      PathLeads(es, front, i, table);
      assert front + [last] == segments;
      SilentSegment(es, front, last);
    } else {
      NounTarget(es, Underscored(last));
    }
  }

  lemma {:induction false} DistinctStart(s: seq<string>)
    requires s != []
    ensures Distinct(s) != [] && Distinct(s)[0] == s[0]
  {
    if |s| > 1 {
      DistinctStart(s[..|s| - 1]);
    } else {
      assert s[..0] == [];
    }
  }

  lemma {:induction false} OrderListsTables(es: seq<Entity>, x: string)
    ensures x in IndexOf(es).order <==> TableOf(es, x).Some?
  {
    hide Trim, Lower, SingularNoun, PrimaryKeyColumn, ColumnsByName;
    if es != [] {
      OrderListsTables(es[..|es| - 1], x);
      FoldIsBlank(es[|es| - 1].name);
    }
  }

  lemma {:induction false} UsersAreListed(keys: seq<string>)
    ensures forall x :: x in FirstUsers(keys) ==> x in keys && Lower(x) in ["user", "users", "account", "accounts"]
  {
    hide Lower;
    if keys != [] {
      UsersAreListed(keys[1..]);
    }
  }

  /** Whatever is consulted is a table of the schema. */
  lemma ContextNamesTables(es: seq<Entity>, basePath: string, covered: seq<string>, path: string, x: string)
    requires x in ContextFor(IndexOf(es), basePath, covered, path)
    ensures TableOf(es, x).Some?
  {
    hide IndexOf, Split, ContextFor, Target, FirstUsers, Lower, Fold, TableOf, IsAuthPath;
    ContextIsExact(es, basePath, covered, path, x);
    if !IsAbout(es, covered, path, x) {
      UsersAreListed(IndexOf(es).order);
      OrderListsTables(es, x);
    }
  }

  // ---------- what counts as one type ----------

  lemma {:induction false} CutAtParenthesis(s: string, args: string)
    requires '(' !in s && OneLine(args)
    ensures CutParenthesis(s + "(" + args) == s && CutParenthesis(s) == s
  {
    var all := s + "(" + args;
    if s == "" {
      assert all == "(" + args;
      assert OneLine(all);
    } else {
      CutAtParenthesis(s[1..], args);
      assert all[1..] == s[1..] + "(" + args;
      assert [s[0]] + s[1..] == s;
      assert s[0] in s;
    }
  }

  lemma LowerKeepsShape(s: string)
    ensures '(' !in s ==> '(' !in Lower(s)
    ensures OneLine(s) ==> OneLine(Lower(s))
  {
  }

  /** Arguments never make two types differ: `varchar(255)` is `varchar`. */
  lemma ArgumentsAreForgiven(name: string, args: string)
    requires name != "" && IsTrimmed(name) && '(' !in name && args != "" && IsTrimmed(args) && OneLine(args)
    ensures SameFieldType(name + "(" + args, name)
  {
    hide OneLine, CutParenthesis, DropTimeZone, IsSpace, Trim;
    var all := name + "(" + args;
    assert all[0] == name[0] && all[|all| - 1] == args[|args| - 1];
    TrimOfTrimmed(all);
    TrimOfTrimmed(name);
    LowerConcat(name + "(", args);
    LowerConcat(name, "(");
    assert Lower("(") == "(";
    LowerKeepsShape(name);
    LowerKeepsShape(args);
    CutAtParenthesis(Lower(name), Lower(args));
  }

  // ---------- the whole design ----------

  /** Every field the schema speaks about carries the type of the column it names. */
  predicate FieldsMatchSchema(es: seq<Entity>, fields: seq<SchemaField>, context: seq<string>) {
    forall i :: 0 <= i < |fields| ==> FieldMatchesSchema(es, fields[i], context)
  }

  predicate FieldMatchesSchema(es: seq<Entity>, f: SchemaField, context: seq<string>) {
    var says := SchemaSays(es, f.name, context);
    says.Some? ==> f.fieldType == says.value.typeName && IsColumnType(says.value, es, Fold(f.name))
  }

  lemma AgreeingMatches(es: seq<Entity>, fields: seq<SchemaField>, context: seq<string>)
    requires FieldsAgree(IndexOf(es), fields, context)
    ensures FieldsMatchSchema(es, fields, context)
  {
    hide IndexOf, ResolveFieldType, SchemaSays, IsColumnType;
    forall i | 0 <= i < |fields| ensures FieldMatchesSchema(es, fields[i], context) {
      ResolvingReadsTheSchema(es, fields[i].name, context);
      ResolvedIsColumnType(es, fields[i].name, context);
    }
  }

  /** After the pass every documented field that names a column, or a key, of the tables its endpoint
      is about carries exactly that column's type. */
  lemma ReconciledMatchesSchema(d: ApiDesign, db: DatabaseDesign, collate: (string, string) -> bool, i: nat, j: nat)
    requires var after := Reconciled(d, db, collate).design;
             i < |after.modules| && j < |after.modules[i].endpoints|
    ensures var after := Reconciled(d, db, collate).design;
            var m, e := after.modules[i], after.modules[i].endpoints[j];
            var context := ContextFor(IndexOf(db.entities), m.basePath, m.Claims(), e.path);
            FieldsMatchSchema(db.entities, e.requestSchema, context) && FieldsMatchSchema(db.entities, e.responseSchema, context)
  {
    hide Reconciled, ContextFor, FieldsAgree, FieldsMatchSchema, IndexOf;
    ReconciledAgrees(d, db, collate);
    var after := Reconciled(d, db, collate).design;
    var m, e := after.modules[i], after.modules[i].endpoints[j];
    var context := ContextFor(IndexOf(db.entities), m.basePath, m.Claims(), e.path);
    assert EndpointAgrees(IndexOf(db.entities), m, e);
    AgreeingMatches(db.entities, e.requestSchema, context);
    AgreeingMatches(db.entities, e.responseSchema, context);
  }
}
