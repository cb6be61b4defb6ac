/** How the names of fields and paths are read when a field is matched with the schema, written out. */
module FieldReading {
  import opened Text
  import opened TextLaws
  import opened Segments
  import opened Collections
  import opened Schema
  import opened FieldTypes
  import opened FieldGrounding

  // ---------- keys ----------

  predicate EndsALine(c: char) { c in ['\n', '\r', '\U{2028}', '\U{2029}'] }

  /** `name` is a noun, on one line, followed by `_id`. */
  predicate IsKeyOf(name: string, noun: string) {
    name == noun + "_id" && noun != "" && forall i :: 0 <= i < |noun| ==> !EndsALine(noun[i])
  }

  lemma KeyNounIff(name: string, noun: string)
    ensures KeyNoun(name) == Some(noun) <==> IsKeyOf(name, noun)
  {
    if KeyNoun(name) == Some(noun) {
      assert name == name[..|name| - 3] + name[|name| - 3..];
    }
    if IsKeyOf(name, noun) {
      assert name[|name| - 3..] == "_id" && name[..|name| - 3] == noun;
    }
  }

  /** A key of a table the endpoint says nothing of has the type of the key of the table its noun points at;
      when it points at none, or that has no typed key, nothing is known. */
  lemma KeyFieldIs(es: seq<Entity>, fieldName: string, context: seq<string>, noun: string)
    requires IsKeyOf(Fold(fieldName), noun) && !IsDeclared(es, Fold(fieldName), context)
    ensures ResolveFieldType(IndexOf(es), fieldName, context) ==
            match Target(es, noun) case Some(table) => KeyType(es, table) case None => None
  {
    hide Fold, KeyNoun, IndexOf, ResolveFieldType, KeyType, DeclaredType, Target;
    var name := Fold(fieldName);
    assert name[|name| - 1] == 'd' && |name| > 3;
    KeyNounIff(name, noun);
    ResolutionIsExact(es, fieldName, context, 0);
  }

  // ---------- segments ----------

  /** Dashes of a segment read as underscores, and nothing else changes. */
  lemma DashIsUnderscore(word: string, rest: string)
    requires '-' !in word
    ensures Underscored(word) == word && Underscored(word + "-" + rest) == word + "_" + Underscored(rest)
  {
  }

  // ---------- the auth group ----------

  /** The path has the segment `auth`, in any case. */
  predicate HasAuthSegment(path: string) {
    exists k :: 0 <= k <= |path| && IsSegmentAt(Lower(path), "auth", k)
  }

  lemma AuthPathIff(path: string)
    ensures IsAuthPath(path) <==> HasAuthSegment(path)
  {
    hide Split, IsSegmentAt;
    LowerSplits(path);
    SegmentIff(Lower(path), "auth");
    FirstSegment(Lower(path), "auth");
    var pieces := Split(Lower(path), '/');
    assert forall i :: 0 <= i < |pieces| ==> pieces[i] == Lower(Split(path, '/')[i]);
    assert IsAuthPath(path) <==> exists i :: 0 <= i < |pieces| && pieces[i] == "auth";
  }

  predicate IsAccountTable(e: Entity) {
    Fold(e.name) in ["user", "users", "account", "accounts"]
  }

  /** The table at `i` is the first one of users or of accounts. */
  predicate IsFirstAccountTable(es: seq<Entity>, i: nat) {
    i < |es| && IsAccountTable(es[i]) && forall j :: 0 <= j < i ==> !IsAccountTable(es[j])
  }

  lemma {:induction false} FirstUsersSnoc(keys: seq<string>, key: string)
    ensures FirstUsers(keys + [key]) ==
            if FirstUsers(keys) != [] then FirstUsers(keys)
            else if Lower(key) in ["user", "users", "account", "accounts"] then [key] else []
  {
    hide Lower;
    if keys == [] {
      assert [key][1..] == [] && keys + [key] == [key];
    } else {
      FirstUsersSnoc(keys[1..], key);
      assert (keys + [key])[1..] == keys[1..] + [key];
    }
  }

  lemma {:induction false} ListedUsers(keys: seq<string>, key: string)
    requires key in keys && FirstUsers(keys) == []
    ensures Lower(key) !in ["user", "users", "account", "accounts"]
  {
    hide Lower;
    if keys[0] != key {
      ListedUsers(keys[1..], key);
    }
  }

  lemma LowerTwice(s: string)
    ensures Lower(Lower(s)) == Lower(s)
  {
  }

  lemma {:induction false} FirstAccountTable(es: seq<Entity>, i: nat)
    ensures IsFirstAccountTable(es, i) ==> FirstUsers(IndexOf(es).order) == [Fold(es[i].name)]
    ensures (forall j :: 0 <= j < |es| ==> !IsAccountTable(es[j])) ==> FirstUsers(IndexOf(es).order) == []
  {
    hide Trim, Lower, SingularNoun, PrimaryKeyColumn, ColumnsByName;
    if es != [] {
      var front, last := es[..|es| - 1], es[|es| - 1];
      var order, key := IndexOf(front).order, Fold(last.name);
      FirstAccountTable(front, i);
      FoldIsBlank(last.name);
      LowerTwice(Trim(last.name));
      FirstUsersSnoc(order, key);
      if key in order && FirstUsers(order) == [] {
        ListedUsers(order, key);
      }
    }
  }

  /** A group at an `auth` segment whose path and coverage name no table is about the first table of users or
      of accounts, if there is one. */
  lemma AuthIsAboutAccounts(es: seq<Entity>, basePath: string, covered: seq<string>, path: string, i: nat)
    requires HasAuthSegment(basePath) && forall t :: !IsAbout(es, covered, path, t)
    ensures var context := ContextFor(IndexOf(es), basePath, covered, path);
            && (IsFirstAccountTable(es, i) ==> context == [Fold(es[i].name)])
            && ((forall j :: 0 <= j < |es| ==> !IsAccountTable(es[j])) ==> context == [])
  {
    hide IndexOf, Split, PathContext, CoveredContext, IsAuthPath, FirstUsers, Distinct, IsAbout, HasAuthSegment, IsFirstAccountTable, IsAccountTable;
    NothingNamed(es, covered, path);
    AuthPathIff(basePath);
    FirstAccountTable(es, i);
  }

  /** Any other group whose path and coverage name no table is about none. */
  lemma OtherIsAboutNothing(es: seq<Entity>, basePath: string, covered: seq<string>, path: string)
    requires !HasAuthSegment(basePath) && forall t :: !IsAbout(es, covered, path, t)
    ensures ContextFor(IndexOf(es), basePath, covered, path) == []
  {
    hide IndexOf, Split, PathContext, CoveredContext, IsAuthPath, FirstUsers, Distinct, IsAbout, HasAuthSegment;
    NothingNamed(es, covered, path);
    AuthPathIff(basePath);
  }

  lemma NothingNamed(es: seq<Entity>, covered: seq<string>, path: string)
    requires forall t :: !IsAbout(es, covered, path, t)
    ensures Distinct(PathContext(IndexOf(es), Split(path, '/')) + CoveredContext(IndexOf(es), covered)) == []
  {
    hide IndexOf, Split, PathContext, CoveredContext, IsAbout;
    var named := PathContext(IndexOf(es), Split(path, '/')) + CoveredContext(IndexOf(es), covered);
    if named != [] {
      AboutIff(es, covered, path, named[0]);
    }
  }
}
