/** How many roles a user has, read off the schema, and what the role repair writes. */
module RoleReading {
  import opened Text
  import opened TextLaws
  import opened Segments
  import opened Collections
  import opened Schema
  import RestApi
  import opened RestContract
  import opened Roles

  // ---------- how many roles ----------

  predicate IsUsers(name: string) { Lower(name) in ["user", "users"] }

  predicate IsRoles(name: string) { Lower(name) in ["role", "roles"] }

  predicate RefersToUsers(e: Entity) {
    exists i :: 0 <= i < |e.columns| && e.columns[i].references.Some? && IsUsers(Trim(e.columns[i].references.value.entity))
  }

  predicate RefersToRoles(e: Entity) {
    exists i :: 0 <= i < |e.columns| && e.columns[i].references.Some? && IsRoles(Trim(e.columns[i].references.value.entity))
  }

  predicate HasTableOfRoles(db: DatabaseDesign) { exists i :: 0 <= i < |db.entities| && IsRoles(Trim(db.entities[i].name)) }

  /** A pure link table between users and roles, or a many-to-many relation between the two, either way round. */
  predicate LinksManyRoles(db: DatabaseDesign) {
    || (exists i :: 0 <= i < |db.entities| && IsLinkTable(db.entities[i]) && RefersToUsers(db.entities[i]) && RefersToRoles(db.entities[i]))
    || (exists i :: 0 <= i < |db.relations| && db.relations[i].kind == ManyToMany
                    && ((IsUsers(db.relations[i].from) && IsRoles(db.relations[i].to))
                        || (IsUsers(db.relations[i].to) && IsRoles(db.relations[i].from))))
  }

  /** The first users table names one role: in a column called so, or by a key to the roles. */
  predicate NamesOneRole(db: DatabaseDesign) {
    exists i :: 0 <= i < |db.entities| && IsUsers(Trim(db.entities[i].name))
                && (forall j :: 0 <= j < i ==> !IsUsers(Trim(db.entities[j].name)))
                && (RefersToRoles(db.entities[i])
                    || exists k :: 0 <= k < |db.entities[i].columns| && Lower(db.entities[i].columns[k].name) == "role_id")
  }

  lemma TableNames(name: string)
    ensures IsUsersTable(name) <==> IsUsers(name)
    ensures IsRolesTable(name) <==> IsRoles(name)
  {
  }

  lemma References(e: Entity)
    ensures LinksUsers(e) <==> RefersToUsers(e)
    ensures LinksRoles(e) <==> RefersToRoles(e)
  {
    hide IsUsersTable, IsRolesTable, IsUsers, IsRoles, Trim;
    forall name ensures (IsUsersTable(name) <==> IsUsers(name)) && (IsRolesTable(name) <==> IsRoles(name)) {
      TableNames(name);
    }
  }

  lemma {:induction false} FirstUsersIs(es: seq<Entity>, i: nat)
    requires i < |es| && IsUsers(Trim(es[i].name)) && forall j :: 0 <= j < i ==> !IsUsers(Trim(es[j].name))
    ensures FirstUsersTable(es) == Some(es[i])
  {
    hide Trim, IsUsers, IsUsersTable;
    TableNames(Trim(es[0].name));
    if i > 0 {
      assert forall j :: 0 <= j < |es[1..]| ==> es[1..][j] == es[j + 1];
      FirstUsersIs(es[1..], i - 1);
    }
  }

  lemma {:induction false} HasFirstUsers(es: seq<Entity>) returns (i: nat)
    requires FirstUsersTable(es).Some?
    ensures i < |es| && IsUsers(Trim(es[i].name)) && forall j :: 0 <= j < i ==> !IsUsers(Trim(es[j].name))
  {
    hide Trim, IsUsers, IsUsersTable;
    TableNames(Trim(es[0].name));
    if IsUsers(Trim(es[0].name)) {
      i := 0;
    } else {
      var k := HasFirstUsers(es[1..]);
      i := k + 1;
      forall j | 0 <= j < i ensures !IsUsers(Trim(es[j].name)) {
        if j > 0 { assert es[j] == es[1..][j - 1]; }
      }
    }
  }

  lemma JunctionsAreLinks(db: DatabaseDesign)
    ensures HasRolesTable(db) <==> HasTableOfRoles(db)
    ensures HasRoleJunction(db) || HasRoleRelation(db) <==> LinksManyRoles(db)
  {
    hide IsUsersTable, IsRolesTable, IsUsers, IsRoles, Trim, IsLinkTable, RestApi.IsJunctionEntity;
    hide LinksUsers, LinksRoles, RefersToUsers, RefersToRoles;
    forall name ensures (IsUsersTable(name) <==> IsUsers(name)) && (IsRolesTable(name) <==> IsRoles(name)) {
      TableNames(name);
    }
    forall e ensures (LinksUsers(e) <==> RefersToUsers(e)) && (LinksRoles(e) <==> RefersToRoles(e))
             ensures RestApi.IsJunctionEntity(e) <==> IsLinkTable(e) {
      References(e);
      LinkTableIff(e);
    }
  }

  lemma OneRoleIff(db: DatabaseDesign)
    ensures FirstUsersTable(db.entities).Some? && HasRoleKey(FirstUsersTable(db.entities).value) <==> NamesOneRole(db)
  {
    hide Trim, IsUsers, LinksRoles, RefersToRoles, FirstUsersTable, Lower;
    if FirstUsersTable(db.entities).Some? {
      var i := HasFirstUsers(db.entities);
      FirstUsersIs(db.entities, i);
      References(db.entities[i]);
    }
    if NamesOneRole(db) {
      var i :| 0 <= i < |db.entities| && IsUsers(Trim(db.entities[i].name)) && (forall j :: 0 <= j < i ==> !IsUsers(Trim(db.entities[j].name)))
               && (RefersToRoles(db.entities[i])
                   || exists k :: 0 <= k < |db.entities[i].columns| && Lower(db.entities[i].columns[k].name) == "role_id");
      FirstUsersIs(db.entities, i);
      References(db.entities[i]);
    }
  }

  /** Without a table of roles nothing is said; with one, a link makes them many, and otherwise a role named
      by the users table makes it one. */
  lemma CardinalityIs(db: DatabaseDesign)
    ensures UserRoleCardinality(db) ==
              if !HasTableOfRoles(db) then None
              else if LinksManyRoles(db) then Some(ManyRoles)
              else if NamesOneRole(db) then Some(SingleRole)
              else None
  {
    hide HasRolesTable, HasTableOfRoles, HasRoleJunction, HasRoleRelation, LinksManyRoles, NamesOneRole, FirstUsersTable, HasRoleKey;
    JunctionsAreLinks(db);
    OneRoleIff(db);
  }

  // ---------- the repair ----------

  /** The group owns users: it claims them, is named after them, or lives below a `users` segment. */
  predicate OwnsUsers(m: ApiModule) {
    || (exists i :: 0 <= i < |m.Claims()| && IsUsers(Trim(m.Claims()[i])))
    || (exists k :: 0 <= k <= |m.name| && StandsAt(Lower(m.name), "users", k))
    || HasLaterSegment(Lower(m.basePath), "users")
  }

  lemma OwnsUsersIff(m: ApiModule)
    ensures CoversUsers(m) <==> OwnsUsers(m)
  {
    hide Trim, Split, Contains, StandsAt, HasLaterSegment, IsUsers, IsUsersTable;
    forall name ensures IsUsersTable(name) <==> IsUsers(name) {
      TableNames(name);
    }
    ContainsIff(Lower(m.name), "users");
    LowerSplits(m.basePath);
    SegmentIff(Lower(m.basePath), "users");
  }

  /** A field as the repair leaves it: a single role id becomes a list of them, any other stays. */
  predicate IsRepaired(before: SchemaField, after: SchemaField) {
    after == if Lower(before.name) == "role_id" then SchemaField("role_ids", "array", before.required) else before
  }

  predicate AreRepaired(before: seq<SchemaField>, after: seq<SchemaField>) {
    |after| == |before| && forall i :: 0 <= i < |before| ==> IsRepaired(before[i], after[i])
  }

  predicate IsRepairedEndpoint(before: ApiEndpoint, after: ApiEndpoint) {
    && after == before.(requestSchema := after.requestSchema, responseSchema := after.responseSchema)
    && AreRepaired(before.requestSchema, after.requestSchema) && AreRepaired(before.responseSchema, after.responseSchema)
  }

  /** Under many roles every field of every group that owns users is repaired, in and out; all else stays. */
  lemma RepairIsWrittenOut(d: ApiDesign, db: DatabaseDesign, i: nat)
    requires i < |d.modules|
    ensures var after := EnforceRoleCardinality(d, db);
            && after == d.(modules := after.modules) && |after.modules| == |d.modules|
            && var m, n := d.modules[i], after.modules[i];
               if HasTableOfRoles(db) && LinksManyRoles(db) && OwnsUsers(m)
               then && n == m.(endpoints := n.endpoints) && |n.endpoints| == |m.endpoints|
                    && forall j :: 0 <= j < |m.endpoints| ==> IsRepairedEndpoint(m.endpoints[j], n.endpoints[j])
               else n == m
  {
    hide HasTableOfRoles, LinksManyRoles, OwnsUsers, CoversUsers, UserRoleCardinality, NamesOneRole, Lower;
    CardinalityIs(db);
    OwnsUsersIff(d.modules[i]);
  }
}
