/** The query parameters of a list endpoint, written out: what the columns give reason to offer. */
module QueryOffers {
  import opened Text
  import opened Collections
  import opened Schema
  import opened RestApi

  lemma FindCons(first: Column, rest: seq<Column>, test: Column -> bool)
    ensures FindColumn([first] + rest, test) == if test(first) then Some(first) else FindColumn(rest, test)
  {
    assert ([first] + rest)[1..] == rest;
  }

  /** Neither the id, nor a time stamp the server keeps, nor the stored password. */
  predicate IsClientColumn(c: Column) {
    Lower(c.name) != "id" && Lower(c.name) != "created_at" && Lower(c.name) != "updated_at" && Lower(c.name) != "password_hash"
  }

  lemma OwnedIff(c: Column)
    ensures IsServerManaged(c.name) <==> !IsClientColumn(c)
  {
  }

  // ---------- the query of a list ----------

  /** Free text a search may look into. */
  predicate IsFreeText(c: Column) {
    && Fold(c.columnType) in ["string", "text", "varchar", "char"]
    && (c.references.None? || c.references.value.entity == "")
    && IsClientColumn(c)
    && !Contains(Lower(c.name), "password") && !Contains(Lower(c.name), "secret") && !Contains(Lower(c.name), "token")
    && !Contains(Lower(c.name), "hash") && !Contains(Lower(c.name), "salt")
  }

  predicate IsLifecycle(c: Column) {
    Lower(c.name) in ["status", "state"] || EndsWith(Lower(c.name), "_status") || EndsWith(Lower(c.name), "_state")
  }

  predicate IsKey(c: Column) { c.references.Some? && c.references.value.entity != "" }

  function First(cs: seq<Column>): Option<Column> {
    if cs == [] then None else Some(cs[0])
  }

  /** The column a list is narrowed in time by: `created_at`, else the first time stamp, else the first date. */
  function TimeColumn(cs: seq<Column>): Option<Column> {
    var created := Kept(cs, (c: Column) => Lower(c.name) == "created_at");
    var stamped := Kept(cs, (c: Column) => "timestamp" <= Fold(c.columnType));
    if created != [] then First(created)
    else if stamped != [] then First(stamped)
    else First(Kept(cs, (c: Column) => Fold(c.columnType) == "date"))
  }

  function TimeBounds(c: Column): seq<SchemaField> {
    var stem := if EndsWith(Lower(c.name), "_at") then c.name[..|c.name| - 3] else c.name;
    [SchemaField(stem + "_from", "string", false), SchemaField(stem + "_to", "string", false)]
  }

  function Filter(c: Column): SchemaField { SchemaField(c.name, c.columnType, false) }

  function Filters(cs: seq<Column>, n: nat): (r: seq<SchemaField>)
    requires n <= |cs|
  {
    seq(n, i requires 0 <= i < n => Filter(cs[i]))
  }

  function PageOffers(): seq<SchemaField> {
    [SchemaField("page", "integer", false), SchemaField("limit", "integer", false)]
  }

  function SearchOffers(e: Entity, demand: ListQueryDemand): seq<SchemaField> {
    if demand.search && Kept(e.columns, (c: Column) => IsFreeText(c)) != [] then [SchemaField("search", "string", false)] else []
  }

  function StateOffers(e: Entity, demand: ListQueryDemand): seq<SchemaField> {
    var states := Kept(e.columns, (c: Column) => IsLifecycle(c));
    if demand.status && states != [] then [Filter(states[0])] else []
  }

  function TimeOffers(e: Entity, demand: ListQueryDemand): seq<SchemaField> {
    if demand.dateRange && TimeColumn(e.columns).Some? then TimeBounds(TimeColumn(e.columns).value) else []
  }

  /** What the columns give reason to offer, in order: pagination, free text, the lifecycle state, a
      range in time, and so many of the foreign keys. */
  function Offers(e: Entity, demand: ListQueryDemand): seq<SchemaField> {
    var keys := Kept(e.columns, (c: Column) => IsKey(c));
    PageOffers() + SearchOffers(e, demand) + StateOffers(e, demand) + TimeOffers(e, demand)
    + Filters(keys, if demand.maxFkFilters < |keys| then demand.maxFkFilters else |keys|)
  }

  predicate IsNewName(offers: seq<SchemaField>, i: nat)
    requires i < |offers|
  {
    forall j :: 0 <= j < i ==> offers[j].name != offers[i].name
  }

  /** The offers without those whose name was offered before. */
  function NamedOnce(offers: seq<SchemaField>): seq<SchemaField> {
    if offers == [] then []
    else
      var last := |offers| - 1;
      NamedOnce(offers[..last]) + (if IsNewName(offers, last) then [offers[last]] else [])
  }

  lemma {:induction false} NamedOnceNames(offers: seq<SchemaField>, name: string)
    ensures HasName(NamedOnce(offers), name) <==> HasName(offers, name)
  {
    if offers != [] {
      var front, last := offers[..|offers| - 1], offers[|offers| - 1];
      NamedOnceNames(front, name);
      var once, before := NamedOnce(offers), NamedOnce(front);
      if HasName(before, name) {
        var i :| 0 <= i < |before| && before[i].name == name;
        assert once[i].name == name;
        var j :| 0 <= j < |front| && front[j].name == name;
        assert offers[j].name == name;
      } else if last.name == name {
        forall j | 0 <= j < |front| ensures front[j].name != name {
          assert !HasName(front, name);
        }
        assert once[|before|].name == name;
        assert offers[|front|].name == name;
      }
      forall j | 0 <= j < |front| ensures offers[j] == front[j] {
      }
    }
  }

  lemma PushIsOffer(offers: seq<SchemaField>, name: string, fieldType: string)
    ensures PushField(NamedOnce(offers), name, fieldType) == NamedOnce(offers + [SchemaField(name, fieldType, false)])
  {
    NamedOnceNames(offers, name);
    var all := offers + [SchemaField(name, fieldType, false)];
    assert all[..|all| - 1] == offers;
    assert IsNewName(all, |all| - 1) <==> !HasName(offers, name);
  }

  lemma {:induction false} PushesAreOffers(offers: seq<SchemaField>, keys: seq<Column>, n: nat)
    requires n <= |keys|
    ensures PushFks(NamedOnce(offers), keys, n) == NamedOnce(offers + Filters(keys, n))
  {
    hide NamedOnce;
    if n == 0 {
      assert offers + Filters(keys, 0) == offers;
    } else {
      PushesAreOffers(offers, keys, n - 1);
      PushIsOffer(offers + Filters(keys, n - 1), keys[n - 1].name, keys[n - 1].columnType);
      assert offers + Filters(keys, n) == offers + Filters(keys, n - 1) + [Filter(keys[n - 1])];
    }
  }

  lemma FirstKept(cs: seq<Column>, test: Column -> bool, keep: Column -> bool)
    requires forall c :: test(c) <==> keep(c)
    ensures FindColumn(cs, test) == First(Kept(cs, keep))
  {
    if cs != [] {
      FirstKept(cs[1..], test, keep);
      KeptCons(cs[0], cs[1..], keep);
      assert [cs[0]] + cs[1..] == cs;
    }
  }

  lemma {:induction false} KeysAreKept(cs: seq<Column>)
    ensures ForeignKeys(cs) == Kept(cs, (c: Column) => IsKey(c))
  {
    if cs != [] {
      KeysAreKept(cs[1..]);
    }
  }

  lemma SearchableIff(c: Column)
    ensures IsSearchable(c) <==> IsFreeText(c)
  {
    hide Lower, Fold, Contains;
    var parts: seq<string> := ["password", "secret", "token", "hash", "salt"];
    assert ContainsAny(Lower(c.name), parts) <==>
      Contains(Lower(c.name), parts[0]) || Contains(Lower(c.name), parts[1]) || Contains(Lower(c.name), parts[2])
      || Contains(Lower(c.name), parts[3]) || Contains(Lower(c.name), parts[4]);
  }

  lemma StatusIff(c: Column)
    ensures IsStatusColumn(c) <==> IsLifecycle(c)
  {
    hide Lower, EndsWith;
  }

  lemma TimeColumnIs(cs: seq<Column>)
    ensures DateColumn(cs) == TimeColumn(cs)
  {
    hide Lower, Fold;
    FirstKept(cs, (c: Column) => Lower(c.name) == "created_at", (c: Column) => Lower(c.name) == "created_at");
    FirstKept(cs, (c: Column) => "timestamp" <= Fold(c.columnType), (c: Column) => "timestamp" <= Fold(c.columnType));
    FirstKept(cs, (c: Column) => Fold(c.columnType) == "date", (c: Column) => Fold(c.columnType) == "date");
  }

  lemma NamedOncePagination()
    ensures NamedOnce(PageOffers()) == PAGINATION
  {
    var page, limit := SchemaField("page", "integer", false), SchemaField("limit", "integer", false);
    assert [page, limit][..1] == [page] && [page][..0] == [];
    assert NamedOnce([page]) == [page];
    assert IsNewName([page, limit], 1);
  }

  lemma SearchAndStatusAreOffers(e: Entity, demand: ListQueryDemand)
    ensures SearchAndStatus(e, demand) == NamedOnce(PageOffers() + SearchOffers(e, demand) + StateOffers(e, demand))
  {
    hide NamedOnce, IsSearchable, IsFreeText, IsStatusColumn, IsLifecycle, HasName, PushField;
    forall c ensures IsSearchable(c) <==> IsFreeText(c) {
      SearchableIff(c);
    }
    forall c ensures IsStatusColumn(c) <==> IsLifecycle(c) {
      StatusIff(c);
    }
    FirstKept(e.columns, c => IsSearchable(c), (c: Column) => IsFreeText(c));
    FirstKept(e.columns, c => IsStatusColumn(c), (c: Column) => IsLifecycle(c));
    NamedOncePagination();
    var found := PageOffers() + SearchOffers(e, demand);
    PushIsOffer(PageOffers(), "search", "string");
    assert SearchOffers(e, demand) == [] ==> found == PageOffers();
    var status := FindColumn(e.columns, c => IsStatusColumn(c));
    if demand.status && status.Some? {
      PushIsOffer(found, status.value.name, status.value.columnType);
    } else {
      assert found + StateOffers(e, demand) == found;
    }
  }

  lemma DateBoundsAreOffers(offers: seq<SchemaField>, e: Entity, demand: ListQueryDemand)
    ensures DateBounds(NamedOnce(offers), e, demand) == NamedOnce(offers + TimeOffers(e, demand))
  {
    hide NamedOnce, TimeColumn, DateColumn, PushField, EndsWith, Lower;
    TimeColumnIs(e.columns);
    if demand.dateRange && TimeColumn(e.columns).Some? {
      var base := DateBase(TimeColumn(e.columns).value.name);
      PushIsOffer(offers, base + "_from", "string");
      PushIsOffer(offers + [SchemaField(base + "_from", "string", false)], base + "_to", "string");
      assert offers + TimeOffers(e, demand)
          == offers + [SchemaField(base + "_from", "string", false)] + [SchemaField(base + "_to", "string", false)];
    } else {
      assert offers + TimeOffers(e, demand) == offers;
    }
  }

  /** The documented query of a list is exactly what its columns give reason to offer, each name once. */
  lemma QueryIsOffers(e: Entity, demand: ListQueryDemand)
    ensures QueryParams(e, demand) == NamedOnce(Offers(e, demand))
  {
    hide NamedOnce, SearchOffers, StateOffers, TimeOffers, SearchAndStatus, DateBounds, ForeignKeys;
    var offers := PageOffers() + SearchOffers(e, demand) + StateOffers(e, demand);
    SearchAndStatusAreOffers(e, demand);
    DateBoundsAreOffers(offers, e, demand);
    KeysAreKept(e.columns);
    var keys := ForeignKeys(e.columns);
    PushesAreOffers(offers + TimeOffers(e, demand), keys, AtMost(demand.maxFkFilters, |keys|));
  }
}
