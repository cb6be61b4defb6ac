/** Which tables are logs nobody asked for, and exactly which of them are removed. */
module LogTables {
  import opened Text
  import opened Collections
  import opened Schema
  import opened SupportTables

  // ---------- names of logs ----------

  /** Tables that record what happened: some of them in both numbers. */
  predicate IsAuditName(low: string) {
    || IsEither(low, "audit_log") || IsEither(low, "audit_trail") || IsEither(low, "activity_log") || IsEither(low, "change_log")
    || IsEither(low, "changelog") || IsEither(low, "event_log") || IsEither(low, "system_log") || IsEither(low, "access_log")
    || IsEither(low, "history_log") || low == "audit_entries" || low == "activity_feed"
  }

  /** Tables that record what was delivered. */
  predicate IsDeliveryName(low: string) {
    || IsEither(low, "notification_log") || IsEither(low, "message_log") || IsEither(low, "email_log") || IsEither(low, "sms_log")
    || IsEither(low, "delivery_log") || IsEither(low, "delivery_receipt")
    || low == "notification_deliveries" || low == "notification_history"
  }

  /** The noun, or its plural in `s`. */
  predicate IsEither(low: string, noun: string) { low == noun || low == noun + "s" }

  lemma AuditIff(low: string)
    ensures low in AUDIT_TABLES <==> IsAuditName(low)
  {
    var a: seq<string> := ["audit_log", "audit_logs", "audit_trail", "audit_trails", "audit_entries", "activity_log", "activity_logs"];
    var b: seq<string> := ["activity_feed", "change_log", "change_logs", "changelog", "changelogs", "event_log", "event_logs"];
    var c: seq<string> := ["system_log", "system_logs", "access_log", "access_logs", "history_log", "history_logs"];
    assert AUDIT_TABLES == a + b + c;
    assert "audit_log" + "s" == a[1] && "audit_trail" + "s" == a[3] && "activity_log" + "s" == a[6];
    assert "change_log" + "s" == b[2] && "changelog" + "s" == b[4] && "event_log" + "s" == b[6];
    assert "system_log" + "s" == c[1] && "access_log" + "s" == c[3] && "history_log" + "s" == c[5];
    assert low in a <==> IsEither(low, "audit_log") || IsEither(low, "audit_trail") || low == "audit_entries" || IsEither(low, "activity_log");
    assert low in b <==> low == "activity_feed" || IsEither(low, "change_log") || IsEither(low, "changelog") || IsEither(low, "event_log");
    assert low in c <==> IsEither(low, "system_log") || IsEither(low, "access_log") || IsEither(low, "history_log");
  }

  lemma DeliveryIff(low: string)
    ensures low in DELIVERY_TABLES <==> IsDeliveryName(low)
  {
    var a: seq<string> := ["notification_log", "notification_logs", "notification_deliveries", "notification_history"];
    var b: seq<string> := ["message_log", "message_logs", "email_log", "email_logs", "sms_log", "sms_logs"];
    var c: seq<string> := ["delivery_log", "delivery_logs", "delivery_receipt", "delivery_receipts"];
    assert DELIVERY_TABLES == a + b + c;
    assert "notification_log" + "s" == a[1];
    assert "message_log" + "s" == b[1] && "email_log" + "s" == b[3] && "sms_log" + "s" == b[5];
    assert "delivery_log" + "s" == c[1] && "delivery_receipt" + "s" == c[3];
    assert low in b <==> IsEither(low, "message_log") || IsEither(low, "email_log") || IsEither(low, "sms_log");
    assert low in c <==> IsEither(low, "delivery_log") || IsEither(low, "delivery_receipt");
  }

  /** The requirements ask for neither kind of log the name stands for. */
  predicate IsUnasked(name: string, demand: LogDemand) {
    || (IsAuditName(Lower(name)) && !demand.audit)
    || (IsDeliveryName(Lower(name)) && !demand.delivery)
  }

  lemma UnaskedIff(name: string, demand: LogDemand)
    ensures IsUnrequested(name, demand) <==> IsUnasked(name, demand)
  {
    hide Lower, IsAuditName, IsDeliveryName;
    AuditIff(Lower(name));
    DeliveryIff(Lower(name));
  }

  // ---------- which are removed ----------

  predicate ReferencesTable(e: Entity, name: string) {
    exists j :: 0 <= j < |e.columns| && e.columns[j].references.Some? && e.columns[j].references.value.entity == name
  }

  /** Some table up to `n` that is not to be removed when its turn comes hangs off this one. */
  predicate IsSaved(start: seq<string>, es: seq<Entity>, name: string, n: nat)
    requires n <= |es|
  {
    exists i :: 0 <= i < n && es[i].name !in Doomed(start, es[..i]) && ReferencesTable(es[i], name)
  }

  lemma {:induction false} CandidateIff(es: seq<Entity>, demand: LogDemand, x: string)
    ensures x in Candidates(es, demand) <==> exists i :: 0 <= i < |es| && Trim(es[i].name) == x && IsUnasked(x, demand)
  {
    hide Trim, IsUnrequested, IsUnasked;
    if es != [] {
      var front, last := es[..|es| - 1], Trim(es[|es| - 1].name);
      CandidateIff(front, demand, x);
      UnaskedIff(last, demand);
      if i :| 0 <= i < |front| && Trim(front[i].name) == x && IsUnasked(x, demand) {
        assert es[i] == front[i];
      }
      if i :| 0 <= i < |es| && Trim(es[i].name) == x && IsUnasked(x, demand) {
        if i < |front| { assert front[i] == es[i]; }
      }
    }
  }

  lemma {:induction false} DoomedIff(start: seq<string>, es: seq<Entity>, n: nat, x: string)
    requires n <= |es|
    ensures x in Doomed(start, es[..n]) <==> x in start && !IsSaved(start, es, x, n)
  {
    if n == 0 {
      assert es[..0] == [];
    } else {
      DoomedIff(start, es, n - 1, x);
      var before, e := Doomed(start, es[..n - 1]), es[n - 1];
      assert es[..n][..n - 1] == es[..n - 1] && es[..n][|es[..n]| - 1] == e;
      SpareShrinks(before, e.columns);
      assert Doomed(start, es[..n]) == if e.name in before then before else SpareTargets(before, e.columns);
      SavedStep(start, es, x, n);
    }
  }

  lemma SavedStep(start: seq<string>, es: seq<Entity>, x: string, n: nat)
    requires 0 < n <= |es|
    ensures IsSaved(start, es, x, n) <==>
              IsSaved(start, es, x, n - 1) || (es[n - 1].name !in Doomed(start, es[..n - 1]) && ReferencesTable(es[n - 1], x))
  {
    hide Doomed, ReferencesTable;
  }

  /** Removed are exactly the unasked logs that no table saves. */
  lemma RemovalIsWrittenOut(d: DatabaseDesign, demand: LogDemand, x: string)
    ensures x in DoomedTables(d, demand) <==>
              && (exists i :: 0 <= i < |d.entities| && Trim(d.entities[i].name) == x && IsUnasked(x, demand))
              && !IsSaved(Candidates(d.entities, demand), d.entities, x, |d.entities|)
  {
    hide Doomed, Candidates, IsUnasked, IsSaved, Trim;
    CandidateIff(d.entities, demand, x);
    DoomedIff(Candidates(d.entities, demand), d.entities, |d.entities|, x);
    assert d.entities[..|d.entities|] == d.entities;
  }

  lemma {:induction false} ColumnsLeft(cs: seq<Column>, doomed: seq<string>)
    ensures SurvivingColumns(cs, doomed) == Kept(cs, (c: Column) => c.references.None? || c.references.value.entity !in doomed)
  {
    if cs != [] {
      ColumnsLeft(cs[1..], doomed);
    }
  }

  lemma {:induction false} RelationsLeft(rs: seq<Relation>, doomed: seq<string>)
    ensures SurvivingRelations(rs, doomed) == Kept(rs, (r: Relation) => r.from !in doomed && r.to !in doomed)
  {
    if rs != [] {
      RelationsLeft(rs[1..], doomed);
    }
  }

  /** The table as it is left: without its keys to what is removed. */
  predicate IsLeft(before: Entity, after: Entity, doomed: seq<string>) {
    after == Entity(before.name, before.description,
                    Kept(before.columns, (c: Column) => c.references.None? || c.references.value.entity !in doomed))
  }

  lemma {:induction false} TablesLeft(es: seq<Entity>, doomed: seq<string>)
    ensures var left, kept := Survivors(es, doomed), Kept(es, (e: Entity) => e.name !in doomed);
            |left| == |kept| && forall i :: 0 <= i < |left| ==> IsLeft(kept[i], left[i], doomed)
  {
    hide SurvivingColumns, IsLeft;
    if es != [] {
      TablesLeft(es[1..], doomed);
      FirstIsLeft(es[0], doomed);
    }
  }

  lemma FirstIsLeft(e: Entity, doomed: seq<string>)
    ensures IsLeft(e, e.(columns := SurvivingColumns(e.columns, doomed)), doomed)
  {
    ColumnsLeft(e.columns, doomed);
  }

  /** What is left is every table that is not removed, in order and without its keys to the removed ones, and
      every relation that touches none of them. */
  lemma RestIsWrittenOut(d: DatabaseDesign, demand: LogDemand)
    ensures var after, doomed := StrippedSupport(d, demand), DoomedTables(d, demand);
            var kept := Kept(d.entities, (e: Entity) => e.name !in doomed);
            && after.databaseType == d.databaseType
            && |after.entities| == |kept| && (forall i :: 0 <= i < |kept| ==> IsLeft(kept[i], after.entities[i], doomed))
            && after.relations == Kept(d.relations, (r: Relation) => r.from !in doomed && r.to !in doomed)
  {
    hide DoomedTables, IsLeft, Survivors, SurvivingRelations;
    var doomed := DoomedTables(d, demand);
    TablesLeft(d.entities, doomed);
    RelationsLeft(d.relations, doomed);
    if doomed == [] {
      EverythingKept(d.entities, (e: Entity) => e.name !in doomed);
      EverythingKept(d.relations, (r: Relation) => r.from !in doomed && r.to !in doomed);
      forall i | 0 <= i < |d.entities| ensures IsLeft(d.entities[i], d.entities[i], doomed) {
        NothingGone(d.entities[i], doomed);
      }
    }
  }

  lemma NothingGone(e: Entity, doomed: seq<string>)
    requires doomed == []
    ensures IsLeft(e, e, doomed)
  {
    EverythingKept(e.columns, (c: Column) => c.references.None? || c.references.value.entity !in doomed);
  }
}
