/** Log-style support tables, only when the requirements ask for them. */
module SupportTables {
  import opened Text
  import opened Collections
  import opened Schema

  /** Whether the requirements call for an audit trail, and for delivery tracking. */
  datatype LogDemand = LogDemand(audit: bool, delivery: bool)

  const AUDIT_TABLES: seq<string> := [
    "audit_log", "audit_logs", "audit_trail", "audit_trails", "audit_entries", "activity_log", "activity_logs",
    "activity_feed", "change_log", "change_logs", "changelog", "changelogs", "event_log", "event_logs",
    "system_log", "system_logs", "access_log", "access_logs", "history_log", "history_logs"]

  const DELIVERY_TABLES: seq<string> := [
    "notification_log", "notification_logs", "notification_deliveries", "notification_history",
    "message_log", "message_logs", "email_log", "email_logs", "sms_log", "sms_logs",
    "delivery_log", "delivery_logs", "delivery_receipt", "delivery_receipts"]

  /** A log table nobody asked for. */
  predicate IsUnrequested(name: string, demand: LogDemand) {
    || (!demand.audit && Lower(name) in AUDIT_TABLES)
    || (!demand.delivery && Lower(name) in DELIVERY_TABLES)
  }

  /** The candidates for removal, in order. */
  function Candidates(es: seq<Entity>, demand: LogDemand): seq<string> {
    if es == [] then []
    else
      var before, name := Candidates(es[..|es| - 1], demand), Trim(es[|es| - 1].name);
      if IsUnrequested(name, demand) then AddNew(before, name) else before
  }

  function Without(s: seq<string>, x: string): (r: seq<string>)
    ensures forall y :: y in r <==> y in s && y != x
  {
    if s == [] then []
    else (if s[0] == x then [] else [s[0]]) + Without(s[1..], x)
  }

  function SpareTarget(doomed: seq<string>, c: Column): seq<string> {
    if c.references.Some? then Without(doomed, c.references.value.entity) else doomed
  }

  function SpareTargets(doomed: seq<string>, cs: seq<Column>): seq<string> {
    if cs == [] then doomed else SpareTarget(SpareTargets(doomed, cs[..|cs| - 1]), cs[|cs| - 1])
  }

  /** A log table some table hangs off is spared, unless that table is doomed when its turn comes. */
  function Doomed(start: seq<string>, es: seq<Entity>): seq<string> {
    if es == [] then start
    else
      var doomed, e := Doomed(start, es[..|es| - 1]), es[|es| - 1];
      if e.name in doomed then doomed else SpareTargets(doomed, e.columns)
  }

  predicate Dangles(c: Column, doomed: seq<string>) {
    c.references.Some? && c.references.value.entity in doomed
  }

  function SurvivingColumns(cs: seq<Column>, doomed: seq<string>): (r: seq<Column>)
    ensures forall c :: c in r <==> c in cs && !Dangles(c, doomed)
  {
    if cs == [] then [] else (if Dangles(cs[0], doomed) then [] else [cs[0]]) + SurvivingColumns(cs[1..], doomed)
  }

  function Survivors(es: seq<Entity>, doomed: seq<string>): seq<Entity> {
    if es == [] then []
    else (if es[0].name in doomed then [] else [es[0].(columns := SurvivingColumns(es[0].columns, doomed))])
         + Survivors(es[1..], doomed)
  }

  function SurvivingRelations(rs: seq<Relation>, doomed: seq<string>): (r: seq<Relation>)
    ensures forall x :: x in r <==> x in rs && x.from !in doomed && x.to !in doomed
  {
    if rs == [] then []
    else (if rs[0].from in doomed || rs[0].to in doomed then [] else [rs[0]]) + SurvivingRelations(rs[1..], doomed)
  }

  function DoomedTables(d: DatabaseDesign, demand: LogDemand): seq<string> {
    Doomed(Candidates(d.entities, demand), d.entities)
  }

  function StrippedSupport(d: DatabaseDesign, demand: LogDemand): DatabaseDesign {
    var doomed := DoomedTables(d, demand);
    if doomed == [] then d
    else d.(entities := Survivors(d.entities, doomed), relations := SurvivingRelations(d.relations, doomed))
  }

  lemma {:induction false} NothingUnrequested(es: seq<Entity>, demand: LogDemand)
    requires demand.audit && demand.delivery
    ensures Candidates(es, demand) == []
  {
    if es != [] {
      NothingUnrequested(es[..|es| - 1], demand);
    }
  }

  lemma {:induction false} DoomedShrinks(start: seq<string>, es: seq<Entity>)
    ensures forall x :: x in Doomed(start, es) ==> x in start
  {
    if es != [] {
      DoomedShrinks(start, es[..|es| - 1]);
      SpareShrinks(Doomed(start, es[..|es| - 1]), es[|es| - 1].columns);
    }
  }

  lemma {:induction false} SparesNothing(cs: seq<Column>)
    ensures SpareTargets([], cs) == []
  {
    if cs != [] {
      SparesNothing(cs[..|cs| - 1]);
    }
  }

  lemma {:induction false} NothingDoomed(es: seq<Entity>)
    ensures Doomed([], es) == []
  {
    if es != [] {
      NothingDoomed(es[..|es| - 1]);
      SparesNothing(es[|es| - 1].columns);
    }
  }

  lemma {:induction false} SpareShrinks(doomed: seq<string>, cs: seq<Column>)
    ensures forall x :: x in SpareTargets(doomed, cs) <==>
              x in doomed && !exists i :: 0 <= i < |cs| && cs[i].references.Some? && cs[i].references.value.entity == x
  {
    if cs != [] {
      var front := cs[..|cs| - 1];
      SpareShrinks(doomed, front);
      assert SpareTargets(doomed, cs) == SpareTarget(SpareTargets(doomed, front), cs[|cs| - 1]);
      forall x | x in SpareTargets(doomed, cs)
        ensures forall i :: 0 <= i < |cs| && cs[i].references.Some? ==> cs[i].references.value.entity != x
      {
        forall i | 0 <= i < |cs| && cs[i].references.Some? ensures cs[i].references.value.entity != x {
          if i < |front| { assert front[i] == cs[i]; }
        }
      }
    }
  }

  method StripUnrequestedSupportTables(d: DatabaseDesign, demand: LogDemand)
    returns (r: DatabaseDesign, removed: seq<string>)
    ensures r == StrippedSupport(d, demand) && removed == DoomedTables(d, demand)
  {
    hide IsUnrequested, Trim;
    var es := d.entities;
    if demand.audit && demand.delivery {
      NothingUnrequested(es, demand);
      NothingDoomed(es);
      return d, [];
    }
    var doomed: seq<string> := [];
    for i := 0 to |es|
      invariant doomed == Candidates(es[..i], demand)
    {
      assert es[..i + 1][..i] == es[..i];
      if IsUnrequested(Trim(es[i].name), demand) {
        doomed := AddNew(doomed, Trim(es[i].name));
      }
    }
    assert es[..|es|] == es;
    if doomed == [] {
      NothingDoomed(es);
      return d, [];
    }
    doomed := SpareLoadBearing(doomed, es);
    if doomed == [] {
      return d, [];
    }
    r := d.(entities := Survivors(es, doomed), relations := SurvivingRelations(d.relations, doomed));
    removed := doomed;
  }

  method SpareLoadBearing(start: seq<string>, es: seq<Entity>) returns (doomed: seq<string>)
    ensures doomed == Doomed(start, es)
  {
    doomed := start;
    for i := 0 to |es|
      invariant doomed == Doomed(start, es[..i])
    {
      assert es[..i + 1][..i] == es[..i];
      if es[i].name in doomed {
        continue;
      }
      var cs, before := es[i].columns, doomed;
      for j := 0 to |cs|
        invariant doomed == SpareTargets(before, cs[..j])
      {
        assert cs[..j + 1][..j] == cs[..j];
        if cs[j].references.Some? && cs[j].references.value.entity in doomed {
          doomed := Without(doomed, cs[j].references.value.entity);
        } else if cs[j].references.Some? {
          WithoutAbsent(doomed, cs[j].references.value.entity);
        }
      }
      assert cs[..|cs|] == cs;
    }
    assert es[..|es|] == es;
  }

  lemma {:induction false} WithoutAbsent(s: seq<string>, x: string)
    requires x !in s
    ensures Without(s, x) == s
  {
    if s != [] {
      assert s[0] in s;
      WithoutAbsent(s[1..], x);
    }
  }

  // ---------- what removal keeps ----------

  /** A reference from a table that was never a candidate saves its target. */
  lemma {:induction false} ReferencedIsSpared(start: seq<string>, es: seq<Entity>, i: nat, j: nat)
    requires i < |es| && j < |es[i].columns| && es[i].name !in start
    requires es[i].columns[j].references.Some?
    ensures es[i].columns[j].references.value.entity !in Doomed(start, es)
  {
    var front, e := es[..|es| - 1], es[|es| - 1];
    DoomedShrinks(start, front);
    SpareShrinks(Doomed(start, front), e.columns);
    if i < |front| {
      assert front[i] == es[i];
      ReferencedIsSpared(start, front, i, j);
    }
  }

  lemma {:induction false} CleanColumnsSurvive(cs: seq<Column>, doomed: seq<string>)
    requires forall i :: 0 <= i < |cs| ==> !Dangles(cs[i], doomed)
    ensures SurvivingColumns(cs, doomed) == cs
  {
    if cs != [] {
      CleanColumnsSurvive(cs[1..], doomed);
    }
  }

  lemma {:induction false} SurvivorIsListed(es: seq<Entity>, doomed: seq<string>, i: nat)
    requires i < |es| && es[i].name !in doomed
    ensures es[i].(columns := SurvivingColumns(es[i].columns, doomed)) in Survivors(es, doomed)
  {
    if i > 0 {
      SurvivorIsListed(es[1..], doomed, i - 1);
    }
  }

  lemma {:induction false} CandidatesAreLogs(es: seq<Entity>, demand: LogDemand)
    ensures forall x :: x in Candidates(es, demand) ==> IsUnrequested(x, demand)
  {
    hide IsUnrequested;
    if es != [] {
      CandidatesAreLogs(es[..|es| - 1], demand);
    }
  }

  /** Every table that is not an unrequested log keeps all its columns, in order. */
  lemma OtherTablesKeepTheirColumns(d: DatabaseDesign, demand: LogDemand, i: nat)
    requires i < |d.entities| && !IsUnrequested(d.entities[i].name, demand)
    ensures d.entities[i] in StrippedSupport(d, demand).entities
  {
    hide IsUnrequested, Dangles;
    var es, e := d.entities, d.entities[i];
    var start, doomed := Candidates(es, demand), DoomedTables(d, demand);
    CandidatesAreLogs(es, demand);
    DoomedShrinks(start, es);
    forall j | 0 <= j < |e.columns| ensures !Dangles(e.columns[j], doomed) {
      if e.columns[j].references.Some? {
        ReferencedIsSpared(start, es, i, j);
      }
      DanglesIff(e.columns[j], doomed);
    }
    CleanColumnsSurvive(e.columns, doomed);
    SurvivorIsListed(es, doomed, i);
  }

  lemma DanglesIff(c: Column, doomed: seq<string>)
    ensures Dangles(c, doomed) <==> c.references.Some? && c.references.value.entity in doomed
  {
  }

  /** Only unrequested log tables are removed, and none that a table outside the candidates
      references. */
  lemma RemovedAreUnreferencedLogs(d: DatabaseDesign, demand: LogDemand, name: string)
    requires name in DoomedTables(d, demand)
    ensures IsUnrequested(name, demand)
    ensures forall i, j :: 0 <= i < |d.entities| && 0 <= j < |d.entities[i].columns|
              && !IsUnrequested(d.entities[i].name, demand) && d.entities[i].columns[j].references.Some?
              ==> d.entities[i].columns[j].references.value.entity != name
  {
    hide IsUnrequested;
    var start := Candidates(d.entities, demand);
    CandidatesAreLogs(d.entities, demand);
    DoomedShrinks(start, d.entities);
    forall i, j | 0 <= i < |d.entities| && 0 <= j < |d.entities[i].columns|
                  && !IsUnrequested(d.entities[i].name, demand) && d.entities[i].columns[j].references.Some?
      ensures d.entities[i].columns[j].references.value.entity != name
    {
      ReferencedIsSpared(start, d.entities, i, j);
    }
  }

  // ---------- when a survivor references a removed table ----------

  predicate IsReferenced(e: Entity, names: seq<string>) {
    exists j :: 0 <= j < |e.columns| && Dangles(e.columns[j], names)
  }

  /** Some table that stays references one that goes. */
  predicate HasDanglingSurvivor(d: DatabaseDesign, demand: LogDemand) {
    exists i :: 0 <= i < |d.entities| && d.entities[i].name !in DoomedTables(d, demand)
                && IsReferenced(d.entities[i], DoomedTables(d, demand))
  }

  /** The table at `i` is doomed when its turn comes, so its references save nothing; a later table
      saves it, and it references a table nobody saves. */
  predicate IsPassedOver(start: seq<string>, es: seq<Entity>, i: nat)
    requires i < |es|
  {
    es[i].name in Doomed(start, es[..i]) && es[i].name !in Doomed(start, es) && IsReferenced(es[i], Doomed(start, es))
  }

  lemma {:induction false} DoomedOnlyShrinks(start: seq<string>, es: seq<Entity>, i: nat)
    requires i <= |es|
    ensures forall x :: x in Doomed(start, es) ==> x in Doomed(start, es[..i])
  {
    if i == |es| {
      assert es[..i] == es;
    } else {
      var front := es[..|es| - 1];
      assert front[..i] == es[..i];
      DoomedOnlyShrinks(start, front, i);
      SpareShrinks(Doomed(start, front), es[|es| - 1].columns);
    }
  }

  /** A table that is heard saves everything it references. */
  lemma HeardTableSaves(start: seq<string>, es: seq<Entity>, i: nat)
    requires i < |es| && es[i].name !in Doomed(start, es[..i])
    ensures !IsReferenced(es[i], Doomed(start, es))
  {
    assert es[..i + 1][..i] == es[..i];
    SpareShrinks(Doomed(start, es[..i]), es[i].columns);
    DoomedOnlyShrinks(start, es, i + 1);
  }

  lemma PassedOverIff(d: DatabaseDesign, demand: LogDemand, i: nat)
    requires i < |d.entities|
    ensures IsPassedOver(Candidates(d.entities, demand), d.entities, i) <==>
              d.entities[i].name !in DoomedTables(d, demand) && IsReferenced(d.entities[i], DoomedTables(d, demand))
  {
    hide Doomed, Candidates, IsReferenced;
    var start, es := Candidates(d.entities, demand), d.entities;
    if es[i].name !in Doomed(start, es[..i]) {
      HeardTableSaves(start, es, i);
    }
  }

  /** Exactly then does a surviving table reference a removed one: it was passed over while doomed
      and saved afterwards. */
  lemma DanglingSurvivorIff(d: DatabaseDesign, demand: LogDemand)
    ensures HasDanglingSurvivor(d, demand) <==>
              exists i :: 0 <= i < |d.entities| && IsPassedOver(Candidates(d.entities, demand), d.entities, i)
  {
    hide IsPassedOver, DoomedTables, Candidates, IsReferenced;
    if HasDanglingSurvivor(d, demand) {
      var i :| 0 <= i < |d.entities| && d.entities[i].name !in DoomedTables(d, demand)
               && IsReferenced(d.entities[i], DoomedTables(d, demand));
      PassedOverIff(d, demand, i);
    }
    if i :| 0 <= i < |d.entities| && IsPassedOver(Candidates(d.entities, demand), d.entities, i) {
      PassedOverIff(d, demand, i);
    }
  }

  lemma {:induction false} LosesColumnIff(cs: seq<Column>, doomed: seq<string>)
    ensures SurvivingColumns(cs, doomed) == cs <==> !exists j :: 0 <= j < |cs| && Dangles(cs[j], doomed)
    ensures |SurvivingColumns(cs, doomed)| <= |cs|
  {
    hide Dangles;
    if cs != [] {
      LosesColumnIff(cs[1..], doomed);
      assert SurvivingColumns(cs, doomed) == cs ==> SurvivingColumns(cs, doomed)[1..] == cs[1..];
    }
  }

  /** So the column filter has work to do on exactly the tables that were passed over. */
  lemma SurvivorLosesColumnsIff(d: DatabaseDesign, demand: LogDemand, i: nat)
    requires i < |d.entities| && d.entities[i].name !in DoomedTables(d, demand)
    ensures SurvivingColumns(d.entities[i].columns, DoomedTables(d, demand)) != d.entities[i].columns
            <==> IsPassedOver(Candidates(d.entities, demand), d.entities, i)
  {
    hide Doomed, Candidates, Dangles;
    var start, es := Candidates(d.entities, demand), d.entities;
    LosesColumnIff(es[i].columns, DoomedTables(d, demand));
    if es[i].name !in Doomed(start, es[..i]) {
      HeardTableSaves(start, es, i);
    }
  }

  // ---------- a chain of logs ----------

  function LogLink(target: string): Column {
    Column("ref_id", "uuid", true, false, false, Some(Reference(target, "id")))
  }

  /** A spared log can still lose a column: `audit_logs` is passed over while it is doomed, then
      spared for `users`, and its own target is removed. So a surviving table may reference a
      removed one before the columns are filtered. */
  lemma SparedLogLosesItsColumn()
    ensures var audit := Entity("audit_logs", "", [LogLink("event_logs")]);
            var d := DatabaseDesign("PostgreSQL",
              [audit, Entity("event_logs", "", []), Entity("users", "", [LogLink("audit_logs")])], []);
            && DoomedTables(d, LogDemand(false, false)) == ["event_logs"]
            && StrippedSupport(d, LogDemand(false, false)).entities[0] == audit.(columns := [])
  {
    hide Trim, Lower;
    var demand := LogDemand(false, false);
    var audit, events, users := Entity("audit_logs", "", [LogLink("event_logs")]), Entity("event_logs", "", []),
                                Entity("users", "", [LogLink("audit_logs")]);
    var es := [audit, events, users];
    PlainNames();
    assert es[..2] == [audit, events] && es[..2][..1] == [audit] && es[..2][..1][..0] == [];
    assert Candidates([audit], demand) == ["audit_logs"];
    assert Candidates([audit, events], demand) == ["audit_logs", "event_logs"];
    var start := Candidates(es, demand);
    assert start == ["audit_logs", "event_logs"];
    assert Doomed(start, [audit]) == Doomed(start, []) == start;
    assert Doomed(start, [audit, events]) == start;
    assert users.columns[..0] == [];
    assert start[1..] == ["event_logs"] && start[1..][1..] == [];
    assert Without(["event_logs"], "audit_logs") == ["event_logs"] + Without([], "audit_logs");
    assert Without(start, "audit_logs") == ["event_logs"];
    assert SpareTargets(start, users.columns) == SpareTarget(SpareTargets(start, []), users.columns[0]);
    assert Doomed(start, es) == ["event_logs"];
    assert audit.columns[1..] == [];
    assert SurvivingColumns(audit.columns, ["event_logs"]) == [];
  }

  lemma AuditName(name: string, at: nat)
    requires at < |AUDIT_TABLES| && name == AUDIT_TABLES[at] && name != "" && Lower(name) == name
    requires !IsSpace(name[0]) && !IsSpace(name[|name| - 1])
    ensures IsUnrequested(Trim(name), LogDemand(false, false)) && Trim(name) == name
  {
    TrimOfTrimmed(name);
  }

  lemma NoLogStartsWithU(name: string)
    requires name != "" && name[0] == 'u'
    ensures !IsUnrequested(name, LogDemand(false, false))
  {
    assert Lower(name)[0] == 'u';
    assert forall i :: 0 <= i < |AUDIT_TABLES| ==> AUDIT_TABLES[i][0] != 'u';
    assert forall i :: 0 <= i < |DELIVERY_TABLES| ==> DELIVERY_TABLES[i][0] != 'u';
  }

  lemma AuditLogsIsLog()
    ensures IsUnrequested(Trim("audit_logs"), LogDemand(false, false)) && Trim("audit_logs") == "audit_logs"
  {
    hide IsUnrequested, Trim;
    assert Lower("audit_logs") == "audit_logs";
    AuditName("audit_logs", 1);
  }

  lemma EventLogsIsLog()
    ensures IsUnrequested(Trim("event_logs"), LogDemand(false, false)) && Trim("event_logs") == "event_logs"
  {
    hide IsUnrequested, Trim;
    assert Lower("event_logs") == "event_logs";
    AuditName("event_logs", 13);
  }

  lemma PlainNames()
    ensures IsUnrequested(Trim("audit_logs"), LogDemand(false, false)) && Trim("audit_logs") == "audit_logs"
    ensures IsUnrequested(Trim("event_logs"), LogDemand(false, false)) && Trim("event_logs") == "event_logs"
    ensures !IsUnrequested(Trim("users"), LogDemand(false, false)) && Trim("users") == "users"
  {
    hide IsUnrequested, Trim, Lower, AUDIT_TABLES;
    AuditLogsIsLog();
    EventLogsIsLog();
    TrimOfTrimmed("users");
    NoLogStartsWithU("users");
  }
}
