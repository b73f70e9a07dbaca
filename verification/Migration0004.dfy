/** Migration 0004: replace the event table by non-transactional DDL, backfill the stage history
    of payloads that predate embedded stages, and recover from a stop after any durable step. */
module Migration0004 {
  import opened Outcomes
  import opened StageResults
  import opened Identities
  import opened StageHistory
  import opened LedgerTables
  import opened EventLineage
  import StableOrder

  // ---- stored documents ---------------------------------------------------------------

  datatype ResultDoc = ResultDoc(outcome: string, summary: string, keyReasons: seq<string>)

  /** A validated case document with the identities that hashing it yields. */
  datatype CaseDoc = CaseDoc(
    caseId: string, business: string, run: string, fingerprint: string, contract: string, host: string,
    projection: string, expected: ResultDoc, reportGeneratedAt: int, rest: string)

  datatype EventDoc = EventDoc(
    id: EventId, business: string, run: string, frozen: CaseDoc, result: ResultDoc, validation: string,
    corrects: Option<EventId>, stages: Option<seq<StageResult>>, generatedAt: Option<int>)

  datatype ReportDoc = ReportDoc(
    id: ReportId, event: EventId, business: string, run: string, caseId: string, generatedAt: int,
    projection: string, rest: string, result: ResultDoc, stages: Option<seq<StageResult>>)

  datatype Row = Row(
    id: EventId, business: string, run: string, corrects: Option<EventId>,
    payload: Payload<EventDoc>, committedAt: int)

  datatype StoredReport = StoredReport(id: ReportId, event: EventId, payload: Payload<ReportDoc>, generatedAt: int)

  /** What schema inspection tells apart. */
  datatype Schema = Legacy | Canonical | OtherWithLineage | OtherWithoutLineage
  {
    predicate HasLineage() {
      Canonical? || OtherWithLineage?
    }
  }

  datatype Table = Table(schema: Schema, rows: seq<Row>)

  datatype Notifications = Missing | Present(canonical: bool, attempts: nat)

  datatype Database = Database(
    events: Option<Table>, replacement: Option<Table>, stages: History, notifications: Notifications,
    mappings: seq<MappingRow>, reports: seq<StoredReport>)

  /** A table without the lineage column holds no lineage, and the stage ids are bound. */
  ghost predicate WellFormed(d: Database) {
    && (d.events.Some? ==> PlainIfNoLineage(d.events.value))
    && (d.replacement.Some? ==> PlainIfNoLineage(d.replacement.value))
    && (d.events.Some? || d.replacement.Some?)
    && Bound(d.stages)
  }

  ghost predicate PlainIfNoLineage(t: Table) {
    t.schema.HasLineage() || NoCorrections(t.rows)
  }

  predicate NoCorrections(rows: seq<Row>) {
    forall i :: 0 <= i < |rows| ==> rows[i].corrects.None?
  }

  /** `_authoritative_event_table_for_upgrade`. */
  function Authoritative(d: Database): Option<Table> {
    if d.events.Some? then d.events else d.replacement
  }

  // ---- preflight --------------------------------------------------------------------------

  predicate LegalStatus(phase: Phase, status: Status) {
    match phase
    case FrameworkRun =>
      status in {Created, Running, Waiting, Succeeded, Rejected, Status.Failed, Cancelled}
    case HostValidation => status in {Succeeded, Status.Failed}
    case BusinessDecision => status in {Succeeded, Rejected, Abstained, Status.Failed}
    case AdjudicationLifecycle => status in {Pending, Unknown}
    case ValidityLifecycle => status in {Expired, Unknown}
    case ExecutionLifecycle => status in {Status.ExecutionBlocked, Unknown}
    case CommitReconciliation => status == Unknown
    case BusinessCommit => status in {Succeeded, Status.Failed}
    case Publication => status in {Succeeded, Status.Failed, Unknown}
    case Notification => status in {Succeeded, Status.Failed}
    case Correction => status == Succeeded
    case OtherPhase(_) => false
  }

  predicate LegalStage(s: StageResult) {
    && LegalStatus(s.phase, s.status)
    && forall i :: 0 <= i < |s.gates| ==> s.gates[i].status in {"PASSED", "FAILED", "UNKNOWN"}
  }

  /** The embedded stages, or the ones that a stage-less document implies. */
  function StagesOf(stages: Option<seq<StageResult>>, result: ResultDoc): seq<StageResult> {
    if stages.Some? then stages.value
    else LegacyStages(MigrationDecision(result.outcome), result.keyReasons)
  }

  predicate ValidStages(stages: seq<StageResult>) {
    stages != [] && forall i :: 0 <= i < |stages| ==> LegalStage(stages[i])
  }

  predicate HasSuccess(stages: seq<StageResult>, phase: Phase) {
    exists i :: 0 <= i < |stages| && IsSuccess(stages[i], phase)
  }

  /** `_validated_event_fact` and the mapping check of the preflight. */
  predicate ValidEvent(row: Row, mappings: seq<MappingRow>) {
    && row.payload.Json?
    && var doc := row.payload.value;
       var stages := StagesOf(doc.stages, doc.result);
       var m := FindMapping(mappings, row.business);
    && doc.corrects.None?
    && ValidStages(stages)
    && doc.validation == "PASSED"
    && doc.result == doc.frozen.expected
    && HasSuccess(stages, HostValidation)
    && HasSuccess(stages, BusinessCommit)
    && doc.id == row.id && doc.business == row.business && doc.run == row.run
    && doc.frozen.business == row.business
    && doc.frozen.run == row.run
    && (|| row.id == OriginalEvent(row.business, row.run, doc.frozen.contract)
        || row.id == EventId.LegacyEvent(row.business, row.run, doc.frozen.contract, doc.frozen.host))
    && m < |mappings|
    && mappings[m].caseId == doc.frozen.caseId
    && mappings[m].fingerprint == doc.frozen.fingerprint
    && mappings[m].run == doc.run
  }

  /** `_formal_report_payload`: only the first projection contract stores no stages. */
  function ExpectedReport(doc: EventDoc, id: ReportId): ReportDoc {
    ReportDoc(
      id, doc.id, doc.business, doc.run, doc.frozen.caseId,
      if doc.generatedAt.Some? then doc.generatedAt.value else doc.frozen.reportGeneratedAt,
      doc.frozen.projection, doc.frozen.rest, doc.result,
      if doc.frozen.projection == "1.0.0" then None
      else Some(StagesOf(doc.stages, doc.result) + [PUBLISHED]))
  }

  function FindRow(rows: seq<Row>, id: EventId): (i: nat)
    ensures i <= |rows|
    ensures i < |rows| ==> rows[i].id == id
    ensures forall j :: 0 <= j < i ==> rows[j].id != id
  {
    if rows == [] then 0
    else if rows[0].id == id then 0
    else 1 + FindRow(rows[1..], id)
  }

  predicate ValidReport(report: StoredReport, rows: seq<Row>) {
    var i := FindRow(rows, report.event);
    && i < |rows| && rows[i].payload.Json?
    && report.payload.Json?
    && var doc := rows[i].payload.value;
    && report.payload.value == ExpectedReport(doc, report.id)
    && ValidStages(StagesOf(report.payload.value.stages, report.payload.value.result))
    && report.id == ReportVersion(report.event, doc.frozen.projection)
    && report.payload.value.event == report.event
    && report.payload.value.generatedAt == report.generatedAt
  }

  /** `_preflight_legacy_stage_history` on the rows of the authoritative table. */
  predicate Preflight(rows: seq<Row>, mappings: seq<MappingRow>, reports: seq<StoredReport>) {
    && (forall i :: 0 <= i < |rows| ==> ValidEvent(rows[i], mappings))
    && (forall i :: 0 <= i < |reports| ==> ValidReport(reports[i], rows))
  }

  predicate PassesPreflight(d: Database) {
    Authoritative(d).Some? && Preflight(Authoritative(d).value.rows, d.mappings, d.reports)
  }

  /** The phases that each status is legal for. */
  lemma {:induction false} LegalByStatus(phase: Phase, status: Status)
    ensures LegalStatus(phase, status) <==>
      match status
      case Created => phase == FrameworkRun
      case Running => phase == FrameworkRun
      case Waiting => phase == FrameworkRun
      case Cancelled => phase == FrameworkRun
      case Succeeded => phase in {FrameworkRun, HostValidation, BusinessDecision, BusinessCommit, Publication, Notification, Correction}
      case Rejected => phase in {FrameworkRun, BusinessDecision}
      case Failed => phase in {FrameworkRun, HostValidation, BusinessDecision, BusinessCommit, Publication, Notification}
      case Abstained => phase == BusinessDecision
      case Pending => phase == AdjudicationLifecycle
      case Expired => phase == ValidityLifecycle
      case ExecutionBlocked => phase == ExecutionLifecycle
      case Unknown =>
        phase in {AdjudicationLifecycle, ValidityLifecycle, ExecutionLifecycle, CommitReconciliation, Publication}
  {
  }

  /** The stages that a stage-less document implies always pass the stage checks: they are legal, and
      end with a validated and committed result. */
  lemma {:induction false} ImpliedStagesAreValid(result: ResultDoc)
    ensures var stages := StagesOf(None, result);
      && ValidStages(stages) && HasSuccess(stages, HostValidation) && HasSuccess(stages, BusinessCommit)
      && stages[|stages| - 1] == COMMITTED
  {
    var stages := StagesOf(None, result);
    assert 3 <= |stages| <= 4 && stages[|stages| - 1] == COMMITTED;
    assert IsSuccess(stages[1], HostValidation) && IsSuccess(stages[|stages| - 1], BusinessCommit);
  }

  /** What an event that passes preflight is known to be: a validated original whose result is the
      expected one, whose stages are legal and contain a passed validation and a saved commit, whose
      identities are those of its row, and whose mapping names its case, input and Run. */
  lemma {:induction false} PreflightMeans(row: Row, mappings: seq<MappingRow>)
    ensures ValidEvent(row, mappings) <==>
      && row.payload.Json?
      && var doc := row.payload.value; var c := doc.frozen;
      && doc.corrects.None? && doc.validation == "PASSED" && doc.result == c.expected
      && (doc.id, doc.business, doc.run) == (row.id, row.business, row.run) == (row.id, c.business, c.run)
      && row.id in {OriginalEvent(row.business, row.run, c.contract), EventId.LegacyEvent(row.business, row.run, c.contract, c.host)}
      && (doc.stages.Some? ==> StagesPass(doc.stages.value))
      && exists m :: 0 <= m < |mappings| && MapsTo(mappings, m, row.business, c)
  {
    hide ValidStages, HasSuccess, StagesOf;
    if row.payload.Json? {
      var doc := row.payload.value;
      assert doc.stages.None? ==>
        var stages := StagesOf(doc.stages, doc.result);
        ValidStages(stages) && HasSuccess(stages, HostValidation) && HasSuccess(stages, BusinessCommit) by {
        ImpliedStagesAreValid(doc.result);
      }
      assert doc.stages.Some? ==>
        var stages := StagesOf(doc.stages, doc.result);
        (StagesPass(doc.stages.value) <==>
           ValidStages(stages) && HasSuccess(stages, HostValidation) && HasSuccess(stages, BusinessCommit)) by {
        if doc.stages.Some? { StagesPassIff(doc.stages.value, doc.result); }
      }
      var m := FindMapping(mappings, row.business);
      if m < |mappings| {
        assert MapsTo(mappings, m, row.business, doc.frozen) <==>
          mappings[m].caseId == doc.frozen.caseId && mappings[m].fingerprint == doc.frozen.fingerprint
          && mappings[m].run == doc.frozen.run;
      }
    }
  }

  /** The saved mapping of the object names the case, its input and its Run. */
  ghost predicate MapsTo(mappings: seq<MappingRow>, m: int, business: string, c: CaseDoc)
    requires 0 <= m < |mappings|
  {
    && mappings[m].business == business && (forall j :: 0 <= j < m ==> mappings[j].business != business)
    && mappings[m].caseId == c.caseId && mappings[m].fingerprint == c.fingerprint && mappings[m].run == c.run
  }

  ghost predicate GatesPass(gates: seq<Gate>) {
    forall g :: g in gates ==> g.status in {"PASSED", "FAILED", "UNKNOWN"}
  }

  ghost predicate StagesPass(stages: seq<StageResult>) {
    && (forall i :: 0 <= i < |stages| ==> LegalStatus(stages[i].phase, stages[i].status))
    && (forall i :: 0 <= i < |stages| ==> GatesPass(stages[i].gates))
    && (exists i :: 0 <= i < |stages| && stages[i].phase == HostValidation && stages[i].status == Succeeded)
    && (exists i :: 0 <= i < |stages| && stages[i].phase == BusinessCommit && stages[i].status == Succeeded)
  }

  lemma {:induction false} StagesPassIff(stages: seq<StageResult>, result: ResultDoc)
    ensures StagesOf(Some(stages), result) == stages
    ensures StagesPass(stages) <==>
      ValidStages(stages) && HasSuccess(stages, HostValidation) && HasSuccess(stages, BusinessCommit)
  {
    hide LegalStatus;
    forall i | 0 <= i < |stages|
      ensures LegalStage(stages[i]) <==> LegalStatus(stages[i].phase, stages[i].status) && GatesPass(stages[i].gates)
    {
    }
    if StagesPass(stages) {
      var i :| 0 <= i < |stages| && stages[i].phase == HostValidation && stages[i].status == Succeeded;
      var j :| 0 <= j < |stages| && stages[j].phase == BusinessCommit && stages[j].status == Succeeded;
      assert IsSuccess(stages[i], HostValidation) && IsSuccess(stages[j], BusinessCommit);
    }
    if ValidStages(stages) && HasSuccess(stages, HostValidation) && HasSuccess(stages, BusinessCommit) {
      var i :| 0 <= i < |stages| && IsSuccess(stages[i], HostValidation);
      var j :| 0 <= j < |stages| && IsSuccess(stages[j], BusinessCommit);
      assert stages[i].phase == HostValidation && stages[j].phase == BusinessCommit;
    }
  }

  // ---- the content-addressed stage backfill ---------------------------------------------

  datatype Entry = Entry(key: StageKey, at: int)

  /** `_record_legacy_stage_result`. */
  function AppendMissing(h: History, e: Entry): History {
    if HasId(h, Migrated(e.key)) then h else h + [StageRow(Migrated(e.key), e.key, e.at)]
  }

  function AppendAll(h: History, plan: seq<Entry>): History {
    if plan == [] then h
    else AppendMissing(AppendAll(h, plan[..|plan| - 1]), plan[|plan| - 1])
  }

  /** The stages of one event: only its business commit is bound to the event. */
  function StageEntries(row: Row, stages: seq<StageResult>): seq<Entry> {
    seq(|stages|, i requires 0 <= i < |stages| =>
      Entry(StageKey(row.business, row.run, if stages[i].phase == BusinessCommit then Some(row.id) else None, stages[i]),
            row.committedAt))
  }

  function EventEntries(row: Row): seq<Entry> {
    if row.payload.Json? && row.payload.value.stages.None?
    then StageEntries(row, StagesOf(None, row.payload.value.result)) else []
  }

  function ReportEntries(report: StoredReport, rows: seq<Row>): seq<Entry> {
    var i := FindRow(rows, report.event);
    if report.payload.Json? && report.payload.value.stages.None? && i < |rows|
    then [Entry(StageKey(rows[i].business, rows[i].run, Some(report.event), PUBLISHED), report.generatedAt)] else []
  }

  function Flatten(groups: seq<seq<Entry>>): seq<Entry> {
    if groups == [] then [] else Flatten(groups[..|groups| - 1]) + groups[|groups| - 1]
  }

  function EventPlan(rows: seq<Row>): seq<Entry> {
    Flatten(seq(|rows|, i requires 0 <= i < |rows| => EventEntries(rows[i])))
  }

  function ReportPlan(reports: seq<StoredReport>, rows: seq<Row>): seq<Entry> {
    Flatten(seq(|reports|, i requires 0 <= i < |reports| => ReportEntries(reports[i], rows)))
  }

  const CommittedAt: Row -> int := (r: Row) => r.committedAt
  const GeneratedAt: StoredReport -> int := (r: StoredReport) => r.generatedAt

  /** Everything `_append_legacy_stage_history` records, in its order. */
  function Plan(rows: seq<Row>, reports: seq<StoredReport>): seq<Entry> {
    EventPlan(StableOrder.Sort(rows, CommittedAt)) + ReportPlan(StableOrder.Sort(reports, GeneratedAt), rows)
  }

  lemma {:induction false} HasIdAppend(h: History, row: StageRow, id: StageEventId)
    ensures HasId(h + [row], id) <==> HasId(h, id) || row.id == id
  {
    var g := h + [row];
    assert g[|h|] == row;
    assert forall i :: 0 <= i < |h| ==> g[i] == h[i];
  }

  /** The backfill keeps the history bound, only extends it, records every entry, and nothing else. */
  lemma {:induction false} AppendAllEffect(h: History, plan: seq<Entry>)
    requires Bound(h)
    ensures var g := AppendAll(h, plan);
      && Bound(g) && h <= g
      && (forall e :: e in plan ==> HasId(g, Migrated(e.key)))
      && (forall i :: |h| <= i < |g| ==>
            g[i].id == Migrated(g[i].key) && Entry(g[i].key, g[i].recordedAt) in plan)
  {
    if plan != [] {
      var init, last := plan[..|plan| - 1], plan[|plan| - 1];
      AppendAllEffect(h, init);
      var mid := AppendAll(h, init);
      var row := StageRow(Migrated(last.key), last.key, last.at);
      if !HasId(mid, Migrated(last.key)) {
        BoundAppend(mid, row);
      }
      forall e | e in plan
        ensures HasId(AppendAll(h, plan), Migrated(e.key))
      {
        assert plan == init + [last];
        HasIdAppend(mid, row, Migrated(e.key));
      }
      assert Entry(row.key, row.recordedAt) == last && last in plan;
      assert forall e :: e in init ==> e in plan;
    }
  }

  lemma {:induction false} AppendAllConcat(h: History, a: seq<Entry>, b: seq<Entry>)
    ensures AppendAll(h, a + b) == AppendAll(AppendAll(h, a), b)
    decreases |b|
  {
    if b == [] {
      assert a + b == a;
    } else {
      assert (a + b)[..|a + b| - 1] == a + b[..|b| - 1];
      AppendAllConcat(h, a, b[..|b| - 1]);
    }
  }

  lemma {:induction false} AppendAllRecorded(h: History, plan: seq<Entry>)
    requires forall e :: e in plan ==> HasId(h, Migrated(e.key))
    ensures AppendAll(h, plan) == h
  {
    if plan != [] {
      assert plan[|plan| - 1] in plan;
      AppendAllRecorded(h, plan[..|plan| - 1]);
    }
  }

  /** A backfill stopped after any entry and started over yields the same rows, clocks included. */
  lemma {:induction false} AppendAllResumes(h: History, plan: seq<Entry>, k: nat)
    requires Bound(h)
    requires k <= |plan|
    ensures AppendAll(AppendAll(h, plan[..k]), plan) == AppendAll(h, plan)
  {
    var a, b := plan[..k], plan[k..];
    assert plan == a + b;
    AppendAllEffect(h, a);
    var mid := AppendAll(h, a);
    AppendAllConcat(mid, a, b);
    AppendAllRecorded(mid, a);
    AppendAllConcat(h, a, b);
  }

  // ---- the durable steps of an upgrade ---------------------------------------------------

  /** `_repair_interrupted_event_table_replacement`. */
  function Repair(d: Database): Database {
    if d.replacement.None? then d
    else if d.events.Some? then d.(replacement := None)
    else d.(events := d.replacement, replacement := None)
  }

  /** The durable states that replacing the event table by `schema` passes through: created,
      copied, dropped, renamed. */
  function Replacing(d: Database, schema: Schema): seq<Database>
    requires d.events.Some?
  {
    var rows := d.events.value.rows;
    [d.(replacement := Some(Table(schema, []))),
     d.(replacement := Some(Table(schema, rows))),
     d.(events := None, replacement := Some(Table(schema, rows))),
     d.(events := Some(Table(schema, rows)), replacement := None)]
  }

  function Recorded(d: Database, plan: seq<Entry>, k: nat): Database
    requires k <= |plan|
  {
    d.(stages := AppendAll(d.stages, plan[..k]))
  }

  function Lineage(d: Database): seq<Database>
    requires d.events.Some?
  {
    if d.events.value.schema == Canonical then [] else Replacing(d, Canonical)
  }

  function Last(d: Database, states: seq<Database>): Database {
    if states == [] then d else states[|states| - 1]
  }

  function RecordSteps(d: Database, plan: seq<Entry>): seq<Database> {
    seq(|plan|, k requires 0 <= k < |plan| => Recorded(d, plan, k + 1))
  }

  /** The durable states from the initial one on, for a given backfill plan. */
  function Steps(d: Database, plan: seq<Entry>): (states: seq<Database>)
    requires Authoritative(d).Some?
    ensures states != [] && states[0] == d
  {
    var repaired := Repair(d);
    var lineage := Lineage(repaired);
    var replaced := Last(repaired, lineage);
    [d] + (if d.replacement.Some? then [repaired] else []) + lineage
    + RecordSteps(replaced, plan)
    + if d.notifications.Missing?
      then [Recorded(replaced, plan, |plan|).(notifications := Present(true, 0))] else []
  }

  /** Every durable state of one uninterrupted upgrade. A run that is refused by the preflight
      changes nothing; one that meets a foreign notification table stops after the stage history. */
  function UpgradeStates(d: Database): (states: seq<Database>)
    ensures states != [] && states[0] == d
  {
    if PassesPreflight(d) then Steps(d, Plan(Authoritative(d).value.rows, d.reports)) else [d]
  }

  predicate Completes(d: Database) {
    PassesPreflight(d) && (d.notifications.Missing? || d.notifications.canonical)
  }

  function UpgradedBy(d: Database, plan: seq<Entry>): Database
    requires Authoritative(d).Some?
  {
    d.(events := Some(Table(Canonical, Authoritative(d).value.rows)), replacement := None,
       stages := AppendAll(d.stages, plan),
       notifications := if d.notifications.Missing? then Present(true, 0) else d.notifications)
  }

  /** What a completed upgrade leaves behind, said without its steps. */
  function Upgraded(d: Database): Database
    requires Authoritative(d).Some?
  {
    UpgradedBy(d, Plan(Authoritative(d).value.rows, d.reports))
  }

  /** A durable state of the run from `d`: the authoritative table holds every original event
      row, lineage included, and the history is the initial one extended by a prefix of the plan. */
  ghost predicate OnTheWay(d: Database, e: Database, plan: seq<Entry>) {
    && WellFormed(e)
    && Authoritative(e).Some? && Authoritative(d).Some?
    && Authoritative(e).value.rows == Authoritative(d).value.rows
    && e.mappings == d.mappings && e.reports == d.reports
    && (e.notifications == d.notifications || (d.notifications.Missing? && e.notifications == Present(true, 0)))
    && exists k :: IsPrefixOfRun(d, e, plan, k)
  }

  ghost predicate IsPrefixOfRun(d: Database, e: Database, plan: seq<Entry>, k: nat) {
    k <= |plan| && e.stages == AppendAll(d.stages, plan[..k])
  }

  /** The table is replaced before the first stage is recorded. */
  lemma {:induction false} TableStates(d: Database)
    requires WellFormed(d)
    ensures var repaired := Repair(d); var replaced := Last(repaired, Lineage(repaired));
      && replaced == d.(events := Some(Table(Canonical, Authoritative(d).value.rows)), replacement := None)
      && forall e :: e == repaired || e in Lineage(repaired) ==>
           && e.stages == d.stages && e.mappings == d.mappings && e.reports == d.reports
           && e.notifications == d.notifications && WellFormed(e)
           && Authoritative(e).value.rows == Authoritative(d).value.rows
  {
  }

  /** Where each state of a run comes from: the replacement of the table, or its first k records. */
  lemma {:induction false} StepsByPhase(d: Database, plan: seq<Entry>, i: nat)
    requires WellFormed(d)
    requires i < |Steps(d, plan)|
    ensures var e := Steps(d, plan)[i]; var repaired := Repair(d);
      var replaced := Last(repaired, Lineage(repaired));
      || e == d || e == repaired || e in Lineage(repaired)
      || exists k :: 0 <= k <= |plan| && IsRecord(d, replaced, plan, e, k)
  {
    hide AppendAll, Bound, NoCorrections;
    var e := Steps(d, plan)[i];
    var repaired := Repair(d);
    var lineage := Lineage(repaired);
    var before := 1 + (if d.replacement.Some? then 1 else 0) + |lineage|;
    if i < before {
      assert e == d || e == repaired || e in lineage;
    } else {
      var k := if i < before + |plan| then i - before + 1 else |plan|;
      assert IsRecord(d, Last(repaired, lineage), plan, e, k);
    }
  }

  predicate IsRecord(d: Database, replaced: Database, plan: seq<Entry>, e: Database, k: nat)
    requires k <= |plan|
  {
    || e == Recorded(replaced, plan, k)
    || (d.notifications.Missing? && e == Recorded(replaced, plan, k).(notifications := Present(true, 0)))
  }

  lemma {:induction false} RecordIsOnTheWay(d: Database, plan: seq<Entry>, e: Database, k: nat)
    requires WellFormed(d) && k <= |plan|
    requires IsRecord(d, Last(Repair(d), Lineage(Repair(d))), plan, e, k)
    ensures OnTheWay(d, e, plan)
  {
    hide Bound, AppendAll;
    TableStates(d);
    AppendAllEffect(d.stages, plan[..k]);
    assert IsPrefixOfRun(d, e, plan, k);
  }

  lemma {:induction false} StepsStayOnTheWay(d: Database, plan: seq<Entry>, i: nat)
    requires WellFormed(d)
    requires i < |Steps(d, plan)|
    ensures OnTheWay(d, Steps(d, plan)[i], plan)
  {
    hide Steps, IsRecord, Lineage, Bound, NoCorrections;
    var e := Steps(d, plan)[i];
    var replaced := Last(Repair(d), Lineage(Repair(d)));
    StepsByPhase(d, plan, i);
    if k :| 0 <= k <= |plan| && IsRecord(d, replaced, plan, e, k) {
      RecordIsOnTheWay(d, plan, e, k);
    } else {
      TableStates(d);
      assert IsPrefixOfRun(d, e, plan, 0);
    }
  }

  lemma {:induction false} StepsEnd(d: Database, plan: seq<Entry>)
    requires WellFormed(d)
    ensures var states := Steps(d, plan); states[|states| - 1] == UpgradedBy(d, plan)
  {
    TableStates(d);
    assert plan[..|plan|] == plan;
    var repaired := Repair(d);
    var replaced := Last(repaired, Lineage(repaired));
    var steps := RecordSteps(replaced, plan);
    if steps != [] {
      assert steps[|steps| - 1] == Recorded(replaced, plan, |plan|);
    }
  }

  /** At every durable point of an upgrade, also of a refused one, the table chosen as
      authoritative holds every original event row, lineage included. */
  lemma {:induction false} EveryStateIsOnTheWay(d: Database, i: nat)
    requires WellFormed(d)
    requires i < |UpgradeStates(d)|
    ensures OnTheWay(d, UpgradeStates(d)[i], Plan(Authoritative(d).value.rows, d.reports))
  {
    var plan := Plan(Authoritative(d).value.rows, d.reports);
    StepsStayOnTheWay(d, plan, if PassesPreflight(d) then i else 0);
  }

  /** An uninterrupted completed run ends in the upgraded database. */
  lemma {:induction false} CompletedUpgrade(d: Database)
    requires WellFormed(d) && Completes(d)
    ensures var states := UpgradeStates(d); states[|states| - 1] == Upgraded(d)
  {
    StepsEnd(d, Plan(Authoritative(d).value.rows, d.reports));
  }

  /** Resuming from a state on the way gives what the uninterrupted run gives. */
  lemma {:induction false} ResumingAgrees(d: Database, e: Database, plan: seq<Entry>)
    requires WellFormed(d)
    requires OnTheWay(d, e, plan)
    ensures UpgradedBy(e, plan) == UpgradedBy(d, plan)
    ensures PassesPreflight(e) == PassesPreflight(d)
    ensures Completes(d) ==> Completes(e)
  {
    var k :| IsPrefixOfRun(d, e, plan, k);
    AppendAllResumes(d.stages, plan, k);
  }

  /** A refused upgrade changes nothing; one that meets a foreign notification table has done
      everything else. */
  lemma {:induction false} RefusedUpgrade(d: Database)
    requires WellFormed(d) && !Completes(d)
    ensures !PassesPreflight(d) ==> UpgradeStates(d) == [d]
    ensures PassesPreflight(d) ==>
      var states := UpgradeStates(d);
      states[|states| - 1] == Upgraded(d) && Upgraded(d).notifications == d.notifications
  {
    if PassesPreflight(d) {
      StepsEnd(d, Plan(Authoritative(d).value.rows, d.reports));
    }
  }

  /** The states that make the repairs necessary exist: a new table with no rows beside the full old
      one, and the old table gone before the new one has its name. */
  lemma {:induction false} UpgradeIsNotAtomic(d: Database)
    requires PassesPreflight(d) && d.events.Some? && d.replacement.None? && d.events.value.schema != Canonical
    ensures d.(replacement := Some(Table(Canonical, []))) in UpgradeStates(d)
    ensures d.(events := None, replacement := Some(Table(Canonical, d.events.value.rows))) in UpgradeStates(d)
  {
    hide PassesPreflight, Plan, AppendAll;
    var plan := Plan(Authoritative(d).value.rows, d.reports);
    var states := Steps(d, plan);
    assert UpgradeStates(d) == states;
    assert states[1] == Replacing(d, Canonical)[0] && states[3] == Replacing(d, Canonical)[2];
  }

  /** Where a run that is stopped after the given number of durable steps leaves the database. */
  function StoppedUpgrade(d: Database, stop: nat): Database {
    var states := UpgradeStates(d);
    states[if stop < |states| then stop else |states| - 1]
  }

  lemma {:induction false} OneCrash(d: Database, stop: nat)
    requires WellFormed(d) && Completes(d)
    ensures var e := StoppedUpgrade(d, stop);
      && WellFormed(e) && Completes(e) && Upgraded(e) == Upgraded(d)
  {
    var states := UpgradeStates(d);
    EveryStateIsOnTheWay(d, if stop < |states| then stop else |states| - 1);
    ResumingAgrees(d, StoppedUpgrade(d, stop), Plan(Authoritative(d).value.rows, d.reports));
  }

  /** Stopped runs, each starting where the previous one stopped. */
  function AfterCrashes(d: Database, stops: seq<nat>): Database
    decreases |stops|
  {
    if stops == [] then d else AfterCrashes(StoppedUpgrade(d, stops[0]), stops[1..])
  }

  /** With a crash after any durable step, any number of times, a later completed upgrade yields
      exactly the database of an uninterrupted one: the same event rows with their lineage, and
      the same stage history. */
  lemma {:induction false} CrashesDoNotMatter(d: Database, stops: seq<nat>)
    requires WellFormed(d) && Completes(d)
    ensures var e := AfterCrashes(d, stops);
      && WellFormed(e) && Completes(e)
      && UpgradeStates(e)[|UpgradeStates(e)| - 1] == Upgraded(d)
    decreases |stops|
  {
    hide UpgradeStates, Upgraded, PassesPreflight;
    if stops == [] {
      CompletedUpgrade(d);
    } else {
      OneCrash(d, stops[0]);
      CrashesDoNotMatter(StoppedUpgrade(d, stops[0]), stops[1..]);
    }
  }

  // ---- downgrade ----------------------------------------------------------------------------

  predicate DistinctRuns(rows: seq<Row>) {
    forall i, j :: 0 <= i < j < |rows| ==> rows[i].run != rows[j].run
  }

  function WithoutNotifications(d: Database): seq<Database> {
    if d.notifications.Missing? then [] else [d.(notifications := Missing)]
  }

  predicate HasAttempts(d: Database) {
    d.notifications.Present? && d.notifications.attempts > 0
  }

  /** Every durable state of one downgrade. The guards come before the replacement; copying two
      events of one Run into the old schema violates its unique constraint and stops the run. */
  function DowngradeStates(d: Database): (states: seq<Database>)
    ensures states != [] && states[0] == d
  {
    if Authoritative(d).None? then [d]
    else
      var repaired := Repair(d);
      var table := repaired.events.value;
      var start := [d] + if d.replacement.Some? then [repaired] else [];
      if (table.schema.HasLineage() && !NoCorrections(table.rows)) || HasAttempts(d) then start
      else
        var cleared := Last(repaired, WithoutNotifications(repaired));
        if !table.schema.HasLineage() then start + WithoutNotifications(repaired)
        else
          var replacing := Replacing(cleared, Legacy);
          start + WithoutNotifications(repaired)
          + if DistinctRuns(table.rows) then replacing else replacing[..1]
  }

  predicate DowngradeCompletes(d: Database) {
    && Authoritative(d).Some?
    && !HasAttempts(d)
    && (Authoritative(d).value.schema.HasLineage() ==>
          NoCorrections(Authoritative(d).value.rows) && DistinctRuns(Authoritative(d).value.rows))
  }

  ghost predicate SameEvents(d: Database, e: Database) {
    && Authoritative(d).Some? && Authoritative(e).Some?
    && Authoritative(e).value.rows == Authoritative(d).value.rows
  }

  lemma {:induction false} DowngradeKeepsEvents(d: Database, i: nat)
    requires WellFormed(d)
    requires i < |DowngradeStates(d)|
    ensures WellFormed(DowngradeStates(d)[i])
    ensures SameEvents(d, DowngradeStates(d)[i])
    ensures DowngradeStates(d)[i].stages == d.stages
  {
    var e := DowngradeStates(d)[i];
    var repaired := Repair(d);
    if e != d && e != repaired && e !in WithoutNotifications(repaired) {
      var cleared := Last(repaired, WithoutNotifications(repaired));
      assert e in Replacing(cleared, Legacy);
    }
  }

  datatype Attempt = Upgrade(stop: nat) | Downgrade(stop: nat)

  function StatesOf(d: Database, a: Attempt): (states: seq<Database>)
    ensures states != []
  {
    if a.Upgrade? then UpgradeStates(d) else DowngradeStates(d)
  }

  function Stopped(d: Database, a: Attempt): Database {
    var states := StatesOf(d, a);
    states[if a.stop < |states| then a.stop else |states| - 1]
  }

  lemma {:induction false} OneAttempt(d: Database, a: Attempt)
    requires WellFormed(d)
    ensures var e := Stopped(d, a); WellFormed(e) && SameEvents(d, e) && d.stages <= e.stages
  {
    var states := StatesOf(d, a);
    var k := if a.stop < |states| then a.stop else |states| - 1;
    if a.Upgrade? {
      EveryStateIsOnTheWay(d, k);
      var plan := Plan(Authoritative(d).value.rows, d.reports);
      var n: nat :| IsPrefixOfRun(d, states[k], plan, n);
      AppendAllEffect(d.stages, plan[..n]);
    } else {
      DowngradeKeepsEvents(d, k);
    }
  }

  function AfterAttempts(d: Database, attempts: seq<Attempt>): Database
    decreases |attempts|
  {
    if attempts == [] then d else AfterAttempts(Stopped(d, attempts[0]), attempts[1..])
  }

  /** Any mix of interrupted and completed upgrades and downgrades loses no event row, and the
      stage history only grows. */
  lemma {:induction false} NoEventIsLost(d: Database, attempts: seq<Attempt>)
    requires WellFormed(d)
    ensures var e := AfterAttempts(d, attempts); WellFormed(e) && SameEvents(d, e) && d.stages <= e.stages
    decreases |attempts|
  {
    if attempts != [] {
      OneAttempt(d, attempts[0]);
      NoEventIsLost(Stopped(d, attempts[0]), attempts[1..]);
    }
  }

  lemma {:induction false} StepsKeepAttempts(d: Database, plan: seq<Entry>, i: nat)
    requires WellFormed(d) && d.notifications.Present? && d.notifications.attempts > 0 && i < |Steps(d, plan)|
    ensures Steps(d, plan)[i].notifications == d.notifications
  {
    hide WellFormed, AppendAll;
    StepsStayOnTheWay(d, plan, i);
  }

  lemma {:induction false} AttemptKeepsAttempts(d: Database, a: Attempt)
    requires WellFormed(d) && d.notifications.Present? && d.notifications.attempts > 0
    ensures Stopped(d, a).notifications == d.notifications
  {
    var states := StatesOf(d, a);
    var k := if a.stop < |states| then a.stop else |states| - 1;
    if a.Upgrade? && PassesPreflight(d) {
      hide Steps, Plan, WellFormed, PassesPreflight;
      StepsKeepAttempts(d, Plan(Authoritative(d).value.rows, d.reports), k);
    }
  }

  /** Any mix of interrupted and completed upgrades and downgrades keeps the notification attempts. */
  lemma {:induction false} NoAttemptIsLost(d: Database, attempts: seq<Attempt>)
    requires WellFormed(d) && d.notifications.Present? && d.notifications.attempts > 0
    ensures AfterAttempts(d, attempts).notifications == d.notifications
    decreases |attempts|
  {
    hide WellFormed, Stopped;
    if attempts != [] {
      OneAttempt(d, attempts[0]);
      AttemptKeepsAttempts(d, attempts[0]);
      NoAttemptIsLost(Stopped(d, attempts[0]), attempts[1..]);
    }
  }

  /** A downgrade ends in a table without lineage, without a replacement and without notification
      attempts exactly when there are no attempts to lose and, if there is a lineage column, no
      correction in it and no two events of one Run. */
  lemma {:induction false} CompletedDowngrade(d: Database)
    requires WellFormed(d)
    ensures var states := DowngradeStates(d); var e := states[|states| - 1];
      DowngradeCompletes(d) <==>
        e.events.Some? && !e.events.value.schema.HasLineage() && e.replacement.None? && e.notifications.Missing?
  {
    hide NoCorrections, DistinctRuns;
  }

  /** A downgrade that does not complete is refused before it loses anything, or leaves the old table
      in place beside an empty new one. */
  lemma {:induction false} RefusedDowngrade(d: Database)
    requires WellFormed(d) && !DowngradeCompletes(d)
    ensures var states := DowngradeStates(d); var e := states[|states| - 1];
      && e.events == Repair(d).events
      && (HasAttempts(d) ==> e == Repair(d))
  {
    hide NoCorrections, DistinctRuns;
  }

  /** A completed downgrade followed by a completed upgrade is the identity on event rows: the
      guard only lets an all-NULL lineage column be dropped. */
  lemma {:induction false} DowngradeThenUpgrade(d: Database)
    requires WellFormed(d) && DowngradeCompletes(d)
    ensures var down := DowngradeStates(d); var e := down[|down| - 1];
      Completes(e) ==>
        var up := UpgradeStates(e);
        up[|up| - 1].events == Some(Table(Canonical, Authoritative(d).value.rows))
  {
    hide DowngradeStates, UpgradeStates, Plan, PassesPreflight;
    var down := DowngradeStates(d);
    DowngradeKeepsEvents(d, |down| - 1);
    if Completes(down[|down| - 1]) {
      CompletedUpgrade(down[|down| - 1]);
    }
  }

  // ---- the migration on its database ------------------------------------------------------------

  /** The state after n of the given steps, or after all of them. */
  function After(d: Database, steps: seq<Database>, n: nat): Database {
    if n == 0 || steps == [] then d else if n <= |steps| then steps[n - 1] else steps[|steps| - 1]
  }

  /** The steps of the last phase. */
  function NotificationSteps(d: Database): seq<Database> {
    if d.notifications.Missing? then [d.(notifications := Present(true, 0))] else []
  }

  class Migrator {
    var db: Database

    constructor (saved: Database)
      ensures db == saved
    {
      db := saved;
    }

    /** `_repair_interrupted_event_table_replacement`. */
    method RepairReplacement(limit: nat) returns (left: nat, alive: bool)
      requires WellFormed(db)
      modifies this
      ensures var steps := if old(db).replacement.Some? then [Repair(old(db))] else [];
        db == After(old(db), steps, limit) && alive == (|steps| <= limit) && (alive ==> left == limit - |steps|)
      ensures alive ==> db == Repair(old(db)) && db.events.Some?
    {
      left, alive := limit, true;
      if db.replacement.Some? {
        if left == 0 { return 0, false; }
        if db.events.Some? {
          db := db.(replacement := None);
        } else {
          db := db.(events := db.replacement, replacement := None);
        }
        left := left - 1;
      }
    }

    /** Create, copy, drop, rename: the replacement that both directions share. */
    method ReplaceEventTable(schema: Schema, limit: nat) returns (left: nat, alive: bool)
      requires db.events.Some?
      modifies this
      ensures var steps := Replacing(old(db), schema);
        db == After(old(db), steps, limit) && alive == (|steps| <= limit) && (alive ==> left == limit - |steps|)
      ensures alive ==> db == Last(old(db), Replacing(old(db), schema))
    {
      left, alive := limit, true;
      if left == 0 { return 0, false; }
      db, left := db.(replacement := Some(Table(schema, []))), left - 1;
      if left == 0 { return 0, false; }
      db, left := db.(replacement := Some(Table(schema, db.events.value.rows))), left - 1;
      if left == 0 { return 0, false; }
      db, left := db.(events := None), left - 1;
      if left == 0 { return 0, false; }
      db, left := db.(events := db.replacement, replacement := None), left - 1;
    }

    /** `_ensure_event_correction_lineage`. */
    method EnsureEventCorrectionLineage(limit: nat) returns (left: nat, alive: bool)
      requires db.events.Some?
      modifies this
      ensures var steps := Lineage(old(db));
        db == After(old(db), steps, limit) && alive == (|steps| <= limit) && (alive ==> left == limit - |steps|)
      ensures alive ==> db == Last(old(db), Lineage(old(db)))
    {
      if db.events.value.schema == Canonical {
        return limit, true;
      }
      left, alive := ReplaceEventTable(Canonical, limit);
    }

    /** `_append_legacy_stage_history` along its plan. */
    method AppendLegacyStageHistory(plan: seq<Entry>, limit: nat) returns (left: nat, alive: bool)
      modifies this
      ensures var steps := RecordSteps(old(db), plan);
        db == After(old(db), steps, limit) && alive == (|steps| <= limit) && (alive ==> left == limit - |steps|)
      ensures alive ==> db == Recorded(old(db), plan, |plan|)
      ensures |RecordSteps(old(db), plan)| == |plan|
    {
      left, alive := limit, true;
      ghost var start, steps := db, RecordSteps(db, plan);
      for i := 0 to |plan|
        invariant left == limit - i && alive
        invariant db == Recorded(start, plan, i) == After(start, steps, i)
      {
        if left == 0 { return 0, false; }
        assert plan[..i + 1][..i] == plan[..i];
        db, left := db.(stages := AppendMissing(db.stages, plan[i])), left - 1;
        assert steps[i] == db;
      }
    }

    /** `upgrade`, stopped by a crash after `limit` durable steps if it has more. */
    method Upgrade(limit: nat)
      requires WellFormed(db)
      modifies this
      ensures db == StoppedUpgrade(old(db), limit)
      ensures WellFormed(db)
    {
      hide PassesPreflight, Plan, RecordSteps, Recorded, Lineage, StoppedUpgrade, After, Repair, Last;
      ghost var start := db;
      StoppedIsAfter(start, limit);
      if !PassesPreflight(db) {
        return;
      }
      var plan := Plan(Authoritative(db).value.rows, db.reports);
      var left, alive := RepairReplacement(limit);
      if !alive { return; }
      left, alive := EnsureEventCorrectionLineage(left);
      if !alive { return; }
      left, alive := AppendLegacyStageHistory(plan, left);
      if !alive { return; }
      EnsureNotificationAttemptsTable(left);
    }

    /** `downgrade`, stopped by a crash after `limit` durable steps if it has more. */
    method Downgrade(limit: nat)
      requires WellFormed(db)
      modifies this
      ensures db == Stopped(old(db), Attempt.Downgrade(limit))
      ensures WellFormed(db) && SameEvents(old(db), db)
    {
      hide Stopped, Last, Replacing, WellFormed, Repair, NoCorrections, DistinctRuns;
      StoppedDowngradeIsAfter(db, limit);
      var left, alive := RepairReplacement(limit);
      if !alive { return; }
      var table := db.events.value;
      if (table.schema.HasLineage() && !NoCorrections(table.rows)) || HasAttempts(db) {
        return;
      }
      left, alive := DropNotificationAttempts(left);
      if !alive || !table.schema.HasLineage() { return; }
      if DistinctRuns(table.rows) {
        left, alive := ReplaceEventTable(Legacy, left);
      } else {
        CreateReplacementOnly(left);
      }
    }

    method DropNotificationAttempts(limit: nat) returns (left: nat, alive: bool)
      modifies this
      ensures var steps := WithoutNotifications(old(db));
        db == After(old(db), steps, limit) && alive == (|steps| <= limit) && (alive ==> left == limit - |steps|)
      ensures alive ==> db == Last(old(db), WithoutNotifications(old(db)))
      ensures db.events == old(db).events
    {
      left, alive := limit, true;
      if db.notifications.Present? {
        if left == 0 { return 0, false; }
        db, left := db.(notifications := Missing), left - 1;
      }
    }

    /** The copy into the old schema fails on two events of one Run, after the table was created. */
    method CreateReplacementOnly(limit: nat)
      requires db.events.Some?
      modifies this
      ensures db == After(old(db), Replacing(old(db), Legacy)[..1], limit)
    {
      if limit > 0 {
        db := db.(replacement := Some(Table(Legacy, [])));
      }
    }

    /** `_ensure_notification_attempts_table`; a foreign table stops the run without a step. */
    method EnsureNotificationAttemptsTable(limit: nat)
      modifies this
      ensures db == After(old(db), NotificationSteps(old(db)), limit)
    {
      if db.notifications.Missing? && limit > 0 {
        db := db.(notifications := Present(true, 0));
      }
    }
  }

  /** Stopping a run of four phases stops it inside one of them. */
  lemma {:induction false} StopInPhase(d: Database, a: seq<Database>, b: seq<Database>, c: seq<Database>,
                                       e: seq<Database>, limit: nat)
    ensures var states := [d] + a + b + c + e;
      var x := states[if limit < |states| then limit else |states| - 1];
      if limit < |a| then x == After(d, a, limit)
      else if limit - |a| < |b| then x == After(Last(d, a), b, limit - |a|)
      else if limit - |a| - |b| < |c| then x == After(Last(Last(d, a), b), c, limit - |a| - |b|)
      else x == After(Last(Last(Last(d, a), b), c), e, limit - |a| - |b| - |c|)
  {
  }

  /** The steps that the guards of a downgrade leave, after the repair. */
  function DowngradeReplacing(d: Database): seq<Database>
    requires d.events.Some?
  {
    var table := d.events.value;
    if !table.schema.HasLineage() then []
    else if DistinctRuns(table.rows) then Replacing(d, Legacy) else Replacing(d, Legacy)[..1]
  }

  /** A stopped downgrade, phase by phase. */
  lemma {:induction false} StoppedDowngradeIsAfter(d: Database, limit: nat)
    requires WellFormed(d)
    ensures var x := Stopped(d, Attempt.Downgrade(limit));
      var repair := if d.replacement.Some? then [Repair(d)] else [];
      && WellFormed(x) && SameEvents(d, x)
      && Repair(d).events.Some? && Repair(d).notifications == d.notifications
      && if limit < |repair| then x == After(d, repair, limit)
         else if GuardStops(d) then x == Repair(d)
         else
           var clearing, left := WithoutNotifications(Repair(d)), limit - |repair|;
           if left < |clearing| then x == After(Repair(d), clearing, left)
           else
             var cleared := Last(Repair(d), clearing);
             && cleared.events == Repair(d).events
             && x == After(cleared, DowngradeReplacing(cleared), left - |clearing|)
  {
    hide Last, WithoutNotifications, DowngradeReplacing, Repair, WellFormed, NoCorrections, DistinctRuns, After;
    var states := DowngradeStates(d);
    DowngradeKeepsEvents(d, if limit < |states| then limit else |states| - 1);
    DowngradeIsPhases(d);
    var repair := if d.replacement.Some? then [Repair(d)] else [];
    var clearing := WithoutNotifications(Repair(d));
    var cleared := Last(Repair(d), clearing);
    hide DowngradeStates;
    if GuardStops(d) {
      StopAfterRepair(d, repair, limit);
    } else {
      StopInPhase(d, repair, clearing, DowngradeReplacing(cleared), [], limit);
      NothingLeft(Last(cleared, DowngradeReplacing(cleared)), cleared, DowngradeReplacing(cleared),
                  limit - |repair| - |clearing|);
    }
  }

  predicate GuardStops(d: Database)
    requires Repair(d).events.Some?
  {
    var table := Repair(d).events.value;
    (table.schema.HasLineage() && !NoCorrections(table.rows)) || HasAttempts(Repair(d))
  }

  lemma {:induction false} StopAfterRepair(d: Database, repair: seq<Database>, limit: nat)
    ensures var states := [d] + repair; var x := states[if limit < |states| then limit else |states| - 1];
      if limit < |repair| then x == After(d, repair, limit) else x == Last(d, repair)
  {
  }

  lemma {:induction false} NothingLeft(end: Database, d: Database, steps: seq<Database>, limit: int)
    requires end == Last(d, steps)
    ensures limit >= |steps| ==> After(end, [], limit - |steps|) == After(d, steps, limit)
  {
  }

  lemma {:induction false} DowngradeIsPhases(d: Database)
    requires WellFormed(d)
    ensures Repair(d).events.Some? && Repair(d).notifications == d.notifications
    ensures var repair := if d.replacement.Some? then [Repair(d)] else [];
      var clearing := WithoutNotifications(Repair(d));
      var cleared := Last(Repair(d), clearing);
      && Last(d, repair) == Repair(d)
      && cleared.events == Repair(d).events
      && DowngradeStates(d) ==
           if GuardStops(d) then [d] + repair
           else [d] + repair + clearing + DowngradeReplacing(cleared) + []
  {
  }

  /** A stopped upgrade, phase by phase. */
  lemma {:induction false} StoppedIsAfter(d: Database, limit: nat)
    requires WellFormed(d)
    ensures WellFormed(StoppedUpgrade(d, limit))
    ensures !PassesPreflight(d) ==> StoppedUpgrade(d, limit) == d
    ensures PassesPreflight(d) ==>
      var plan := Plan(Authoritative(d).value.rows, d.reports);
      var repair := if d.replacement.Some? then [Repair(d)] else [];
      if limit < |repair| then StoppedUpgrade(d, limit) == After(d, repair, limit)
      else
        var lineage, left := Lineage(Repair(d)), limit - |repair|;
        if left < |lineage| then StoppedUpgrade(d, limit) == After(Repair(d), lineage, left)
        else
          var replaced, rest := Last(Repair(d), lineage), left - |lineage|;
          if rest < |plan| then StoppedUpgrade(d, limit) == After(replaced, RecordSteps(replaced, plan), rest)
          else
            var recorded := Recorded(replaced, plan, |plan|);
            StoppedUpgrade(d, limit) == After(recorded, NotificationSteps(recorded), rest - |plan|)
  {
    hide PassesPreflight, Plan, AppendAll, Steps, Lineage, RecordSteps, Recorded, NotificationSteps, After, Last;
    var states := UpgradeStates(d);
    EveryStateIsOnTheWay(d, if limit < |states| then limit else |states| - 1);
    if PassesPreflight(d) {
      var plan := Plan(Authoritative(d).value.rows, d.reports);
      var repair := if d.replacement.Some? then [Repair(d)] else [];
      var lineage := Lineage(Repair(d));
      var replaced := Last(Repair(d), lineage);
      var recorded := Recorded(replaced, plan, |plan|);
      StatesArePhases(d, plan);
      StopInPhase(d, repair, lineage, RecordSteps(replaced, plan), NotificationSteps(recorded), limit);
    }
  }

  lemma {:induction false} StatesArePhases(d: Database, plan: seq<Entry>)
    requires WellFormed(d)
    ensures var repair := if d.replacement.Some? then [Repair(d)] else [];
      var lineage := Lineage(Repair(d));
      var replaced := Last(Repair(d), lineage);
      var recorded := Recorded(replaced, plan, |plan|);
      && Last(d, repair) == Repair(d)
      && Last(replaced, RecordSteps(replaced, plan)) == recorded
      && |RecordSteps(replaced, plan)| == |plan|
      && Steps(d, plan) == [d] + repair + lineage + RecordSteps(replaced, plan) + NotificationSteps(recorded)
  {
  }

  // ---- the read gates after the migration -----------------------------------------------------

  predicate PredatesStages(row: Row) {
    row.payload.Json? && row.payload.value.stages.None?
  }

  predicate ReportPredatesStages(report: StoredReport) {
    report.payload.Json? && report.payload.value.stages.None?
  }

  lemma {:induction false} InFlatten(groups: seq<seq<Entry>>, e: Entry)
    ensures e in Flatten(groups) <==> exists i :: 0 <= i < |groups| && e in groups[i]
  {
    if groups != [] {
      var init := groups[..|groups| - 1];
      InFlatten(init, e);
      assert forall i :: 0 <= i < |init| ==> init[i] == groups[i];
      if exists i :: 0 <= i < |init| && e in init[i] {
        var i :| 0 <= i < |init| && e in init[i];
        assert e in groups[i];
      }
    }
  }

  lemma {:induction false} InEventPlan(rows: seq<Row>, e: Entry)
    ensures e in EventPlan(rows) <==> exists row :: row in rows && e in EventEntries(row)
  {
    var groups := seq(|rows|, i requires 0 <= i < |rows| => EventEntries(rows[i]));
    InFlatten(groups, e);
    if exists row :: row in rows && e in EventEntries(row) {
      var row :| row in rows && e in EventEntries(row);
      var i :| 0 <= i < |rows| && rows[i] == row;
      assert e in groups[i];
    }
    if e in EventPlan(rows) {
      var i :| 0 <= i < |groups| && e in groups[i];
      assert rows[i] in rows && e in EventEntries(rows[i]);
    }
  }

  lemma {:induction false} InReportPlan(reports: seq<StoredReport>, rows: seq<Row>, e: Entry)
    ensures e in ReportPlan(reports, rows) <==> exists report :: report in reports && e in ReportEntries(report, rows)
  {
    var groups := seq(|reports|, i requires 0 <= i < |reports| => ReportEntries(reports[i], rows));
    InFlatten(groups, e);
    if exists report :: report in reports && e in ReportEntries(report, rows) {
      var report :| report in reports && e in ReportEntries(report, rows);
      var i :| 0 <= i < |reports| && reports[i] == report;
      assert e in groups[i];
    }
    if e in ReportPlan(reports, rows) {
      var i :| 0 <= i < |groups| && e in groups[i];
      assert reports[i] in reports && e in ReportEntries(reports[i], rows);
    }
  }

  /** Stage k of what a stage-less event implies, as it is recorded: at the time of the event, under
      the event if it is the commit and under the Run otherwise. */
  ghost predicate IsPlannedStage(row: Row, k: nat, e: Entry) {
    && PredatesStages(row)
    && var stages := StagesOf(None, row.payload.value.result);
    && k < |stages|
    && e == Entry(StageKey(row.business, row.run, if stages[k].phase == BusinessCommit then Some(row.id) else None, stages[k]),
                  row.committedAt)
  }

  ghost predicate IsPlannedPublication(report: StoredReport, rows: seq<Row>, e: Entry) {
    && ReportPredatesStages(report) && FindRow(rows, report.event) < |rows|
    && var row := rows[FindRow(rows, report.event)];
    && e == Entry(StageKey(row.business, row.run, Some(report.event), PUBLISHED), report.generatedAt)
  }

  lemma {:induction false} InEventEntries(row: Row, e: Entry)
    ensures e in EventEntries(row) <==> exists k: nat :: IsPlannedStage(row, k, e)
  {
    if PredatesStages(row) {
      var stages := StagesOf(None, row.payload.value.result);
      var entries := EventEntries(row);
      if e in entries {
        var k :| 0 <= k < |entries| && entries[k] == e;
        assert IsPlannedStage(row, k, e);
      }
      if k: nat :| IsPlannedStage(row, k, e) {
        assert entries[k] == e;
      }
    }
  }

  /** What the backfill records, whatever its order: the implied stages of the stage-less events and
      the publications of the stage-less reports. */
  lemma {:induction false} PlanIs(rows: seq<Row>, reports: seq<StoredReport>, e: Entry)
    ensures e in Plan(rows, reports) <==>
      || (exists row: Row, k: nat :: row in rows && IsPlannedStage(row, k, e))
      || (exists report :: report in reports && IsPlannedPublication(report, rows, e))
  {
    hide Plan, EventEntries, IsPlannedStage;
    InPlan(rows, reports, e);
    forall row: Row
      ensures e in EventEntries(row) <==> exists k: nat :: IsPlannedStage(row, k, e)
    {
      InEventEntries(row, e);
    }
    assert forall report: StoredReport :: e in ReportEntries(report, rows) <==> IsPlannedPublication(report, rows, e);
  }

  ghost predicate Ascends(plan: seq<Entry>) {
    forall a, b :: 0 <= a < b < |plan| ==> plan[a].at <= plan[b].at
  }

  /** Groups whose entries all carry the time of their group, in the order of those times. */
  lemma {:induction false} FlattenAscends(groups: seq<seq<Entry>>, times: seq<int>)
    requires |times| == |groups| && forall i, j :: 0 <= i < j < |times| ==> times[i] <= times[j]
    requires forall i, e: Entry :: 0 <= i < |groups| && e in groups[i] ==> e.at == times[i]
    ensures Ascends(Flatten(groups))
    ensures forall e: Entry :: e in Flatten(groups) ==> groups != [] && e.at <= times[|times| - 1]
  {
    if groups != [] {
      var init, last := groups[..|groups| - 1], groups[|groups| - 1];
      FlattenAscends(init, times[..|init|]);
      var front := Flatten(init);
      hide Flatten;
      assert forall e: Entry :: e in last ==> e.at == times[|init|];
      assert forall a :: 0 <= a < |front| ==> front[a] in front && front[a].at <= times[|init|];
      assert forall b :: 0 <= b < |last| ==> last[b] in last;
      assert Flatten(groups) == front + last by { FlattenNext(groups); }
    }
  }

  lemma {:induction false} FlattenNext(groups: seq<seq<Entry>>)
    requires groups != []
    ensures Flatten(groups) == Flatten(groups[..|groups| - 1]) + groups[|groups| - 1]
  {
  }

  ghost predicate FromEvent(rows: seq<Row>, e: Entry) {
    exists row :: row in rows && e in EventEntries(row)
  }

  ghost predicate FromReport(reports: seq<StoredReport>, rows: seq<Row>, e: Entry) {
    exists report :: report in reports && e in ReportEntries(report, rows)
  }

  lemma {:induction false} EventPlanAscends(rows: seq<Row>)
    ensures var events := EventPlan(StableOrder.Sort(rows, CommittedAt));
      && (forall e :: e in events ==> FromEvent(rows, e))
      && Ascends(events)
  {
    var sorted := StableOrder.Sort(rows, CommittedAt);
    var groups := seq(|sorted|, i requires 0 <= i < |sorted| => EventEntries(sorted[i]));
    StableOrder.SortAscends(rows, CommittedAt);
    var times := seq(|sorted|, i requires 0 <= i < |sorted| => sorted[i].committedAt);
    assert forall i, e: Entry :: 0 <= i < |groups| && e in groups[i] ==> e.at == times[i];
    FlattenAscends(groups, times);
    hide EventEntries, Ascends, Flatten;
    forall e | e in EventPlan(sorted)
      ensures FromEvent(rows, e)
    {
      InEventPlan(sorted, e);
      var row :| row in sorted && e in EventEntries(row);
      StableOrder.SortMember(rows, CommittedAt, row);
    }
  }

  lemma {:induction false} ReportPlanAscends(reports: seq<StoredReport>, rows: seq<Row>)
    ensures var publications := ReportPlan(StableOrder.Sort(reports, GeneratedAt), rows);
      && (forall e :: e in publications ==> FromReport(reports, rows, e))
      && Ascends(publications)
  {
    var dated := StableOrder.Sort(reports, GeneratedAt);
    var groups := seq(|dated|, i requires 0 <= i < |dated| => ReportEntries(dated[i], rows));
    StableOrder.SortAscends(reports, GeneratedAt);
    var times := seq(|dated|, i requires 0 <= i < |dated| => dated[i].generatedAt);
    assert forall i, e: Entry :: 0 <= i < |groups| && e in groups[i] ==> e.at == times[i];
    FlattenAscends(groups, times);
    hide ReportEntries, Ascends, Flatten;
    forall e | e in ReportPlan(dated, rows)
      ensures FromReport(reports, rows, e)
    {
      InReportPlan(dated, rows, e);
      var report :| report in dated && e in ReportEntries(report, rows);
      StableOrder.SortMember(reports, GeneratedAt, report);
    }
  }

  /** The backfill goes through the events in the order of their commits, and then through the
      reports in the order of their times. */
  lemma {:induction false} PlanIsChronological(rows: seq<Row>, reports: seq<StoredReport>) returns (n: nat)
    ensures var plan := Plan(rows, reports);
      && n <= |plan|
      && (forall a :: 0 <= a < n ==> FromEvent(rows, plan[a]))
      && (forall a :: n <= a < |plan| ==> FromReport(reports, rows, plan[a]))
      && (forall a, b :: 0 <= a < b < n || n <= a < b < |plan| ==> plan[a].at <= plan[b].at)
  {
    hide EventPlan, ReportPlan, FromEvent, FromReport, Ascends;
    var events := EventPlan(StableOrder.Sort(rows, CommittedAt));
    var publications := ReportPlan(StableOrder.Sort(reports, GeneratedAt), rows);
    EventPlanAscends(rows);
    ReportPlanAscends(reports, rows);
    n := |events|;
    assert Plan(rows, reports) == events + publications;
    ConcatAscends(events, publications);
  }

  lemma {:induction false} ConcatAscends(x: seq<Entry>, y: seq<Entry>)
    requires Ascends(x) && Ascends(y)
    ensures forall a, b :: 0 <= a < b < |x| || |x| <= a < b < |x + y| ==> (x + y)[a].at <= (x + y)[b].at
  {
    forall a, b | 0 <= a < b < |x| || |x| <= a < b < |x + y|
      ensures (x + y)[a].at <= (x + y)[b].at
    {
      if a < |x| {
        assert x[a].at <= x[b].at;
      } else {
        assert y[a - |x|].at <= y[b - |x|].at;
      }
    }
  }

  /** Membership in the plan, by what was planned rather than by its order. */
  lemma {:induction false} InPlan(rows: seq<Row>, reports: seq<StoredReport>, e: Entry)
    ensures e in Plan(rows, reports) <==>
      || (exists row :: row in rows && e in EventEntries(row))
      || (exists report :: report in reports && e in ReportEntries(report, rows))
  {
    var sorted, dated := StableOrder.Sort(rows, CommittedAt), StableOrder.Sort(reports, GeneratedAt);
    InEventPlan(sorted, e);
    InReportPlan(dated, rows, e);
    forall row: Row
      ensures row in sorted <==> row in rows
    {
      StableOrder.SortMember(rows, CommittedAt, row);
    }
    forall report: StoredReport
      ensures report in dated <==> report in reports
    {
      StableOrder.SortMember(reports, GeneratedAt, report);
    }
  }

  /** The stages that open the two gates of an event. */
  function OpensCommit(id: EventId): StageKey -> bool {
    (key: StageKey) => key.event == Some(id) && IsSuccess(key.result, BusinessCommit)
  }

  function OpensVisibility(id: EventId): StageKey -> bool {
    (key: StageKey) =>
      key.event == Some(id) && (IsSuccess(key.result, Publication) || IsClosureFailure(key.result))
  }

  predicate SomeRow(h: History, p: StageKey -> bool) {
    exists i :: 0 <= i < |h| && p(h[i].key)
  }

  predicate SomeEntry(plan: seq<Entry>, p: StageKey -> bool) {
    exists i :: 0 <= i < |plan| && p(plan[i].key)
  }

  /** A planned stage is in the history afterwards, whether it was there before or not. */
  lemma {:induction false} PlannedIsRecorded(h: History, plan: seq<Entry>, e: Entry)
    requires Bound(h)
    requires e in plan
    ensures exists i :: 0 <= i < |AppendAll(h, plan)| && AppendAll(h, plan)[i].key == e.key
  {
    AppendAllEffect(h, plan);
    var g := AppendAll(h, plan);
    var i :| 0 <= i < |g| && g[i].id == Migrated(e.key);
    assert RowBound(g, i);
  }

  /** A backfill adds rows of a kind exactly when the plan has such an entry. */
  lemma {:induction false} RowsAfterBackfill(h: History, plan: seq<Entry>, p: StageKey -> bool)
    requires Bound(h)
    ensures SomeRow(AppendAll(h, plan), p) <==> SomeRow(h, p) || SomeEntry(plan, p)
  {
    AppendAllEffect(h, plan);
    var g := AppendAll(h, plan);
    if SomeRow(h, p) {
      var i :| 0 <= i < |h| && p(h[i].key);
      assert g[i] == h[i];
    }
    if SomeEntry(plan, p) {
      var i :| 0 <= i < |plan| && p(plan[i].key);
      PlannedIsRecorded(h, plan, plan[i]);
    }
    if SomeRow(g, p) && !SomeRow(h, p) {
      var i :| 0 <= i < |g| && p(g[i].key);
      assert forall k :: 0 <= k < |h| ==> g[k] == h[k];
      var j :| 0 <= j < |plan| && plan[j] == Entry(g[i].key, g[i].recordedAt);
      assert p(plan[j].key);
    }
  }

  lemma {:induction false} EventEntryShape(row: Row, e: Entry)
    requires e in EventEntries(row)
    ensures PredatesStages(row)
    ensures e.key.event.Some? ==> e.key.event == Some(row.id) && e.key.result.phase == BusinessCommit
  {
  }

  lemma {:induction false} LegacyCommitIsPlanned(row: Row)
    requires PredatesStages(row)
    ensures Entry(StageKey(row.business, row.run, Some(row.id), COMMITTED), row.committedAt) in EventEntries(row)
  {
    var entries := EventEntries(row);
    assert entries[|entries| - 1].key.result == COMMITTED;
  }

  /** The plan opens the commit gate of exactly the events that predate embedded stages. */
  lemma {:induction false} PlannedCommits(rows: seq<Row>, reports: seq<StoredReport>, id: EventId)
    ensures SomeEntry(Plan(rows, reports), OpensCommit(id)) <==>
      exists row :: row in rows && row.id == id && PredatesStages(row)
  {
    hide Plan, EventEntries;
    var plan := Plan(rows, reports);
    if exists row :: row in rows && row.id == id && PredatesStages(row) {
      var row :| row in rows && row.id == id && PredatesStages(row);
      LegacyCommitIsPlanned(row);
      var e := Entry(StageKey(row.business, row.run, Some(row.id), COMMITTED), row.committedAt);
      InPlan(rows, reports, e);
      var i :| 0 <= i < |plan| && plan[i] == e;
      assert OpensCommit(id)(plan[i].key);
    }
    if SomeEntry(plan, OpensCommit(id)) {
      var i :| 0 <= i < |plan| && OpensCommit(id)(plan[i].key);
      InPlan(rows, reports, plan[i]);
      var row :| row in rows && plan[i] in EventEntries(row);
      EventEntryShape(row, plan[i]);
    }
  }

  lemma {:induction false} PublicationIsPlanned(rows: seq<Row>, reports: seq<StoredReport>, report: StoredReport)
    requires report in reports && ReportPredatesStages(report)
    requires FindRow(rows, report.event) < |rows|
    ensures SomeEntry(Plan(rows, reports), OpensVisibility(report.event))
  {
    hide Plan, EventEntries, ReportEntries;
    var plan := Plan(rows, reports);
    var e := LegacyPublicationIsPlanned(report, rows);
    InPlan(rows, reports, e);
    var i :| 0 <= i < |plan| && plan[i] == e;
    assert OpensVisibility(report.event)(plan[i].key);
  }

  lemma {:induction false} PlannedPublicationComesFrom(rows: seq<Row>, reports: seq<StoredReport>, e: Entry, id: EventId)
      returns (report: StoredReport)
    requires e in Plan(rows, reports) && OpensVisibility(id)(e.key)
    ensures report in reports && report.event == id && ReportPredatesStages(report)
  {
    hide Plan, EventEntries, ReportEntries;
    InPlan(rows, reports, e);
    if row :| row in rows && e in EventEntries(row) {
      EventEntryShape(row, e);
      assert false;
    }
    report :| report in reports && e in ReportEntries(report, rows);
    LegacyPublicationShape(report, rows, e);
  }

  /** The plan opens the visibility gate of exactly the events with a report that predates
      embedded stages. */
  lemma {:induction false} PlannedPublications(rows: seq<Row>, reports: seq<StoredReport>, id: EventId)
    requires forall report :: report in reports ==> FindRow(rows, report.event) < |rows|
    ensures SomeEntry(Plan(rows, reports), OpensVisibility(id)) <==>
      exists report :: report in reports && report.event == id && ReportPredatesStages(report)
  {
    hide Plan, OpensVisibility;
    if report :| report in reports && report.event == id && ReportPredatesStages(report) {
      PublicationIsPlanned(rows, reports, report);
    }
    if SomeEntry(Plan(rows, reports), OpensVisibility(id)) {
      var i :| 0 <= i < |Plan(rows, reports)| && OpensVisibility(id)(Plan(rows, reports)[i].key);
      var _ := PlannedPublicationComesFrom(rows, reports, Plan(rows, reports)[i], id);
    }
  }

  lemma {:induction false} LegacyPublicationIsPlanned(report: StoredReport, rows: seq<Row>) returns (e: Entry)
    requires ReportPredatesStages(report) && FindRow(rows, report.event) < |rows|
    ensures e in ReportEntries(report, rows)
    ensures e.key.event == Some(report.event) && e.key.result == PUBLISHED
  {
    e := ReportEntries(report, rows)[0];
  }

  lemma {:induction false} LegacyPublicationShape(report: StoredReport, rows: seq<Row>, e: Entry)
    requires e in ReportEntries(report, rows)
    ensures ReportPredatesStages(report) && e.key.event == Some(report.event)
  {
  }

  lemma {:induction false} CommitGateIsRow(h: History, id: EventId)
    ensures HasConfirmedCommit(h, id) <==> SomeRow(h, OpensCommit(id))
  {
  }

  lemma {:induction false} VisibilityGateIsRow(h: History, id: EventId)
    ensures HasVisibility(h, id) <==> SomeRow(h, OpensVisibility(id))
  {
  }

  /** After the migration an event passes the commit gate exactly when it did before or its
      payload predates embedded stages. */
  lemma {:induction false} CommitGateAfter(d: Database, id: EventId)
    requires WellFormed(d)
    ensures HasConfirmedCommit(Upgraded(d).stages, id) <==>
      || HasConfirmedCommit(d.stages, id)
      || exists row :: row in Authoritative(d).value.rows && row.id == id && PredatesStages(row)
  {
    var rows := Authoritative(d).value.rows;
    RowsAfterBackfill(d.stages, Plan(rows, d.reports), OpensCommit(id));
    PlannedCommits(rows, d.reports, id);
    CommitGateIsRow(d.stages, id);
    CommitGateIsRow(Upgraded(d).stages, id);
  }

  /** After the migration an event passes the visibility gate exactly when it did before or a
      stored report of it predates embedded stages. */
  lemma {:induction false} VisibilityGateAfter(d: Database, id: EventId)
    requires WellFormed(d) && PassesPreflight(d)
    ensures HasVisibility(Upgraded(d).stages, id) <==>
      || HasVisibility(d.stages, id)
      || exists report :: report in d.reports && report.event == id && ReportPredatesStages(report)
  {
    var rows := Authoritative(d).value.rows;
    forall report | report in d.reports
      ensures FindRow(rows, report.event) < |rows|
    {
      var i :| 0 <= i < |d.reports| && d.reports[i] == report;
      assert ValidReport(d.reports[i], rows);
    }
    RowsAfterBackfill(d.stages, Plan(rows, d.reports), OpensVisibility(id));
    PlannedPublications(rows, d.reports, id);
    VisibilityGateIsRow(d.stages, id);
    VisibilityGateIsRow(Upgraded(d).stages, id);
  }

  /** Every report that passes preflight, and whose event and report payloads predate embedded
      stages, is exposed by the ledger after the migration. */
  lemma {:induction false} LegacyReportsStayReadable(d: Database, report: StoredReport)
    requires WellFormed(d) && PassesPreflight(d)
    requires report in d.reports && ReportPredatesStages(report)
    requires PredatesStages(Authoritative(d).value.rows[FindRow(Authoritative(d).value.rows, report.event)])
    ensures HasConfirmedCommit(Upgraded(d).stages, report.event)
    ensures HasVisibility(Upgraded(d).stages, report.event)
  {
    CommitGateAfter(d, report.event);
    VisibilityGateAfter(d, report.event);
  }
}
