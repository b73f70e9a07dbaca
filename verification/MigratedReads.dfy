/** The ledger's reads on a database that migration 0004 has upgraded: what preflight accepts, the
    ledger can show. */
module MigratedReads {
  import opened Outcomes
  import opened StageResults
  import opened Identities
  import opened StageHistory
  import opened LedgerTables
  import opened EventLineage
  import opened ReportGates
  import M = Migration0004
  import N = Migration0007
  import C = CommitProtocol

  const FIRST_PROJECTION: string := "1.0.0"

  function CaseOf(c: M.CaseDoc, show: int -> string): FrozenCase {
    FrozenCase(c.caseId, c.business, c.run, None, c.fingerprint, c.contract, c.host, c.projection,
               c.rest, c.rest, false, c.rest, show(c.reportGeneratedAt), None)
  }

  function ResultOf(r: M.ResultDoc): ExternalResult {
    ExternalResult(r.outcome, r.keyReasons, r.summary, None, None, None, [])
  }

  /** How the ledger decodes an event document. Only the first projection contract may leave its
      stages out; they are then read back from the result. */
  function EventOf(doc: M.EventDoc, committedAt: string, show: int -> string): Payload<Fact> {
    if doc.stages.None? && doc.frozen.projection != FIRST_PROJECTION then Malformed
    else
      Json(Fact(doc.id, doc.business, doc.run, CaseOf(doc.frozen, show), ResultOf(doc.result), doc.validation, committedAt,
                if doc.stages.Some? then doc.stages.value
                else LegacyStages(HostDecision(doc.result.outcome), doc.result.keyReasons),
                doc.corrects, if doc.generatedAt.Some? then Some(show(doc.generatedAt.value)) else None))
  }

  function RowOf(row: M.Row, show: int -> string): EventRow {
    EventRow(row.id, None, row.business, row.run, row.corrects,
             if row.payload.Malformed? then Malformed
             else EventOf(row.payload.value, show(row.committedAt), show),
             show(row.committedAt))
  }

  function ReportOf(doc: M.ReportDoc, frozen: M.CaseDoc, show: int -> string): FormalReport {
    FormalReport(doc.id, doc.event, doc.business, doc.run, doc.caseId, show(doc.generatedAt), frozen.contract,
                 frozen.host, doc.projection, None, ResultOf(doc.result),
                 if doc.stages.Some? then doc.stages.value
                 else LegacyStages(HostDecision(doc.result.outcome), doc.result.keyReasons) + [PUBLISHED],
                 None, None, None)
  }

  /** The stored report of an event; the version bundle it repeats is the event's. */
  function ReportRowOf(report: M.StoredReport, rows: seq<M.Row>, show: int -> string): ReportRow {
    var i := M.FindRow(rows, report.event);
    ReportRow(report.id, report.event,
              if report.payload.Malformed? || i == |rows| || rows[i].payload.Malformed? then Malformed
              else Json(ReportOf(report.payload.value, rows[i].payload.value.frozen, show)),
              show(report.generatedAt))
  }

  function LedgerMappings(mappings: seq<MappingRow>): seq<MappingRow> {
    seq(|mappings|, i requires 0 <= i < |mappings| => mappings[i].(snapshot := None))
  }

  function LedgerEvents(rows: seq<M.Row>, show: int -> string): seq<EventRow> {
    seq(|rows|, i requires 0 <= i < |rows| => RowOf(rows[i], show))
  }

  function LedgerReports(reports: seq<M.StoredReport>, rows: seq<M.Row>, show: int -> string): seq<ReportRow> {
    seq(|reports|, i requires 0 <= i < |reports| => ReportRowOf(reports[i], rows, show))
  }

  /** The ledger's view of an upgraded database; mappings of that time have no case snapshot. */
  function LedgerOf(d: M.Database, show: int -> string): Tables
    requires d.events.Some?
  {
    var rows := d.events.value.rows;
    Tables(LedgerMappings(d.mappings), LedgerEvents(rows, show), d.stages, LedgerReports(d.reports, rows, show))
  }

  lemma {:induction false} FindEventInLedger(rows: seq<M.Row>, id: EventId, show: int -> string)
    ensures FindEvent(LedgerEvents(rows, show), id) == M.FindRow(rows, id)
  {
    var events := LedgerEvents(rows, show);
    assert forall i :: 0 <= i < |rows| ==> events[i].id == rows[i].id;
    var i, j := FindEvent(events, id), M.FindRow(rows, id);
  }

  lemma {:induction false} FindMappingInLedger(mappings: seq<MappingRow>, business: string)
    ensures FindMapping(LedgerMappings(mappings), business) == FindMapping(mappings, business)
  {
    var bare := LedgerMappings(mappings);
    assert forall i :: 0 <= i < |mappings| ==> bare[i].business == mappings[i].business;
    var i, j := FindMapping(bare, business), FindMapping(mappings, business);
  }

  /** What the ledger reads for a row that passed preflight, whatever else the tables hold. */
  lemma {:induction false} ValidRowReads(t: Tables, mappings: seq<MappingRow>, row: M.Row, show: int -> string)
    requires M.ValidEvent(row, mappings)
    requires FindEvent(t.events, row.id) < |t.events| && t.events[FindEvent(t.events, row.id)] == RowOf(row, show)
    requires |t.mappings| == |mappings| && FindMapping(t.mappings, row.business) == FindMapping(mappings, row.business)
    requires var m := FindMapping(t.mappings, row.business); t.mappings[m] == mappings[m].(snapshot := None)
    ensures row.payload.Json?
    ensures var doc := row.payload.value;
      ReadEvent(t, row.id)
      == if doc.stages.None? && doc.frozen.projection != FIRST_PROJECTION then Err(InvalidEvent)
         else if row.corrects.Some? then Err(LineageMismatch)
         else Ok(Some(EventOf(doc, show(row.committedAt), show).value))
  {
    hide M.ValidStages, M.StagesOf, M.HasSuccess, LegacyStages;
  }

  /** A migrated event that passed preflight reads back as its document exactly when its stages
      are embedded or its projection contract lets them be left out, and its row corrects nothing. */
  lemma {:induction false} MigratedEventReadableIff(d: M.Database, show: int -> string, id: EventId)
    requires M.PassesPreflight(d)
    requires M.FindRow(M.Authoritative(d).value.rows, id) < |M.Authoritative(d).value.rows|
    ensures var rows := M.Authoritative(d).value.rows;
      var row := rows[M.FindRow(rows, id)];
      var read := ReadEvent(LedgerOf(M.Upgraded(d), show), id);
      && row.payload.Json?
      && var doc := row.payload.value;
         read == if doc.stages.None? && doc.frozen.projection != FIRST_PROJECTION then Err(InvalidEvent)
                 else if row.corrects.Some? then Err(LineageMismatch)
                 else Ok(Some(EventOf(doc, show(row.committedAt), show).value))
  {
    hide M.Plan, M.AppendAll, M.ValidReport, M.ValidStages, M.StagesOf, M.HasSuccess, ReadEvent, EventOf, RowOf, LedgerReports, FindEvent, FindMapping, M.FindRow;
    var rows := M.Authoritative(d).value.rows;
    var row := rows[M.FindRow(rows, id)];
    assert M.ValidEvent(row, d.mappings);
    FindEventInLedger(rows, id, show);
    FindMappingInLedger(d.mappings, row.business);
    ValidRowReads(LedgerOf(M.Upgraded(d), show), d.mappings, row, show);
  }

  lemma {:induction false} FindReportInLedger(reports: seq<M.StoredReport>, rows: seq<M.Row>, show: int -> string, k: nat)
    requires k < |reports|
    requires forall i, j :: 0 <= i < j < |reports| ==> reports[i].id != reports[j].id
    ensures FindReport(LedgerReports(reports, rows, show), reports[k].id) == k
  {
    var all := LedgerReports(reports, rows, show);
    var i := FindReport(all, reports[k].id);
    assert all[k].id == reports[k].id;
    assert forall j :: 0 <= j < |reports| ==> all[j].id == reports[j].id;
  }

  /** A report that passes preflight, whatever its contract, is the projection that the ledger
      computes from its event, as soon as it can decode that. */
  lemma {:induction false} StoredReportIsProjection(row: M.Row, report: M.StoredReport, rows: seq<M.Row>, show: int -> string)
    requires M.ValidReport(report, rows) && row == rows[M.FindRow(rows, report.event)]
    requires row.payload.value.id == row.id && row.payload.value.corrects.None?
    requires EventOf(row.payload.value, show(row.committedAt), show).Json?
    requires forall t :: show(t) != ""
    ensures var f := EventOf(row.payload.value, show(row.committedAt), show).value;
      && report.id == ReportIdFor(f)
      && ReportRowOf(report, rows, show)
         == ReportRow(report.id, report.event, Json(Projection(f, report.id)), Projection(f, report.id).generatedAt)
  {
  }

  /** A gated plain report whose row is its event's projection is exposed. */
  lemma {:induction false} PublicOnceStored(t: Tables, id: ReportId, f: Fact)
    requires f.result.release.None? && f.result.monitoring.None?
    requires FindReport(t.reports, id) < |t.reports|
    requires var row := t.reports[FindReport(t.reports, id)];
      && row == ReportRow(id, row.event, Json(Projection(f, id)), Projection(f, id).generatedAt)
      && id == ReportIdFor(f)
      && ReadEvent(t, row.event) == Ok(Some(f))
      && HasConfirmedCommit(t.stages, row.event) && HasVisibility(t.stages, row.event)
    ensures var event := t.reports[FindReport(t.reports, id)].event;
      PublicRead(t, id) == Ok(Some(WithPublicationHistory(Projection(f, id), Stages(SavedStages(t.stages, event)))))
  {
    hide PublicRead, ReadEvent, HasConfirmedCommit, HasVisibility, SavedStages, WithPublicationHistory;
    var row := t.reports[FindReport(t.reports, id)];
    var saved := SavedStages(t.stages, row.event);
    var shown := Expose(Projection(f, id), saved).value;
    PublicReadIff(t, id, shown);
  }

  /** Report k and the event row it belongs to both predate embedded stages, and the event is an
      original. */
  ghost predicate LegacyPair(d: M.Database, k: nat, i: nat) {
    && k < |d.reports| && M.ReportPredatesStages(d.reports[k])
    && M.Authoritative(d).Some?
    && var rows := M.Authoritative(d).value.rows;
    && i == M.FindRow(rows, d.reports[k].event) < |rows|
    && M.PredatesStages(rows[i]) && rows[i].corrects.None?
  }

  /** Report k and the row of its event, an original that the ledger can decode. */
  ghost predicate ReadablePair(d: M.Database, k: nat, i: nat) {
    && k < |d.reports| && M.Authoritative(d).Some?
    && var rows := M.Authoritative(d).value.rows;
    && i == M.FindRow(rows, d.reports[k].event) < |rows|
    && rows[i].corrects.None? && rows[i].payload.Json?
    && d.reports[k].payload.Json? && d.reports[k].payload.value.stages != Some([])
    && (rows[i].payload.value.stages.Some? || rows[i].payload.value.frozen.projection == FIRST_PROJECTION)
  }

  ghost function LedgerAfter(d: M.Database, show: int -> string): Tables
    requires M.Authoritative(d).Some?
  {
    LedgerOf(M.Upgraded(d), show)
  }

  /** The report that was stored, around which its saved failed publications are shown. */
  ghost function ShownAfter(d: M.Database, show: int -> string, k: nat, i: nat): FormalReport
    requires ReadablePair(d, k, i)
  {
    var report := d.reports[k];
    var frozen := M.Authoritative(d).value.rows[i].payload.value.frozen;
    WithPublicationHistory(ReportOf(report.payload.value, frozen, show),
                           Stages(SavedStages(LedgerAfter(d, show).stages, report.event)))
  }

  /** After the migration a report that passed preflight, whose event the ledger can decode, is
      publicly readable, as it was stored, exactly when both gates of its event are open, which
      `CommitGateAfter` and `VisibilityGateAfter` decide. */
  lemma {:induction false} MigratedReportPublicIff(d: M.Database, show: int -> string, k: nat, i: nat)
    requires ReadablePair(d, k, i)
    requires M.WellFormed(d) && M.PassesPreflight(d)
    requires forall i, j :: 0 <= i < j < |d.reports| ==> d.reports[i].id != d.reports[j].id
    requires forall t :: show(t) != ""
    ensures var t := LedgerAfter(d, show); var report := d.reports[k];
      PublicRead(t, report.id) ==
        if HasConfirmedCommit(t.stages, report.event) && HasVisibility(t.stages, report.event)
        then Ok(Some(ShownAfter(d, show, k, i))) else Ok(None)
  {
    hide M.Plan, M.AppendAll, M.ValidStages, M.StagesOf, M.HasSuccess;
    hide ReadEvent, HasConfirmedCommit, HasVisibility, Projection, PublicRead, WithPublicationHistory, SavedStages;
    var report := d.reports[k];
    var rows := M.Authoritative(d).value.rows;
    var t := LedgerOf(M.Upgraded(d), show);
    var f := EventOf(rows[i].payload.value, show(rows[i].committedAt), show).value;
    assert M.ValidReport(report, rows);
    assert M.ValidEvent(rows[i], d.mappings);
    MigratedEventReadableIff(d, show, report.event);
    StoredReportIsProjection(rows[i], report, rows, show);
    FindReportInLedger(d.reports, rows, show, k);
    FindEventInLedger(rows, report.event, show);
    if HasConfirmedCommit(t.stages, report.event) && HasVisibility(t.stages, report.event) {
      PublicOnceStored(t, report.id, f);
    } else {
      HiddenWhileGated(t, report.id);
    }
  }

  lemma {:induction false} HiddenWhileGated(t: Tables, id: ReportId)
    requires FindReport(t.reports, id) < |t.reports|
    requires var event := t.reports[FindReport(t.reports, id)].event;
      !(HasConfirmedCommit(t.stages, event) && HasVisibility(t.stages, event))
    ensures PublicRead(t, id) == Ok(None)
  {
  }

  /** Every report that passes preflight, and whose event and report payloads predate embedded
      stages, is publicly readable after the migration: as the report that was stored, around
      which its saved failed publications are shown. */
  lemma {:induction false} LegacyReportsArePublic(d: M.Database, show: int -> string, k: nat, i: nat)
    requires LegacyPair(d, k, i)
    requires M.WellFormed(d) && M.PassesPreflight(d)
    requires forall i, j :: 0 <= i < j < |d.reports| ==> d.reports[i].id != d.reports[j].id
    requires forall t :: show(t) != ""
    ensures ReadablePair(d, k, i)
    ensures PublicRead(LedgerAfter(d, show), d.reports[k].id) == Ok(Some(ShownAfter(d, show, k, i)))
  {
    hide M.Plan, M.AppendAll, M.ValidStages, M.StagesOf, M.HasSuccess;
    hide ReadEvent, HasConfirmedCommit, HasVisibility, Projection, PublicRead, WithPublicationHistory, SavedStages;
    var report := d.reports[k];
    var rows := M.Authoritative(d).value.rows;
    assert M.ValidReport(report, rows);
    M.LegacyReportsStayReadable(d, report);
    assert rows[i].payload.value.frozen.projection == FIRST_PROJECTION;
    MigratedReportPublicIff(d, show, k, i);
  }

  /** A database with one event and no stages at all. */
  function StagelessDatabase(projection: string): M.Database {
    var result := M.ResultDoc("SYNTHETIC_REVIEW_COMPLETE", "summary", []);
    var frozen := M.CaseDoc("case", "object", "run", "print", "contract", "host", projection, result, 1, "rest");
    var id := OriginalEvent("object", "run", "contract");
    var doc := M.EventDoc(id, "object", "run", frozen, result, "PASSED", None, None, None);
    M.Database(Some(M.Table(M.Legacy, [M.Row(id, "object", "run", None, Json(doc), 2)])), None, [], M.Missing,
               [MappingRow("object", "case", "print", "run", None, "then")], [])
  }

  /** The same under the first contract, with the event's report. */
  function FirstContractDatabase(): M.Database {
    var d := StagelessDatabase(FIRST_PROJECTION);
    var row := d.events.value.rows[0];
    var id := ReportVersion(row.id, FIRST_PROJECTION);
    d.(reports := [M.StoredReport(id, row.id, Json(M.ExpectedReport(row.payload.value, id)), 1)])
  }

  lemma {:induction false} FirstContractStages(result: M.ResultDoc)
    requires result.outcome == "SYNTHETIC_REVIEW_COMPLETE"
    ensures var stages := M.StagesOf(None, result);
      M.ValidStages(stages) && M.HasSuccess(stages, HostValidation) && M.HasSuccess(stages, BusinessCommit)
  {
    var stages := M.StagesOf(None, result);
    assert |stages| == 4 && stages[3] == COMMITTED;
    assert IsSuccess(stages[1], HostValidation) && IsSuccess(stages[3], BusinessCommit);
  }

  /** It passes preflight: the conditions of `LegacyReportsArePublic` are those of a real database. */
  lemma {:induction false} FirstContractPasses()
    ensures var d := FirstContractDatabase();
      M.WellFormed(d) && M.PassesPreflight(d) && LegacyPair(d, 0, 0)
  {
    hide M.StagesOf, M.ValidStages, M.HasSuccess;
    var d := FirstContractDatabase();
    var row := d.events.value.rows[0];
    var doc := row.payload.value;
    FirstContractStages(doc.result);
    assert M.ValidEvent(row, d.mappings);
    assert M.ValidReport(d.reports[0], d.events.value.rows);
  }

  /** Under every projection contract but the first, a stage-less event passes preflight and is
      migrated into an event that the ledger cannot decode. */
  lemma {:induction false} OtherContractsAreUnreadable(projection: string, show: int -> string)
    requires projection != FIRST_PROJECTION
    ensures var d := StagelessDatabase(projection);
      && M.WellFormed(d) && M.PassesPreflight(d)
      && d.events.Some? && |d.events.value.rows| == 1
      && ReadEvent(LedgerOf(M.Upgraded(d), show), d.events.value.rows[0].id) == Err(InvalidEvent)
  {
    hide M.StagesOf, M.ValidStages, M.HasSuccess, M.Plan, M.AppendAll, LedgerOf, ReadEvent;
    var d := StagelessDatabase(projection);
    var row := d.events.value.rows[0];
    FirstContractStages(row.payload.value.result);
    assert M.ValidEvent(row, d.mappings);
    assert M.FindRow(d.events.value.rows, row.id) == 0;
    MigratedEventReadableIff(d, show, row.id);
  }

  // ---- the ledger's invariant on a migrated database -------------------------------------------

  /** The primary keys and unique columns of the tables. */
  ghost predicate Keyed(d: M.Database) {
    && M.Authoritative(d).Some?
    && (var rows := M.Authoritative(d).value.rows;
        forall i, j :: 0 <= i < j < |rows| ==> rows[i].id != rows[j].id)
    && C.UniqueMappings(d.mappings)
  }

  /** The ledger's tables after migration 0007 has numbered the migrated events. */
  function NumberedLedger(d: M.Database, show: int -> string): Tables
    requires d.events.Some?
  {
    var t := LedgerOf(d, show);
    t.(events := N.Backfilled(t.events))
  }

  lemma {:induction false} MigratedRowsAreNumbered(rows: seq<M.Row>, show: int -> string)
    requires forall i, j :: 0 <= i < j < |rows| ==> rows[i].id != rows[j].id
    ensures var events := N.Backfilled(LedgerEvents(rows, show)); C.UniqueEvents(events) && C.Numbered(events)
  {
    hide N.Backfilled;
    var events := LedgerEvents(rows, show);
    assert forall i :: 0 <= i < |rows| ==> events[i].id == rows[i].id && events[i].sequence == None;
    N.BackfillNumbersAll(events);
    var r := N.Backfilled(events);
    forall i | 0 <= i < |r|
      ensures r[i].id == rows[i].id
    {
      assert r[i].(sequence := None) == events[i].(sequence := None);
    }
  }

  /** Reports of the migrated database are no shadow's. */
  lemma {:induction false} MigratedReportsAreGatedIff(reports: seq<M.StoredReport>, rows: seq<M.Row>, show: int -> string, t: Tables)
    requires t.reports == LedgerReports(reports, rows, show)
    ensures C.Gated(t) <==> forall k :: 0 <= k < |reports| ==> HasConfirmedCommit(t.stages, reports[k].event)
  {
    hide HasConfirmedCommit;
    assert forall k :: 0 <= k < |reports| ==>
      t.reports[k].event == reports[k].event && (t.reports[k].payload.Json? ==> t.reports[k].payload.value.scope == None);
  }

  /** A database that both migrations have upgraded meets the invariant of the ledger, so that all
      its theorems apply to it, exactly when every report whose event has embedded stages had a
      confirmed commit. */
  lemma {:induction false} MigratedIsSoundIff(d: M.Database, show: int -> string)
    requires M.WellFormed(d) && M.PassesPreflight(d) && Keyed(d)
    ensures var rows := M.Authoritative(d).value.rows;
      C.Sound(NumberedLedger(M.Upgraded(d), show)) <==>
      forall k :: 0 <= k < |d.reports| ==>
        || HasConfirmedCommit(d.stages, d.reports[k].event)
        || M.PredatesStages(rows[M.FindRow(rows, d.reports[k].event)])
  {
    hide M.Plan, M.AppendAll, M.ValidEvent, HasConfirmedCommit, LedgerEvents, LedgerReports, N.Backfilled, C.Gated, M.PredatesStages;
    var rows, up := M.Authoritative(d).value.rows, M.Upgraded(d);
    var t := NumberedLedger(up, show);
    MigratedRowsAreNumbered(rows, show);
    assert C.UniqueMappings(t.mappings) by { BareMappingsAreUnique(d.mappings); }
    assert Bound(t.stages) by { M.AppendAllEffect(d.stages, M.Plan(rows, d.reports)); }
    MigratedReportsAreGatedIff(d.reports, rows, show, t);
    forall k | 0 <= k < |d.reports|
      ensures HasConfirmedCommit(t.stages, d.reports[k].event) <==>
        || HasConfirmedCommit(d.stages, d.reports[k].event)
        || M.PredatesStages(rows[M.FindRow(rows, d.reports[k].event)])
    {
      assert M.ValidReport(d.reports[k], rows);
      ConfirmedAfter(d, d.reports[k].event);
    }
  }

  lemma {:induction false} ConfirmedAfter(d: M.Database, id: EventId)
    requires M.WellFormed(d) && Keyed(d)
    requires var rows := M.Authoritative(d).value.rows; M.FindRow(rows, id) < |rows|
    ensures var rows := M.Authoritative(d).value.rows;
      HasConfirmedCommit(M.Upgraded(d).stages, id) <==>
      HasConfirmedCommit(d.stages, id) || M.PredatesStages(rows[M.FindRow(rows, id)])
  {
    hide HasConfirmedCommit, M.Upgraded, M.PredatesStages;
    M.CommitGateAfter(d, id);
    var rows := M.Authoritative(d).value.rows;
    var i := M.FindRow(rows, id);
    assert rows[i] in rows;
    forall row | row in rows && row.id == id
      ensures row == rows[i]
    {
      var j :| 0 <= j < |rows| && rows[j] == row;
    }
  }

  lemma {:induction false} BareMappingsAreUnique(mappings: seq<MappingRow>)
    requires C.UniqueMappings(mappings)
    ensures C.UniqueMappings(LedgerMappings(mappings))
  {
  }
}
