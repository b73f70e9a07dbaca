/** Exposing a formal report: a stored projection is shown only through gates computed from
    the saved stage history, which also supplies its publication clocks. */
module ReportGates {
  import opened Outcomes
  import opened OrderedSets
  import opened StageResults
  import opened Identities
  import opened StageHistory
  import opened LedgerTables
  import opened EventLineage

  datatype GateError =
    | EventUnreadable(cause: ReadError) | UnknownEvent | InvalidReport | ReportMismatch
    | CommitClockMissing | PublicationClocksMissing | MonitoringClocksMissing

  /** A saved stage with the clock of its row. */
  type Saved = seq<(StageResult, int)>

  /** The stages bound to one event, in recording order. */
  function SavedStages(h: History, event: EventId): Saved {
    if h == [] then []
    else
      var last := h[|h| - 1];
      SavedStages(h[..|h| - 1], event)
      + if last.key.event == Some(event) then [(last.key.result, last.recordedAt)] else []
  }

  function Stages(saved: Saved): seq<StageResult> {
    seq(|saved|, i requires 0 <= i < |saved| => saved[i].0)
  }

  /** `setdefault`: the clock of the first successful stage of a phase. */
  function FirstSuccess(saved: Saved, phase: Phase): Option<int> {
    if saved == [] then None
    else
      var earlier := FirstSuccess(saved[..|saved| - 1], phase);
      var last := saved[|saved| - 1];
      if earlier.Some? then earlier
      else if IsSuccess(last.0, phase) then Some(last.1) else None
  }

  /** Dictionary overwrite: the clock of the last successful stage of a phase. */
  function LastSuccess(saved: Saved, phase: Phase): Option<int> {
    if saved == [] then None
    else
      var last := saved[|saved| - 1];
      if IsSuccess(last.0, phase) then Some(last.1) else LastSuccess(saved[..|saved| - 1], phase)
  }

  function LastClosureFailure(saved: Saved): (r: Option<(StageResult, int)>)
    ensures r.Some? ==> IsClosureFailure(r.value.0)
  {
    if saved == [] then None
    else
      var last := saved[|saved| - 1];
      if IsClosureFailure(last.0) then Some(last) else LastClosureFailure(saved[..|saved| - 1])
  }

  // ---- the stored projection --------------------------------------------------

  function ReportIdFor(f: Fact): ReportId {
    if f.corrects.Some? then CorrectionReport(f.frozen.CorrectionId(f.corrects.value))
    else ReportVersion(f.id, f.frozen.projection)
  }

  /** `stored_report_payload` read back as a report. The first projection contract stores
      neither stages nor correction lineage, and reads its stages back from the result. */
  function Projection(f: Fact, id: ReportId): (r: FormalReport)
    ensures r.stages != [] && r.stages[|r.stages| - 1] == PUBLISHED
  {
    var first := f.frozen.projection == "1.0.0";
    FormalReport(
      id, f.id, f.business, f.run, f.frozen.caseId,
      Or(f.generatedAt, f.frozen.reportGeneratedAt), f.frozen.contract, f.frozen.host, f.frozen.projection,
      f.frozen.scope, f.result,
      (if first then LegacyStages(HostDecision(f.result.outcome), f.result.keyReasons) else f.stages) + [PUBLISHED],
      if first then None else f.corrects, None, None)
  }

  /** A report of a later contract repeats scope, stages and lineage of its event, and one of the
      first contract neither stages nor lineage; both repeat result, versions and identities. */
  lemma {:induction false} ReportRepeatsEvent(f: Fact, id: ReportId)
    ensures var r := Projection(f, id);
      && (r.id, r.event, r.business, r.run, r.caseId) == (id, f.id, f.business, f.run, f.frozen.caseId)
      && (r.contract, r.host, r.projection) == (f.frozen.contract, f.frozen.host, f.frozen.projection)
      && r.scope == f.frozen.scope && r.result == f.result
      && r.publication.None? && r.monitoringClocks.None?
      && (f.generatedAt.Some? && f.generatedAt.value != "" ==> r.generatedAt == f.generatedAt.value)
      && (f.generatedAt.None? ==> r.generatedAt == f.frozen.reportGeneratedAt)
      && (f.frozen.projection != "1.0.0" ==> r.stages == f.stages + [PUBLISHED] && r.corrects == f.corrects)
      && (f.frozen.projection == "1.0.0" ==>
            r.corrects.None? && |r.stages| >= 4 && r.stages[|r.stages| - 2] == COMMITTED)
    ensures f.corrects.None? ==> ReportIdFor(f) == ReportVersion(f.id, f.frozen.projection)
    ensures f.corrects.Some? ==> ReportIdFor(f) == CorrectionReport(CorrectionEvent(f.frozen.business, f.corrects.value))
  {
  }

  /** `_stored_formal_report_from_row`. */
  function StoredReport(t: Tables, row: ReportRow): (r: Result<FormalReport, GateError>)
    ensures r.Ok? ==>
      && ReadEvent(t, row.event).Ok? && ReadEvent(t, row.event).value.Some?
      && var f := ReadEvent(t, row.event).value.value;
         r.value == Projection(f, row.id) && row.id == ReportIdFor(f) && row.payload == Json(r.value)
  {
    var event := ReadEvent(t, row.event);
    if event.Err? then Err(EventUnreadable(event.error))
    else if event.value.None? then Err(UnknownEvent)
    else if row.payload.Malformed? then Err(InvalidReport)
    else
      var f, report := event.value.value, row.payload.value;
      if report.id != row.id || report.event != row.event || report.generatedAt != row.generatedAt
         || row.id != ReportIdFor(f) || report != Projection(f, row.id)
      then Err(ReportMismatch)
      else Ok(report)
  }

  // ---- publication history ----------------------------------------------------

  function Keep(stages: seq<StageResult>, p: StageResult -> bool): seq<StageResult> {
    if stages == [] then []
    else (if p(stages[0]) then [stages[0]] else []) + Keep(stages[1..], p)
  }

  predicate IsCorrectionPhase(s: StageResult) {
    s.phase == Correction || s.phase == BusinessCommit || s.phase == CommitReconciliation || s.phase == Publication
  }

  /** `FormalReport.with_publication_history`. */
  function WithPublicationHistory(r: FormalReport, stages: seq<StageResult>): FormalReport
    requires r.stages != []
  {
    var final := r.stages[|r.stages| - 1];
    if !IsSuccess(final, Publication) then r
    else if r.corrects.None? then
      var history := Keep(stages, (s: StageResult) => s.phase == Publication && s.status != Succeeded);
      if history == [] then r else r.(stages := r.stages[..|r.stages| - 1] + history + [final])
    else
      var history := Keep(stages, IsCorrectionPhase);
      if history == [] then r
      else r.(stages := Keep(r.stages, (s: StageResult) => !IsCorrectionPhase(s)) + history)
  }

  function Closed(members: seq<ReleaseMember>): seq<ReleaseMember> {
    seq(|members|, i requires 0 <= i < |members| => members[i].(candidate := false))
  }

  /** `FormalReport.with_candidate_publication_failure`. */
  function WithCandidateFailure(r: FormalReport, failure: StageResult, committedAt: int, recordedAt: int): FormalReport
    requires r.result.release.Some?
    requires IsClosureFailure(failure)
  {
    var reason := failure.reasons[0];
    var release := r.result.release.value;
    r.(result := r.result.(
         outcome := "CANDIDATE_RELEASE_FAILED", keyReasons := [reason],
         release := Some(release.(disposition := "FAILED", members := Closed(release.members),
                                  reasons := Dedup(release.reasons + [reason])))),
       stages := Keep(r.stages, (s: StageResult) => s.phase != Publication) + [failure],
       publication := Some(PublicationFailed(committedAt, recordedAt, reason)))
  }

  /** `_with_publication_history`. */
  function Expose(r: FormalReport, saved: Saved): Result<FormalReport, GateError>
    requires r.stages != []
  {
    var failure := LastClosureFailure(saved);
    if r.result.release.Some? && failure.Some? then
      var committedAt := FirstSuccess(saved, BusinessCommit);
      if committedAt.None? then Err(CommitClockMissing)
      else Ok(WithCandidateFailure(r, failure.value.0, committedAt.value, failure.value.1))
    else
      var shown := WithPublicationHistory(r, Stages(saved));
      if r.result.monitoring.None? then
        if r.result.release.None? then Ok(shown)
        else
          var committedAt, publishedAt := LastSuccess(saved, BusinessCommit), LastSuccess(saved, Publication);
          if committedAt.None? || publishedAt.None? then Err(PublicationClocksMissing)
          else Ok(shown.(publication := Some(Published(committedAt.value, publishedAt.value))))
      else
        var committedAt, publishedAt := FirstSuccess(saved, BusinessCommit), FirstSuccess(saved, Publication);
        if committedAt.None? || publishedAt.None? then Err(MonitoringClocksMissing)
        else Ok(shown.(monitoringClocks := Some((committedAt.value, publishedAt.value))))
  }

  lemma {:induction false} InKeep(stages: seq<StageResult>, p: StageResult -> bool, s: StageResult)
    ensures s in Keep(stages, p) <==> s in stages && p(s)
    decreases |stages|
  {
    if stages != [] {
      InKeep(stages[1..], p, s);
      assert stages == [stages[0]] + stages[1..];
    }
  }

  /** A published original shows its own stages and, before the last of them, exactly the failed
      attempts to publish it; a correction shows exactly the correction stages that were saved, as
      soon as there are any, after its other stages. A report that was not published is left alone. */
  lemma {:induction false} HistoryIsShown(r: FormalReport, stages: seq<StageResult>, s: StageResult)
    requires r.stages != []
    ensures var q := WithPublicationHistory(r, stages).stages; var published := IsSuccess(r.stages[|r.stages| - 1], Publication);
      && (!published ==> q == r.stages)
      && (published && r.corrects.None? ==>
            && r.stages[..|r.stages| - 1] <= q
            && q != [] && q[|q| - 1] == r.stages[|r.stages| - 1]
            && (s in q <==> s in r.stages || (s in stages && s.phase == Publication && s.status != Succeeded)))
      && (published && r.corrects.Some? && (exists x :: x in stages && IsCorrectionPhase(x)) ==>
            (s in q <==> if IsCorrectionPhase(s) then s in stages else s in r.stages))
      && (published && r.corrects.Some? && !(exists x :: x in stages && IsCorrectionPhase(x)) ==> q == r.stages)
  {
    var failed := (x: StageResult) => x.phase == Publication && x.status != Succeeded;
    var q := WithPublicationHistory(r, stages).stages;
    if r.corrects.None? {
      var history := Keep(stages, failed);
      InKeep(stages, failed, s);
      assert r.stages == r.stages[..|r.stages| - 1] + [r.stages[|r.stages| - 1]];
      assert history == [] || !IsSuccess(r.stages[|r.stages| - 1], Publication)
        || q == r.stages[..|r.stages| - 1] + history + [r.stages[|r.stages| - 1]];
    } else {
      var history := Keep(stages, IsCorrectionPhase);
      var others := (x: StageResult) => !IsCorrectionPhase(x);
      InKeep(stages, IsCorrectionPhase, s);
      InKeep(r.stages, others, s);
      if x :| x in stages && IsCorrectionPhase(x) {
        InKeep(stages, IsCorrectionPhase, x);
      }
      if history != [] {
        InKeep(stages, IsCorrectionPhase, history[0]);
      }
      assert history == [] || !IsSuccess(r.stages[|r.stages| - 1], Publication) || q == Keep(r.stages, others) + history;
    }
  }

  /** The phases that belong to the correction itself. */
  lemma {:induction false} CorrectionPhases(s: StageResult)
    ensures IsCorrectionPhase(s) <==> s.phase in {Correction, BusinessCommit, CommitReconciliation, Publication}
  {
  }

  /** A candidate report that is closed by a failure names no candidate and is otherwise the same
      release: its members keep everything else, its reasons stay with the failure's added, and
      of its stages only the publications go, for that failure. */
  lemma {:induction false} ClosedReportHasNoCandidates(r: FormalReport, failure: StageResult, committedAt: int, recordedAt: int)
    requires r.result.release.Some? && IsClosureFailure(failure)
    ensures var q := WithCandidateFailure(r, failure, committedAt, recordedAt); var reason := failure.reasons[0];
      && q.result.release.Some?
      && var was, now := r.result.release.value, q.result.release.value;
      && now.disposition == "FAILED" && now.cutoff == was.cutoff
      && |now.members| == |was.members|
      && (forall i :: 0 <= i < |now.members| ==> now.members[i] == was.members[i].(candidate := false))
      && Distinct(now.reasons) && (forall x :: x in now.reasons <==> x in was.reasons || x == reason)
      && q.result.outcome == "CANDIDATE_RELEASE_FAILED" && q.result.keyReasons == [reason]
      && q.result.selection == r.result.selection && q.result.registrations == r.result.registrations
      && (forall s :: s in q.stages <==> s == failure || (s in r.stages && s.phase != Publication))
      && q.publication == Some(PublicationFailed(committedAt, recordedAt, reason))
  {
    var q := WithCandidateFailure(r, failure, committedAt, recordedAt);
    var was, reason := r.result.release.value, failure.reasons[0];
    var others := (s: StageResult) => s.phase != Publication;
    forall s: StageResult
      ensures s in q.stages <==> s == failure || (s in r.stages && s.phase != Publication)
    {
      InKeep(r.stages, others, s);
      assert q.stages == Keep(r.stages, others) + [failure];
    }
    forall x
      ensures x in q.result.release.value.reasons <==> x in was.reasons || x == reason
    {
      assert x in Set(Dedup(was.reasons + [reason])) <==> x in Set(was.reasons + [reason]);
    }
  }

  function FindReport(reports: seq<ReportRow>, id: ReportId): (i: nat)
    ensures i <= |reports|
    ensures i < |reports| ==> reports[i].id == id
    ensures forall j :: 0 <= j < i ==> reports[j].id != id
  {
    if reports == [] then 0
    else if reports[0].id == id then 0
    else 1 + FindReport(reports[1..], id)
  }

  /** `get_formal_report`: the inner join with the event table, the two gates, the binding of
      the stored JSON, and the publication history, in that order. */
  function PublicRead(t: Tables, id: ReportId): Result<Option<FormalReport>, GateError> {
    var i := FindReport(t.reports, id);
    if i == |t.reports| then Ok(None)
    else
      var row := t.reports[i];
      if FindEvent(t.events, row.event) == |t.events| then Ok(None)
      else if !HasConfirmedCommit(t.stages, row.event) || !HasVisibility(t.stages, row.event) then Ok(None)
      else
        var stored := StoredReport(t, row);
        if stored.Err? then Err(stored.error)
        else
          var shown := Expose(stored.value, SavedStages(t.stages, row.event));
          if shown.Err? then Err(shown.error) else Ok(Some(shown.value))
  }

  // ---- gates and clocks agree ---------------------------------------------------

  lemma {:induction false} SavedAppend(a: History, b: History, event: EventId)
    ensures SavedStages(a + b, event) == SavedStages(a, event) + SavedStages(b, event)
    decreases |b|
  {
    if b == [] {
      assert a + b == a;
    } else {
      var init := b[..|b| - 1];
      assert (a + b)[..|a + b| - 1] == a + init;
      SavedAppend(a, init, event);
    }
  }

  lemma {:induction false} FirstSuccessAppend(a: Saved, b: Saved, phase: Phase)
    ensures FirstSuccess(a + b, phase) ==
      if FirstSuccess(a, phase).Some? then FirstSuccess(a, phase) else FirstSuccess(b, phase)
    decreases |b|
  {
    if b == [] {
      assert a + b == a;
    } else {
      var init := b[..|b| - 1];
      assert (a + b)[..|a + b| - 1] == a + init;
      FirstSuccessAppend(a, init, phase);
    }
  }

  lemma {:induction false} LastSuccessAppend(a: Saved, b: Saved, phase: Phase)
    ensures LastSuccess(a + b, phase) ==
      if LastSuccess(b, phase).Some? then LastSuccess(b, phase) else LastSuccess(a, phase)
    decreases |b|
  {
    if b == [] {
      assert a + b == a;
    } else {
      var init := b[..|b| - 1];
      assert (a + b)[..|a + b| - 1] == a + init;
      LastSuccessAppend(a, init, phase);
    }
  }

  lemma {:induction false} LastClosureFailureAppend(a: Saved, b: Saved)
    ensures LastClosureFailure(a + b) ==
      if LastClosureFailure(b).Some? then LastClosureFailure(b) else LastClosureFailure(a)
    decreases |b|
  {
    if b == [] {
      assert a + b == a;
    } else {
      var init := b[..|b| - 1];
      assert (a + b)[..|a + b| - 1] == a + init;
      LastClosureFailureAppend(a, init);
    }
  }

  lemma {:induction false} FirstExistsIffLastExists(saved: Saved, phase: Phase)
    ensures FirstSuccess(saved, phase).Some? <==> LastSuccess(saved, phase).Some?
  {
    if saved != [] {
      FirstExistsIffLastExists(saved[..|saved| - 1], phase);
    }
  }

  /** The gates are open exactly when the clocks that the projection reads exist. */
  lemma {:induction false} GatesAreClocks(h: History, event: EventId)
    ensures var saved := SavedStages(h, event);
      && (HasConfirmedCommit(h, event) <==> FirstSuccess(saved, BusinessCommit).Some?)
      && (HasVisibility(h, event) <==>
            FirstSuccess(saved, Publication).Some? || LastClosureFailure(saved).Some?)
  {
    if h == [] {
      assert !HasConfirmedCommit(h, event) && !HasVisibility(h, event);
    } else {
      hide HasConfirmedCommit, HasVisibility;
      var init, last := h[..|h| - 1], h[|h| - 1];
      GatesAreClocks(init, event);
      GateAppend(init, last, event);
      assert h == init + [last];
      var tail: Saved := if last.key.event == Some(event) then [(last.key.result, last.recordedAt)] else [];
      FirstSuccessAppend(SavedStages(init, event), tail, BusinessCommit);
      FirstSuccessAppend(SavedStages(init, event), tail, Publication);
      LastClosureFailureAppend(SavedStages(init, event), tail);
    }
  }

  /** An appended stage can only open a gate. */
  lemma {:induction false} GateAppend(h: History, row: StageRow, event: EventId)
    ensures HasConfirmedCommit(h + [row], event) <==>
      HasConfirmedCommit(h, event) || (row.key.event == Some(event) && IsSuccess(row.key.result, BusinessCommit))
    ensures HasVisibility(h + [row], event) <==>
      HasVisibility(h, event) || (row.key.event == Some(event)
        && (IsSuccess(row.key.result, Publication) || IsClosureFailure(row.key.result)))
  {
    var g := h + [row];
    assert g[|h|] == row;
    assert forall i :: 0 <= i < |h| ==> g[i] == h[i];
  }

  lemma {:induction false} GatesGrow(a: History, b: History, event: EventId)
    requires a <= b
    ensures HasConfirmedCommit(a, event) ==> HasConfirmedCommit(b, event)
    ensures HasVisibility(a, event) ==> HasVisibility(b, event)
  {
  }

  /** A candidate report that passed both gates is always exposed: neither missing-clock error
      of the candidate branches can be reached. */
  lemma {:induction false} CandidateClocksExist(h: History, event: EventId, r: FormalReport)
    requires r.stages != []
    requires r.result.release.Some?
    requires HasConfirmedCommit(h, event) && HasVisibility(h, event)
    ensures Expose(r, SavedStages(h, event)).Ok?
  {
    var saved := SavedStages(h, event);
    GatesAreClocks(h, event);
    FirstExistsIffLastExists(saved, BusinessCommit);
    FirstExistsIffLastExists(saved, Publication);
  }

  /** A gated monitoring report is refused exactly when it has no candidate release and was
      never published: a closure failure opens the visibility gate without supplying a clock. */
  lemma {:induction false} MonitoringClocksMissingIff(h: History, event: EventId, r: FormalReport)
    requires r.stages != []
    requires r.result.monitoring.Some?
    requires HasConfirmedCommit(h, event) && HasVisibility(h, event)
    ensures Expose(r, SavedStages(h, event)) == Err(MonitoringClocksMissing) <==>
      r.result.release.None? && !exists i :: 0 <= i < |h| && h[i].key.event == Some(event) && IsSuccess(h[i].key.result, Publication)
  {
    GatesAreClocks(h, event);
    PublishedIsClock(h, event);
  }

  lemma {:induction false} PublishedIsClock(h: History, event: EventId)
    ensures FirstSuccess(SavedStages(h, event), Publication).Some? <==>
      exists i :: 0 <= i < |h| && h[i].key.event == Some(event) && IsSuccess(h[i].key.result, Publication)
  {
    if h != [] {
      var init, last := h[..|h| - 1], h[|h| - 1];
      PublishedIsClock(init, event);
      var tail: Saved := if last.key.event == Some(event) then [(last.key.result, last.recordedAt)] else [];
      FirstSuccessAppend(SavedStages(init, event), tail, Publication);
      assert forall i :: 0 <= i < |init| ==> h[i] == init[i];
      if exists i :: 0 <= i < |init| && init[i].key.event == Some(event) && IsSuccess(init[i].key.result, Publication) {
        var i :| 0 <= i < |init| && init[i].key.event == Some(event) && IsSuccess(init[i].key.result, Publication);
        assert h[i] == init[i];
      }
    }
  }

  /** The two calls that record a commit and then a closure failure of the event. */
  function CommitThenClose(event: EventId): seq<StageCall> {
    var failure := StageResult(Publication, Failed, [], ["PUBLICATION_AFTER_CANDIDATE_WINDOW"]);
    [Append(StageKey("object", "run", Some(event), COMMITTED), false, 1),
     Append(StageKey("object", "run", Some(event), failure), false, 2)]
  }

  /** Two different stages recorded in an empty table. */
  lemma {:induction false} TwoRows(a: StageKey, b: StageKey)
    requires a != b
    ensures Calls([], [Append(a, false, 1), Append(b, false, 2)])
         == [StageRow(Generated(a, None), a, 1), StageRow(Generated(b, None), b, 2)]
  {
    var calls := [Append(a, false, 1), Append(b, false, 2)];
    var one := [StageRow(Generated(a, None), a, 1)];
    var two := one + [StageRow(Generated(b, None), b, 2)];
    assert [] + one == one && Record([], a, false, 1) == Ok([] + one);
    CountAppend([], one[0], b);
    assert Record(one, b, false, 2) == Ok(two);
    assert Calls([], calls) == Calls(one, calls[1..]) == Calls(two, calls[1..][1..]) == two;
  }

  lemma {:induction false} CommitThenCloseRows(event: EventId)
    ensures var calls := CommitThenClose(event); var commit, close := calls[0].key, calls[1].key;
      Calls([], calls) == [StageRow(Generated(commit, None), commit, 1), StageRow(Generated(close, None), close, 2)]
  {
    hide Calls;
    var calls := CommitThenClose(event);
    var commit, close := calls[0].key, calls[1].key;
    assert calls == [Append(commit, false, 1), Append(close, false, 2)] && commit != close;
    hide CommitThenClose;
    TwoRows(commit, close);
  }

  /** The refusal is reachable through the stage table: recording a commit and then a closure
      failure of a monitoring event passes both gates, and the event still cannot be shown. */
  lemma {:induction false} MonitoringClosureFailureIsUnreadable(event: EventId, r: FormalReport)
    requires r.stages != []
    requires r.result.monitoring.Some? && r.result.release.None?
    ensures var h := Calls([], CommitThenClose(event));
      && HasConfirmedCommit(h, event) && HasVisibility(h, event)
      && Expose(r, SavedStages(h, event)) == Err(MonitoringClocksMissing)
  {
    hide Calls, Expose, SavedStages;
    CommitThenCloseRows(event);
    var h := Calls([], CommitThenClose(event));
    assert IsSuccess(h[0].key.result, BusinessCommit);
    assert h[1].key.result.reasons[0] in CLOSURE_FAILURES && IsClosureFailure(h[1].key.result);
    MonitoringClocksMissingIff(h, event, r);
  }

  ghost predicate IsFirst(saved: Saved, phase: Phase, i: nat) {
    && i < |saved| && IsSuccess(saved[i].0, phase)
    && forall k :: 0 <= k < i ==> !IsSuccess(saved[k].0, phase)
  }

  ghost predicate IsLast(saved: Saved, phase: Phase, i: nat) {
    && i < |saved| && IsSuccess(saved[i].0, phase)
    && forall k :: i < k < |saved| ==> !IsSuccess(saved[k].0, phase)
  }

  ghost predicate IsLastFailure(saved: Saved, i: nat) {
    && i < |saved| && IsClosureFailure(saved[i].0)
    && forall k :: i < k < |saved| ==> !IsClosureFailure(saved[k].0)
  }

  lemma {:induction false} FirstSuccessAt(saved: Saved, phase: Phase, i: nat)
    requires IsFirst(saved, phase, i)
    ensures FirstSuccess(saved, phase) == Some(saved[i].1)
  {
    var init := saved[..|saved| - 1];
    if i < |init| {
      FirstSuccessAt(init, phase, i);
    } else {
      NoFirstSuccess(init, phase);
    }
  }

  lemma {:induction false} NoFirstSuccess(saved: Saved, phase: Phase)
    requires forall k :: 0 <= k < |saved| ==> !IsSuccess(saved[k].0, phase)
    ensures FirstSuccess(saved, phase).None?
  {
    if saved != [] {
      NoFirstSuccess(saved[..|saved| - 1], phase);
    }
  }

  lemma {:induction false} LastSuccessAt(saved: Saved, phase: Phase, i: nat)
    requires IsLast(saved, phase, i)
    ensures LastSuccess(saved, phase) == Some(saved[i].1)
  {
    if i < |saved| - 1 {
      LastSuccessAt(saved[..|saved| - 1], phase, i);
    }
  }

  lemma {:induction false} LastFailureAt(saved: Saved, i: nat)
    requires IsLastFailure(saved, i)
    ensures LastClosureFailure(saved) == Some(saved[i])
  {
    if i < |saved| - 1 {
      LastFailureAt(saved[..|saved| - 1], i);
    }
  }

  lemma {:induction false} NoFailure(saved: Saved)
    requires forall k :: 0 <= k < |saved| ==> !IsClosureFailure(saved[k].0)
    ensures LastClosureFailure(saved).None?
  {
    if saved != [] {
      NoFailure(saved[..|saved| - 1]);
    }
  }

  /** A closed candidate report shows the clock of its first confirmed commit, and clock and first
      reason of its last closure failure. */
  lemma {:induction false} ClosedClocks(r: FormalReport, saved: Saved, i: nat, j: nat)
    requires r.stages != [] && r.result.release.Some?
    requires IsFirst(saved, BusinessCommit, i) && IsLastFailure(saved, j)
    ensures Expose(r, saved) == Ok(WithCandidateFailure(r, saved[j].0, saved[i].1, saved[j].1))
    ensures Expose(r, saved).value.publication
         == Some(PublicationFailed(saved[i].1, saved[j].1, saved[j].0.reasons[0]))
  {
    FirstSuccessAt(saved, BusinessCommit, i);
    LastFailureAt(saved, j);
  }

  /** A published candidate report shows the clocks of its last commit and its last publication. */
  lemma {:induction false} PublishedClocks(r: FormalReport, saved: Saved, i: nat, j: nat)
    requires r.stages != [] && r.result.release.Some? && r.result.monitoring.None?
    requires IsLast(saved, BusinessCommit, i) && IsLast(saved, Publication, j)
    requires forall k :: 0 <= k < |saved| ==> !IsClosureFailure(saved[k].0)
    ensures Expose(r, saved)
         == Ok(WithPublicationHistory(r, Stages(saved)).(publication := Some(Published(saved[i].1, saved[j].1))))
  {
    hide WithPublicationHistory;
    LastSuccessAt(saved, BusinessCommit, i);
    LastSuccessAt(saved, Publication, j);
    NoFailure(saved);
  }

  /** A monitoring report shows the clocks of its first commit and its first publication. */
  lemma {:induction false} MonitoringClocksAre(r: FormalReport, saved: Saved, i: nat, j: nat)
    requires r.stages != [] && r.result.monitoring.Some? && r.result.release.None?
    requires IsFirst(saved, BusinessCommit, i) && IsFirst(saved, Publication, j)
    ensures Expose(r, saved)
         == Ok(WithPublicationHistory(r, Stages(saved)).(monitoringClocks := Some((saved[i].1, saved[j].1))))
  {
    hide WithPublicationHistory;
    FirstSuccessAt(saved, BusinessCommit, i);
    FirstSuccessAt(saved, Publication, j);
  }

  /** Any other report is shown with its publication history alone. */
  lemma {:induction false} PlainIsShown(r: FormalReport, saved: Saved)
    requires r.stages != [] && r.result.release.None? && r.result.monitoring.None?
    ensures Expose(r, saved) == Ok(WithPublicationHistory(r, Stages(saved)))
  {
  }

  /** A failed publication for one of the two reasons that close a candidate report. */
  ghost predicate ClosesCandidate(s: StageResult) {
    && s.phase == Publication && s.status == Failed
    && (|| "PUBLICATION_AFTER_CANDIDATE_WINDOW" in s.reasons
        || "CANDIDATE_QUALIFICATION_CHANGED_BEFORE_PUBLICATION" in s.reasons)
  }

  lemma {:induction false} ClosureReasons(s: StageResult)
    ensures IsClosureFailure(s) <==> ClosesCandidate(s)
  {
    var late, changed := "PUBLICATION_AFTER_CANDIDATE_WINDOW", "CANDIDATE_QUALIFICATION_CHANGED_BEFORE_PUBLICATION";
    assert forall x :: x in CLOSURE_FAILURES <==> x == late || x == changed;
  }

  /** The gates in terms of the rows themselves. */
  lemma {:induction false} GateMeaning(h: History, event: EventId)
    ensures HasConfirmedCommit(h, event) <==>
      (exists i :: 0 <= i < |h| && h[i].key.event == Some(event)
         && h[i].key.result.phase == BusinessCommit && h[i].key.result.status == Succeeded)
    ensures HasVisibility(h, event) <==>
      (exists i :: 0 <= i < |h| && h[i].key.event == Some(event)
         && (|| (h[i].key.result.phase == Publication && h[i].key.result.status == Succeeded)
             || ClosesCandidate(h[i].key.result)))
  {
    forall s: StageResult
      ensures IsClosureFailure(s) <==> ClosesCandidate(s)
    {
      ClosureReasons(s);
    }
    hide IsClosureFailure, ClosesCandidate;
  }

  /** A recorded closure failure overrides every later stage that is not itself one: the
      exposed candidate report does not change at all. */
  lemma {:induction false} ClosureFailureOverrides(r: FormalReport, saved: Saved, later: Saved)
    requires r.stages != []
    requires r.result.release.Some?
    requires LastClosureFailure(saved).Some? && FirstSuccess(saved, BusinessCommit).Some?
    requires LastClosureFailure(later).None?
    ensures Expose(r, saved + later) == Expose(r, saved)
    ensures Expose(r, saved).Ok? && Expose(r, saved).value.publication.Some?
      && Expose(r, saved).value.publication.value.PublicationFailed?
  {
    LastClosureFailureAppend(saved, later);
    FirstSuccessAppend(saved, later, BusinessCommit);
  }

  /** A published monitoring report keeps its clocks whatever is appended. */
  lemma {:induction false} MonitoringClocksAreFixed(r: FormalReport, saved: Saved, later: Saved)
    requires r.stages != []
    requires r.result.monitoring.Some?
    requires r.result.release.None? || (LastClosureFailure(saved).None? && LastClosureFailure(later).None?)
    requires Expose(r, saved).Ok?
    ensures Expose(r, saved + later).Ok?
    ensures Expose(r, saved + later).value.monitoringClocks == Expose(r, saved).value.monitoringClocks
    ensures Expose(r, saved).value.monitoringClocks.Some?
  {
    LastClosureFailureAppend(saved, later);
    FirstSuccessAppend(saved, later, BusinessCommit);
    FirstSuccessAppend(saved, later, Publication);
  }

  /** A published candidate report's clocks follow the last success instead, so they stay
      exactly when the appended stages bring no success with another clock. */
  lemma {:induction false} CandidateClocksFollowLastSuccess(r: FormalReport, saved: Saved, later: Saved)
    requires r.stages != []
    requires r.result.release.Some? && r.result.monitoring.None?
    requires LastClosureFailure(saved).None? && LastClosureFailure(later).None?
    requires Expose(r, saved).Ok?
    ensures Expose(r, saved + later).Ok?
    ensures Expose(r, saved + later).value.publication == Expose(r, saved).value.publication <==>
      (forall phase :: phase in {BusinessCommit, Publication} ==>
         LastSuccess(later, phase).None? || LastSuccess(later, phase) == LastSuccess(saved, phase))
  {
    LastClosureFailureAppend(saved, later);
    LastSuccessAppend(saved, later, BusinessCommit);
    LastSuccessAppend(saved, later, Publication);
    assert BusinessCommit in {BusinessCommit, Publication} && Publication in {BusinessCommit, Publication};
  }

  /** A commit and a publication, and then the publication recorded once more as a repeat. */
  function PublishTwice(event: EventId): seq<StageCall> {
    var published := StageKey("object", "run", Some(event), PUBLISHED);
    [Append(StageKey("object", "run", Some(event), COMMITTED), false, 1), Append(published, false, 2),
     Append(published, true, 3)]
  }

  lemma {:induction false} RepeatRow(a: StageKey, b: StageKey)
    requires a != b
    ensures var two := [StageRow(Generated(a, None), a, 1), StageRow(Generated(b, None), b, 2)];
      Record(two, b, true, 3) == Ok(two + [StageRow(Generated(b, Some(2)), b, 3)])
  {
    var one := [StageRow(Generated(a, None), a, 1)];
    var two := one + [StageRow(Generated(b, None), b, 2)];
    CountAppend([], one[0], b);
    CountAppend(one, two[1], b);
    assert [] + one == one && Count(two, b) == 1;
    assert two == [StageRow(Generated(a, None), a, 1), StageRow(Generated(b, None), b, 2)];
    assert NextId(two, b, true) == Generated(b, Some(2)) && !HasId(two, Generated(b, Some(2)));
  }

  /** A stage recorded again as a repeat. */
  lemma {:induction false} ThirdRow(a: StageKey, b: StageKey)
    requires a != b
    ensures Calls([], [Append(a, false, 1), Append(b, false, 2), Append(b, true, 3)])
         == [StageRow(Generated(a, None), a, 1), StageRow(Generated(b, None), b, 2),
             StageRow(Generated(b, Some(2)), b, 3)]
  {
    hide Calls, Record;
    var first, last := [Append(a, false, 1), Append(b, false, 2)], Append(b, true, 3);
    TwoRows(a, b);
    RepeatRow(a, b);
    CallsNext([], first, last);
    assert first + [last] == [Append(a, false, 1), Append(b, false, 2), last];
  }

  lemma {:induction false} CallsNext(h: History, calls: seq<StageCall>, last: StageCall)
    ensures var g := Calls(h, calls); Calls(h, calls + [last]) == Settle(g, Call(g, last))
    decreases |calls|
  {
    hide Call;
    if calls == [] {
      assert calls + [last] == [last] && [last][1..] == [];
    } else {
      assert (calls + [last])[1..] == calls[1..] + [last];
      CallsNext(Settle(h, Call(h, calls[0])), calls[1..], last);
    }
  }

  lemma {:induction false} PublishTwiceRows(event: EventId)
    ensures var calls := PublishTwice(event); var commit, published := calls[0].key, calls[1].key;
      var rows := [StageRow(Generated(commit, None), commit, 1), StageRow(Generated(published, None), published, 2)];
      && Calls([], calls[..2]) == rows
      && Calls([], calls) == rows + [StageRow(Generated(published, Some(2)), published, 3)]
  {
    hide Calls;
    var calls := PublishTwice(event);
    var commit, published := calls[0].key, calls[1].key;
    assert calls == [Append(commit, false, 1), Append(published, false, 2), Append(published, true, 3)] && commit != published;
    hide PublishTwice;
    assert calls[..2] == [Append(commit, false, 1), Append(published, false, 2)];
    TwoRows(commit, published);
    ThirdRow(commit, published);
  }

  lemma {:induction false} SavedNext(h: History, row: StageRow, event: EventId)
    requires row.key.event == Some(event)
    ensures SavedStages(h + [row], event) == SavedStages(h, event) + [(row.key.result, row.recordedAt)]
  {
    assert (h + [row])[..|h|] == h;
  }

  /** The clocks of a candidate report whose last saved stage is a publication. */
  lemma {:induction false} LastPublication(r: FormalReport, saved: Saved, at: int)
    requires r.stages != []
    requires r.result.release.Some? && r.result.monitoring.None?
    requires LastClosureFailure(saved).None? && LastSuccess(saved, BusinessCommit).Some?
    ensures var x := Expose(r, saved + [(PUBLISHED, at)]);
      && LastClosureFailure(saved + [(PUBLISHED, at)]).None?
      && LastSuccess(saved + [(PUBLISHED, at)], BusinessCommit) == LastSuccess(saved, BusinessCommit)
      && x.Ok? && x.value.publication == Some(Published(LastSuccess(saved, BusinessCommit).value, at))
  {
    hide WithPublicationHistory;
    var all := saved + [(PUBLISHED, at)];
    assert all[..|saved|] == saved && all[|saved|] == (PUBLISHED, at);
  }

  /** A repeated publication moves the publication clock of a candidate report. */
  lemma {:induction false} CandidateClockMoves(event: EventId, r: FormalReport)
    requires r.stages != []
    requires r.result.release.Some? && r.result.monitoring.None?
    ensures var before, after := Calls([], PublishTwice(event)[..2]), Calls([], PublishTwice(event));
      var x, y := Expose(r, SavedStages(before, event)), Expose(r, SavedStages(after, event));
      && before <= after && x.Ok? && y.Ok?
      && x.value.publication == Some(Published(1, 2)) && y.value.publication == Some(Published(1, 3))
  {
    hide Calls, Expose, SavedStages;
    PublishTwiceRows(event);
    var after := Calls([], PublishTwice(event));
    var one: Saved := [(COMMITTED, 1)];
    assert SavedStages([after[0]], event) == one by {
      SavedNext([], after[0], event);
      assert [] + [after[0]] == [after[0]] && SavedStages([], event) + one == one by { SavedNothing(event); }
    }
    SavedNext([after[0]], after[1], event);
    SavedNext([after[0]] + [after[1]], after[2], event);
    assert after[..2] == [after[0]] + [after[1]] && after == [after[0]] + [after[1]] + [after[2]];
    assert one[..0] == [] && LastSuccess(one, BusinessCommit) == Some(1) && LastClosureFailure(one).None?;
    LastPublication(r, one, 2);
    LastPublication(r, one + [(PUBLISHED, 2)], 3);
  }

  lemma {:induction false} SavedNothing(event: EventId)
    ensures SavedStages([], event) == []
  {
  }

  /** The loop of `_with_publication_history` that fills the monitoring clocks. */
  method MonitoringClocks(saved: Saved) returns (clocks: map<Phase, int>)
    ensures forall phase :: phase in clocks <==> FirstSuccess(saved, phase).Some?
    ensures forall phase :: phase in clocks ==> FirstSuccess(saved, phase) == Some(clocks[phase])
  {
    clocks := map[];
    for i := 0 to |saved|
      invariant forall phase :: phase in clocks <==> FirstSuccess(saved[..i], phase).Some?
      invariant forall phase :: phase in clocks ==> FirstSuccess(saved[..i], phase) == Some(clocks[phase])
    {
      assert saved[..i + 1][..i] == saved[..i];
      var (stage, at) := saved[i];
      if stage.status == Succeeded && stage.phase !in clocks {
        clocks := clocks[stage.phase := at];
      }
    }
    assert saved[..|saved|] == saved;
  }

  // ---- what a public read means -----------------------------------------------

  /** A public read returns a report exactly when its row, its event, a bound successful commit
      and a bound publication or closure failure are saved, the stored JSON is the projection of
      the readable event, and the clocks exist; and then it returns that projection exposed
      through the event's saved stages. */
  lemma {:induction false} PublicReadIff(t: Tables, id: ReportId, r: FormalReport)
    ensures PublicRead(t, id) == Ok(Some(r)) <==>
      var i := FindReport(t.reports, id);
      && i < |t.reports|
      && var row := t.reports[i];
         var event := ReadEvent(t, row.event);
      && HasConfirmedCommit(t.stages, row.event)
      && HasVisibility(t.stages, row.event)
      && event.Ok? && event.value.Some?
      && var f := event.value.value;
      && id == ReportIdFor(f)
      && row.payload == Json(Projection(f, id))
      && row.generatedAt == Projection(f, id).generatedAt
      && Expose(Projection(f, id), SavedStages(t.stages, row.event)) == Ok(r)
  {
    hide ReadEvent, HasConfirmedCommit, HasVisibility, Expose, SavedStages, Projection, ReportIdFor;
    var i := FindReport(t.reports, id);
    if i < |t.reports| {
      StoredReportIff(t, t.reports[i]);
      ReadMeansRow(t, t.reports[i].event);
    }
  }

  lemma {:induction false} ReadMeansRow(t: Tables, event: EventId)
    ensures ReadEvent(t, event).Ok? && ReadEvent(t, event).value.Some? ==>
      FindEvent(t.events, event) < |t.events| && ReadEvent(t, event).value.value.id == event
  {
  }

  /** A stored report is returned exactly when it is its readable event's projection. */
  lemma {:induction false} StoredReportIff(t: Tables, row: ReportRow)
    ensures var event := ReadEvent(t, row.event);
      StoredReport(t, row).Ok? <==>
      && event.Ok? && event.value.Some?
      && var f := event.value.value;
      && row.id == ReportIdFor(f)
      && row.payload == Json(Projection(f, row.id))
      && row.generatedAt == Projection(f, row.id).generatedAt
  {
    hide ReadEvent, ReportIdFor;
    ReadMeansRow(t, row.event);
  }
}
