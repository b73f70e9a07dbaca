/** Values shared by every component: optional values, checked results, and the
    phase outcomes that the ledger, the migrations and the read gates exchange. */
module Outcomes {
  datatype Option<+T> = None | Some(value: T)

  datatype Result<+T, +E> = Ok(value: T) | Err(error: E)
}

module StageResults {
  import opened Outcomes

  datatype Phase =
    | FrameworkRun | HostValidation | BusinessDecision | AdjudicationLifecycle
    | ValidityLifecycle | ExecutionLifecycle | CommitReconciliation | BusinessCommit
    | Publication | Notification | Correction | OtherPhase(name: string)

  datatype Status =
    | Created | Running | Waiting | Succeeded | Rejected | Failed | Cancelled
    | Abstained | Pending | Expired | ExecutionBlocked | Unknown

  datatype Gate = Gate(gateId: string, status: string)

  /** One phase outcome. Its canonical JSON is injective, so the value stands for the payload. */
  datatype StageResult = StageResult(phase: Phase, status: Status, gates: seq<Gate>, reasons: seq<string>)

  predicate IsSuccess(stage: StageResult, phase: Phase) {
    stage.phase == phase && stage.status == Succeeded
  }

  const CLOSURE_FAILURES: set<string> :=
    {"PUBLICATION_AFTER_CANDIDATE_WINDOW", "CANDIDATE_QUALIFICATION_CHANGED_BEFORE_PUBLICATION"}

  /** A failed publication that closes a candidate report for good. */
  predicate IsClosureFailure(stage: StageResult) {
    && stage.phase == Publication
    && stage.status == Failed
    && exists i :: 0 <= i < |stage.reasons| && stage.reasons[i] in CLOSURE_FAILURES
  }

  /** The publication stage that every stored report ends with. */
  const PUBLISHED: StageResult :=
    StageResult(Publication, Succeeded, [Gate("EVENT_COMMITTED", "PASSED")], [])

  /** The commit stage that a confirmed host commit records. */
  const COMMITTED: StageResult :=
    StageResult(BusinessCommit, Succeeded, [Gate("HOST_RESULT_SAVED", "PASSED")], [])

  /** What a stage-less payload of the first contract is read as: a terminal run, a passed
      host validation, the business phase its outcome code names, and a saved commit. */
  function LegacyStages(decision: Option<(Phase, Status)>, reasons: seq<string>): seq<StageResult> {
    [StageResult(FrameworkRun, Succeeded, [Gate("RUN_TERMINAL", "PASSED")], []),
     StageResult(HostValidation, Succeeded, [Gate("FROZEN_RESULT_MATCH", "PASSED")], reasons)]
    + (if decision.Some? then
         [StageResult(decision.value.0, decision.value.1,
                      [Gate("OUTPUT_CONTRACT", "PASSED"), Gate("FROZEN_RESULT_MATCH", "PASSED")], reasons)]
       else [])
    + [COMMITTED]
  }

  /** The outcome codes that the 0004 migration knows. */
  function MigrationDecision(outcome: string): Option<(Phase, Status)> {
    if outcome == "SYNTHETIC_REVIEW_COMPLETE" then Some((BusinessDecision, Succeeded))
    else if outcome == "SYNTHETIC_INPUT_REJECTED" then Some((BusinessDecision, Rejected))
    else if outcome == "SYNTHETIC_RESULT_ABSTAINED" then Some((BusinessDecision, Abstained))
    else if outcome == "SYNTHETIC_RESULT_FAILED" then Some((BusinessDecision, Failed))
    else None
  }

  const RESEARCH_FAILURES: set<string> :=
    {"RESEARCH_DATA_FAILED", "RESEARCH_SYSTEM_FAILED", "RESEARCH_RAW_SCORE_FAILED", "RESEARCH_RISK_FAILED"}

  /** The outcome codes that the current host knows. */
  function HostDecision(outcome: string): Option<(Phase, Status)> {
    if outcome == "CANDIDATE_RELEASE_REQUESTED" then Some((BusinessDecision, Succeeded))
    else if outcome == "SYNTHETIC_RESULT_PENDING" then Some((AdjudicationLifecycle, Pending))
    else if outcome == "SYNTHETIC_RESULT_EXPIRED" then Some((ValidityLifecycle, Expired))
    else if outcome == "SYNTHETIC_RESULT_EXECUTION_BLOCKED" then Some((ExecutionLifecycle, ExecutionBlocked))
    else if outcome == "SYNTHETIC_RESULT_UNKNOWN" then Some((AdjudicationLifecycle, Unknown))
    else if outcome == "RESEARCH_FROZEN" then Some((BusinessDecision, Succeeded))
    else if outcome == "RESEARCH_REJECTED" || outcome == "RESEARCH_BLOCKED" then Some((BusinessDecision, Rejected))
    else if outcome in RESEARCH_FAILURES then Some((BusinessDecision, Failed))
    else MigrationDecision(outcome)
  }

  /** The host reads every code that the migration knows as the migration does. */
  lemma {:induction false} DecisionsAgree(outcome: string)
    ensures MigrationDecision(outcome).Some? ==> HostDecision(outcome) == MigrationDecision(outcome)
    ensures MigrationDecision(outcome).Some? <==>
      outcome in {"SYNTHETIC_REVIEW_COMPLETE", "SYNTHETIC_INPUT_REJECTED", "SYNTHETIC_RESULT_ABSTAINED", "SYNTHETIC_RESULT_FAILED"}
  {
  }

  /** The outcome codes by the decision they stand for. */
  lemma {:induction false} CodesByDecision(outcome: string)
    ensures var d := HostDecision(outcome);
      && (d == Some((BusinessDecision, Succeeded)) <==>
            outcome in {"SYNTHETIC_REVIEW_COMPLETE", "CANDIDATE_RELEASE_REQUESTED", "RESEARCH_FROZEN"})
      && (d == Some((BusinessDecision, Rejected)) <==>
            outcome in {"SYNTHETIC_INPUT_REJECTED", "RESEARCH_REJECTED", "RESEARCH_BLOCKED"})
      && (d == Some((BusinessDecision, Abstained)) <==> outcome == "SYNTHETIC_RESULT_ABSTAINED")
      && (d == Some((BusinessDecision, Failed)) <==>
            outcome == "SYNTHETIC_RESULT_FAILED" || outcome in RESEARCH_FAILURES)
      && (d == Some((AdjudicationLifecycle, Pending)) <==> outcome == "SYNTHETIC_RESULT_PENDING")
      && (d == Some((AdjudicationLifecycle, Unknown)) <==> outcome == "SYNTHETIC_RESULT_UNKNOWN")
      && (d == Some((ValidityLifecycle, Expired)) <==> outcome == "SYNTHETIC_RESULT_EXPIRED")
      && (d == Some((ExecutionLifecycle, ExecutionBlocked)) <==> outcome == "SYNTHETIC_RESULT_EXECUTION_BLOCKED")
  {
  }
}
