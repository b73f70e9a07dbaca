/** The ledger's values and rows: frozen cases, results, committed facts, formal reports. */
module LedgerTables {
  import opened Outcomes
  import opened StageResults
  import opened Identities
  import opened StageHistory

  datatype AccessScope = AccessScope(user: string, accounts: set<string>, visibility: string)

  /** A frozen case. Derived identities that the source computes by hashing other case
      fields are fields here: `business`, `frozenRun`, `fingerprint`; `recoveryInput` and
      `legacyInput` are the normalized payloads that the two recovery comparisons equate,
      and `matchesFixture` is the comparison against the built-in D0 fixture. */
  datatype FrozenCase = FrozenCase(
    caseId: string, business: string, frozenRun: string, recoveryRun: Option<string>,
    fingerprint: string, contract: string, host: string, projection: string,
    recoveryInput: string, legacyInput: string, matchesFixture: bool,
    knowledgeCutoff: string, reportGeneratedAt: string, scope: Option<AccessScope>)
  {
    function Run(): string {
      if recoveryRun.Some? then recoveryRun.value else frozenRun
    }

    function OriginalId(run: string): EventId {
      OriginalEvent(business, run, contract)
    }

    function LegacyId(run: string): EventId {
      LegacyEvent(business, run, contract, host)
    }

    function CorrectionId(original: EventId): EventId {
      CorrectionEvent(business, original)
    }

    /** `recovery_framework_run_id` is excluded from every serialized form of a case. */
    function Portable(): FrozenCase {
      this.(recoveryRun := None)
    }
  }

  datatype Population = SelectionMember | ProbabilityMember | CandidateMember

  datatype Registration = Registration(
    population: Population, event: EventId, member: string, security: string,
    probability: Option<int>, registeredAt: string)

  datatype ReleaseMember = ReleaseMember(research: string, security: string, probability: Option<int>, candidate: bool)

  datatype Release = Release(members: seq<ReleaseMember>, cutoff: string, disposition: string, reasons: seq<string>)

  datatype ExternalResult = ExternalResult(
    outcome: string, keyReasons: seq<string>, body: string, selection: Option<seq<string>>,
    release: Option<Release>, monitoring: Option<string>, registrations: seq<Registration>)

  datatype Fact = Fact(
    id: EventId, business: string, run: string, frozen: FrozenCase, result: ExternalResult,
    validation: string, committedAt: string, stages: seq<StageResult>,
    corrects: Option<EventId>, generatedAt: Option<string>)
  {
    /** The fact that survives a round trip through its stored JSON. */
    function Portable(): Fact {
      this.(frozen := frozen.Portable())
    }
  }

  datatype ReportPublication =
    | Published(committedAt: int, publishedAt: int)
    | PublicationFailed(committedAt: int, failureRecordedAt: int, reason: string)

  datatype FormalReport = FormalReport(
    id: ReportId, event: EventId, business: string, run: string, caseId: string,
    generatedAt: string, contract: string, host: string, projection: string,
    scope: Option<AccessScope>, result: ExternalResult, stages: seq<StageResult>,
    corrects: Option<EventId>, publication: Option<ReportPublication>,
    monitoringClocks: Option<(int, int)>)

  datatype Payload<T> = Malformed | Json(value: T)

  datatype MappingRow = MappingRow(
    business: string, caseId: string, fingerprint: string, run: string,
    snapshot: Option<Payload<FrozenCase>>, createdAt: string)

  datatype EventRow = EventRow(
    id: EventId, sequence: Option<int>, business: string, run: string,
    corrects: Option<EventId>, payload: Payload<Fact>, committedAt: string)

  datatype ReportRow = ReportRow(id: ReportId, event: EventId, payload: Payload<FormalReport>, generatedAt: string)

  datatype Tables = Tables(
    mappings: seq<MappingRow>, events: seq<EventRow>, stages: History, reports: seq<ReportRow>)

  // ---- building a fact --------------------------------------------------------

  /** Python's `value or fallback` on optional strings. */
  function Or(value: Option<string>, fallback: string): string {
    if value.Some? && value.value != "" then value.value else fallback
  }

  function SelectionRegistrations(event: EventId, cutoff: string, members: seq<string>): seq<Registration> {
    seq(|members|, i requires 0 <= i < |members| =>
      Registration(SelectionMember, event, members[i], members[i], None, cutoff))
  }

  function ReleaseRegistrations(event: EventId, cutoff: string, members: seq<ReleaseMember>): seq<Registration> {
    if members == [] then []
    else
      var m := members[0];
      (if m.probability.None? then []
       else [Registration(ProbabilityMember, event, m.research, m.security, m.probability, cutoff)]
            + if m.candidate
              then [Registration(CandidateMember, event, m.research, m.security, m.probability, cutoff)]
              else [])
      + ReleaseRegistrations(event, cutoff, members[1..])
  }

  /** `register_evaluation_members`: a result with members gets their registrations. */
  function Register(c: FrozenCase, event: EventId, result: ExternalResult): ExternalResult {
    var registrations :=
      (if result.selection.Some?
       then SelectionRegistrations(event, c.knowledgeCutoff, result.selection.value) else [])
      + (if result.release.Some?
         then ReleaseRegistrations(event, result.release.value.cutoff, result.release.value.members) else []);
    if registrations == [] then result else result.(registrations := registrations)
  }

  /** `build_event_fact`: the exact fact that a commit attempt must preserve. */
  function BuildFact(c: FrozenCase, run: string, result: ExternalResult, stages: seq<StageResult>,
                     id: Option<EventId>, corrects: Option<EventId>,
                     committedAt: Option<string>, generatedAt: Option<string>, now: string): Fact
  {
    var event := if id.Some? then id.value else c.OriginalId(c.Run());
    var observed := Or(committedAt, now);
    Fact(event, c.business, run, c,
         if corrects.None? then Register(c, event, result) else result,
         "PASSED", observed, stages, corrects, Some(Or(generatedAt, observed)))
  }

  /** What a release registers for a member with a probability: the member, and the candidate. */
  ghost predicate Registers(m: ReleaseMember, event: EventId, cutoff: string, r: Registration) {
    && m.probability.Some?
    && (r.population == ProbabilityMember || (r.population == CandidateMember && m.candidate))
    && r == Registration(r.population, event, m.research, m.security, m.probability, cutoff)
  }

  ghost predicate IsReleased(release: Release, event: EventId, r: Registration) {
    exists i :: 0 <= i < |release.members| && Registers(release.members[i], event, release.cutoff, r)
  }

  ghost predicate IsSelected(members: seq<string>, event: EventId, cutoff: string, r: Registration) {
    r.member in members && r == Registration(SelectionMember, event, r.member, r.member, None, cutoff)
  }

  lemma {:induction false} SelectionRegistersIff(event: EventId, cutoff: string, members: seq<string>, r: Registration)
    ensures r in SelectionRegistrations(event, cutoff, members) <==> IsSelected(members, event, cutoff, r)
  {
    var all := SelectionRegistrations(event, cutoff, members);
    if r.member in members {
      var i :| 0 <= i < |members| && members[i] == r.member;
      assert all[i] == Registration(SelectionMember, event, r.member, r.member, None, cutoff);
    }
    if r in all {
      var i :| 0 <= i < |all| && all[i] == r;
      assert members[i] in members;
    }
  }

  lemma {:induction false} ReleaseRegistersIff(event: EventId, cutoff: string, members: seq<ReleaseMember>, r: Registration)
    ensures r in ReleaseRegistrations(event, cutoff, members) <==>
      exists i :: 0 <= i < |members| && Registers(members[i], event, cutoff, r)
    decreases |members|
  {
    if members != [] {
      ReleaseRegistersIff(event, cutoff, members[1..], r);
      assert forall i :: 1 <= i < |members| ==> members[i] == members[1..][i - 1];
      if i :| 0 <= i < |members| && Registers(members[i], event, cutoff, r) {
        assert i == 0 || members[1..][i - 1] == members[i];
      }
    }
  }

  /** A built original registers exactly its selected members, its members with a probability and
      its candidates, under its own identity; a result without any is left alone, and so is every
      correction's. */
  lemma {:induction false} BuiltFactRegisters(c: FrozenCase, run: string, result: ExternalResult, stages: seq<StageResult>,
                           id: Option<EventId>, corrects: Option<EventId>,
                           committedAt: Option<string>, generatedAt: Option<string>, now: string, r: Registration)
    ensures var f := BuildFact(c, run, result, stages, id, corrects, committedAt, generatedAt, now);
      && f.result.(registrations := result.registrations) == result
      && (corrects.Some? ==> f.result == result)
      && (corrects.None? && f.result.registrations != result.registrations ==>
            (r in f.result.registrations <==>
               || (result.selection.Some? && IsSelected(result.selection.value, f.id, c.knowledgeCutoff, r))
               || (result.release.Some? && IsReleased(result.release.value, f.id, r))))
      && (corrects.None? && result.selection.Some? && result.selection.value != [] ==>
            |f.result.registrations| >= |result.selection.value|)
  {
    var event := if id.Some? then id.value else c.OriginalId(c.Run());
    if result.selection.Some? {
      SelectionRegistersIff(event, c.knowledgeCutoff, result.selection.value, r);
      assert |SelectionRegistrations(event, c.knowledgeCutoff, result.selection.value)| == |result.selection.value|;
    }
    if result.release.Some? {
      ReleaseRegistersIff(event, result.release.value.cutoff, result.release.value.members, r);
    }
  }

  /** What a built fact takes from its arguments and what from defaults, and the row it is written
      as. */
  lemma {:induction false} BuiltFactIs(c: FrozenCase, run: string, result: ExternalResult, stages: seq<StageResult>,
                    id: Option<EventId>, corrects: Option<EventId>,
                    committedAt: Option<string>, generatedAt: Option<string>, now: string, sequence: int)
    ensures var f := BuildFact(c, run, result, stages, id, corrects, committedAt, generatedAt, now);
      var row := EventRowOf(f, sequence);
      && (id.Some? ==> f.id == id.value) && (id.None? ==> f.id == OriginalEvent(c.business, c.Run(), c.contract))
      && (f.business, f.run, f.frozen, f.stages, f.corrects, f.validation) == (c.business, run, c, stages, corrects, "PASSED")
      && (committedAt.Some? && committedAt.value != "" ==> f.committedAt == committedAt.value)
      && (committedAt.None? ==> f.committedAt == now)
      && (generatedAt.Some? && generatedAt.value != "" ==> f.generatedAt == generatedAt)
      && (generatedAt.None? ==> f.generatedAt == Some(f.committedAt))
      && row == EventRow(f.id, Some(sequence), c.business, run, corrects,
                         Json(f.(frozen := c.(recoveryRun := None))), f.committedAt)
      && (c.recoveryRun.Some? ==> c.Run() == c.recoveryRun.value) && (c.recoveryRun.None? ==> c.Run() == c.frozenRun)
  {
  }

  /** `commit_event_fact` rebuilds the fact it is given before writing it. */
  function Rebuild(f: Fact, now: string): Fact {
    BuildFact(f.frozen, f.run, f.result, f.stages, Some(f.id), f.corrects, Some(f.committedAt), f.generatedAt, now)
  }

  /** Submitting a built fact, at any later time, submits that same fact: registration is
      idempotent and every default was already resolved. */
  lemma {:induction false} RebuildKeepsBuiltFacts(c: FrozenCase, run: string, result: ExternalResult, stages: seq<StageResult>,
                               id: Option<EventId>, corrects: Option<EventId>,
                               committedAt: Option<string>, generatedAt: Option<string>, now: string, later: string)
    requires now != ""
    ensures var f := BuildFact(c, run, result, stages, id, corrects, committedAt, generatedAt, now);
      Rebuild(f, later) == f
  {
  }

  function EventRowOf(f: Fact, sequence: int): EventRow {
    EventRow(f.id, Some(sequence), f.frozen.business, f.run, f.corrects, Json(f.Portable()), f.committedAt)
  }
}
