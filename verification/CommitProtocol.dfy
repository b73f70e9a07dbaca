/** The single-writer store and its commit protocol. Any number of connections interleave;
    `BEGIN IMMEDIATE` takes the write lock, and a commit may be applied, fail, or be applied
    with its acknowledgement lost. */
module CommitProtocol {
  import opened Outcomes
  import opened StageResults
  import opened Identities
  import opened StageHistory
  import opened LedgerTables
  import opened EventLineage
  import opened ReportGates
  import StableOrder

  datatype Transaction = Transaction(owner: nat, working: Tables)

  /** What is durable, and the working rows of the connection that holds the write lock. */
  datatype Store = Store(durable: Tables, tx: Option<Transaction>)

  datatype CommitOutcome = Acknowledged | NotApplied | AcknowledgementLost

  /** The atomic steps from which every ledger operation is composed. */
  datatype Action =
    | Begin(c: nat)
    | Rollback(c: nat)
    | Commit(c: nat, outcome: CommitOutcome)
    | SaveMapping(c: nat, frozen: FrozenCase, at: string)
    | AppendEvent(c: nat, fact: Fact)
    | RecordStage(c: nat, call: StageCall)
    | AppendReport(c: nat, fact: Fact, id: ReportId)

  datatype LedgerError =
    | Unreadable(cause: ReadError) | DifferentFacts | DifferentInput | WriteFailed
    | ShadowIsolated | NoConfirmedCommit | ReportUnreadable(gate: GateError) | DifferentProjection

  // ---- the steps on one connection's rows ----------------------------------------

  /** `SELECT MAX(event_sequence)`, which ignores NULL. */
  function MaxSequence(events: seq<EventRow>): (m: Option<int>)
    ensures forall i :: 0 <= i < |events| && events[i].sequence.Some? ==>
      m.Some? && events[i].sequence.value <= m.value
  {
    if events == [] then None
    else
      var rest, last := MaxSequence(events[..|events| - 1]), events[|events| - 1].sequence;
      if rest.None? then last
      else if last.Some? && last.value > rest.value then last else rest
  }

  /** The maximum is the number of some event, and there is one as soon as an event has a number. */
  lemma {:induction false} MaxIsReached(rows: seq<EventRow>)
    ensures MaxSequence(rows).Some? ==>
      exists i :: 0 <= i < |rows| && rows[i].sequence == MaxSequence(rows)
    ensures MaxSequence(rows).None? <==> forall i :: 0 <= i < |rows| ==> rows[i].sequence.None?
    ensures forall i :: 0 <= i < |rows| && rows[i].sequence.Some? ==>
      rows[i].sequence.value <= MaxSequence(rows).value
  {
    if rows != [] {
      var init := rows[..|rows| - 1];
      MaxIsReached(init);
      assert forall i :: 0 <= i < |init| ==> init[i] == rows[i];
      if MaxSequence(init).Some? && MaxSequence(rows) == MaxSequence(init) {
        var i :| 0 <= i < |init| && init[i].sequence == MaxSequence(init);
        assert rows[i].sequence == MaxSequence(rows);
      }
    }
  }

  function NextSequence(events: seq<EventRow>): int {
    var m := MaxSequence(events);
    (if m.Some? then m.value else 0) + 1
  }

  function WithEvent(t: Tables, f: Fact): Tables {
    t.(events := t.events + [EventRowOf(f, NextSequence(t.events))])
  }

  /** The check and the insert of `commit_event`. */
  function TryAppend(t: Tables, f: Fact): Result<Tables, LedgerError> {
    match ReadEvent(t, f.id)
    case Err(e) => Err(Unreadable(e))
    case Ok(Some(existing)) => if existing == f then Ok(t) else Err(DifferentFacts)
    case Ok(None) => Ok(WithEvent(t, f))
  }

  /** `ensure_business_object`; the mapping's Run is unique. */
  function TrySaveMapping(t: Tables, c: FrozenCase, at: string): Result<Tables, LedgerError> {
    match GetMapping(t, c.business)
    case Err(e) => Err(Unreadable(e))
    case Ok(None) =>
      if exists i :: 0 <= i < |t.mappings| && t.mappings[i].run == c.Run() then Err(WriteFailed)
      else Ok(t.(mappings := t.mappings
                 + [MappingRow(c.business, c.caseId, c.fingerprint, c.Run(), Some(Json(c.Portable())), at)]))
    case Ok(Some(m)) =>
      if m.frozen.Some? then
        if m.fingerprint == m.frozen.value.fingerprint && m.run == m.frozen.value.Run()
           && (m.frozen.value.recoveryInput == c.recoveryInput || m.frozen.value.legacyInput == c.legacyInput)
        then Ok(t) else Err(DifferentInput)
      else if m.caseId == c.caseId && c.matchesFixture then Ok(t) else Err(DifferentInput)
  }

  predicate IsShadow(scope: Option<AccessScope>) {
    scope.Some? && scope.value.visibility == "SHADOW"
  }

  /** The checks and the insert of `publish_report`; a report's event is unique. */
  function TryPublish(t: Tables, f: Fact, id: ReportId): Result<Tables, LedgerError> {
    if IsShadow(f.frozen.scope) then Err(ShadowIsolated)
    else if !HasConfirmedCommit(t.stages, f.id) then Err(NoConfirmedCommit)
    else
      var i := FindReport(t.reports, id);
      if i < |t.reports| then
        var stored := StoredReport(t, t.reports[i]);
        if stored.Err? then Err(ReportUnreadable(stored.error))
        else if stored.value == Projection(f, id) then Ok(t) else Err(DifferentProjection)
      else if exists j :: 0 <= j < |t.reports| && t.reports[j].event == f.id then Err(WriteFailed)
      else
        var report := Projection(f, id);
        Ok(t.(reports := t.reports + [ReportRow(id, f.id, Json(report), report.generatedAt)]))
  }

  /** What a write step does to the rows it works on; a refused step leaves them alone. */
  function Write(t: Tables, a: Action): Tables
    requires a.SaveMapping? || a.AppendEvent? || a.RecordStage? || a.AppendReport?
  {
    match a
    case SaveMapping(_, frozen, at) => var r := TrySaveMapping(t, frozen, at); if r.Ok? then r.value else t
    case AppendEvent(_, fact) => var r := TryAppend(t, fact); if r.Ok? then r.value else t
    case RecordStage(_, call) => t.(stages := Settle(t.stages, Call(t.stages, call)))
    case AppendReport(_, fact, id) => var r := TryPublish(t, fact, id); if r.Ok? then r.value else t
  }

  predicate Holds(s: Store, c: nat) {
    s.tx.Some? && s.tx.value.owner == c
  }

  /** One atomic step. Without the lock only `BEGIN IMMEDIATE` can have an effect, and only
      when nobody holds it. */
  function Apply(s: Store, a: Action): Store {
    match a
    case Begin(c) => if s.tx.None? then s.(tx := Some(Transaction(c, s.durable))) else s
    case Rollback(c) => if Holds(s, c) then s.(tx := None) else s
    case Commit(c, outcome) =>
      if Holds(s, c) && outcome != NotApplied then Store(s.tx.value.working, None) else s
    case _ =>
      if Holds(s, a.c) then s.(tx := Some(Transaction(a.c, Write(s.tx.value.working, a)))) else s
  }

  function Run(s: Store, actions: seq<Action>): Store
    decreases |actions|
  {
    if actions == [] then s else Run(Apply(s, actions[0]), actions[1..])
  }

  // ---- the invariant ---------------------------------------------------------------

  ghost predicate UniqueEvents(events: seq<EventRow>) {
    forall i, j :: 0 <= i < j < |events| ==> events[i].id != events[j].id
  }

  /** Every event is numbered and no number is used twice. */
  ghost predicate Numbered(events: seq<EventRow>) {
    && (forall i :: 0 <= i < |events| ==> events[i].sequence.Some?)
    && (forall i, j :: 0 <= i < j < |events| ==> events[i].sequence != events[j].sequence)
  }

  /** No report is stored before its event's commit was confirmed, and none is a shadow's. */
  ghost predicate Gated(t: Tables) {
    forall i :: 0 <= i < |t.reports| ==>
      && HasConfirmedCommit(t.stages, t.reports[i].event)
      && (t.reports[i].payload.Json? ==> !IsShadow(t.reports[i].payload.value.scope))
  }

  /** One mapping per business object and one business object per Run. */
  ghost predicate UniqueMappings(mappings: seq<MappingRow>) {
    forall i, j :: 0 <= i < j < |mappings| ==>
      mappings[i].business != mappings[j].business && mappings[i].run != mappings[j].run
  }

  ghost predicate Sound(t: Tables) {
    && UniqueMappings(t.mappings)
    && UniqueEvents(t.events)
    && Numbered(t.events)
    && Bound(t.stages)
    && Gated(t)
  }

  predicate Outranks(events: seq<EventRow>, i: nat, j: nat)
    requires i < |events| && j < |events|
  {
    && events[i].sequence.Some? && events[j].sequence.Some?
    && events[i].sequence.value < events[j].sequence.value
  }

  /** Append-only growth of all four tables in which every new event outranks all earlier ones. */
  ghost predicate Extends(a: Tables, b: Tables) {
    && a.mappings <= b.mappings && a.events <= b.events && a.stages <= b.stages && a.reports <= b.reports
    && forall i, j :: 0 <= i < j && |a.events| <= j < |b.events| ==> Outranks(b.events, i, j)
  }

  ghost predicate Inv(s: Store) {
    && Sound(s.durable)
    && (s.tx.Some? ==> Sound(s.tx.value.working) && Extends(s.durable, s.tx.value.working))
  }

  lemma {:induction false} ExtendsTransitive(a: Tables, b: Tables, c: Tables)
    requires Extends(a, b) && Extends(b, c)
    ensures Extends(a, c)
  {
    forall i, j | 0 <= i < j && |a.events| <= j < |c.events|
      ensures Outranks(c.events, i, j)
    {
      if j < |b.events| {
        assert Outranks(b.events, i, j);
        assert c.events[i] == b.events[i] && c.events[j] == b.events[j];
      }
    }
  }

  lemma {:induction false} AppendKeepsEvents(t: Tables, f: Fact)
    requires Sound(t)
    requires FindEvent(t.events, f.id) == |t.events|
    ensures Sound(WithEvent(t, f)) && Extends(t, WithEvent(t, f))
  {
  }

  lemma {:induction false} PublishKeepsTables(t: Tables, f: Fact, id: ReportId)
    requires Sound(t)
    requires TryPublish(t, f, id).Ok?
    ensures Sound(TryPublish(t, f, id).value) && Extends(t, TryPublish(t, f, id).value)
  {
  }

  lemma {:induction false} StageKeepsTables(t: Tables, call: StageCall)
    requires Sound(t)
    ensures var u := t.(stages := Settle(t.stages, Call(t.stages, call))); Sound(u) && Extends(t, u)
  {
    hide HasConfirmedCommit, Bound, Numbered, UniqueEvents, UniqueMappings, Call;
    CallEffect(t.stages, call);
    var u := t.(stages := Settle(t.stages, Call(t.stages, call)));
    forall i | 0 <= i < |t.reports|
      ensures HasConfirmedCommit(u.stages, t.reports[i].event)
    {
      GatesGrow(t.stages, u.stages, t.reports[i].event);
    }
  }

  lemma {:induction false} WriteKeepsTables(t: Tables, a: Action)
    requires a.SaveMapping? || a.AppendEvent? || a.RecordStage? || a.AppendReport?
    requires Sound(t)
    ensures Sound(Write(t, a)) && Extends(t, Write(t, a))
  {
    hide HasConfirmedCommit, Bound, Numbered, UniqueEvents, Call, TryPublish, WithEvent;
    match a
    case SaveMapping(_, _, _) =>
    case AppendEvent(_, fact) =>
      if ReadEvent(t, fact.id) == Ok(None) {
        AppendKeepsEvents(t, fact);
      }
    case RecordStage(_, call) =>
      StageKeepsTables(t, call);
    case AppendReport(_, fact, id) =>
      if TryPublish(t, fact, id).Ok? {
        PublishKeepsTables(t, fact, id);
      }
  }

  /** What the lock means: nothing is durable before an applied commit, which makes the working rows
      durable and frees the lock; a rollback frees it and loses them; a transaction starts from the
      durable rows; and nobody else's steps count while it is held. */
  lemma {:induction false} StepMeaning(s: Store, a: Action)
    ensures Apply(s, a).durable != s.durable ==> a.Commit? && a.outcome != NotApplied && Holds(s, a.c)
    ensures a.Commit? && Holds(s, a.c) ==>
      Apply(s, a) == if a.outcome == NotApplied then s else Store(s.tx.value.working, None)
    ensures a.Rollback? && Holds(s, a.c) ==> Apply(s, a) == Store(s.durable, None)
    ensures a.Begin? && s.tx.None? ==> Apply(s, a) == Store(s.durable, Some(Transaction(a.c, s.durable)))
    ensures s.tx.Some? && s.tx.value.owner != a.c ==> Apply(s, a) == s
    ensures s.tx.None? && !a.Begin? ==> Apply(s, a) == s
  {
  }

  /** While one connection holds the lock, no steps of the others have any effect. */
  lemma {:induction false} LockIsExclusive(s: Store, c: nat, others: seq<Action>)
    requires Holds(s, c) && forall k :: 0 <= k < |others| ==> others[k].c != c
    ensures Run(s, others) == s
    decreases |others|
  {
    if others != [] {
      StepMeaning(s, others[0]);
      LockIsExclusive(s, c, others[1..]);
    }
  }

  /** Every step keeps the invariant, and the durable tables only grow. */
  lemma {:induction false} StepKeepsLedger(s: Store, a: Action)
    requires Inv(s)
    ensures Inv(Apply(s, a))
    ensures Extends(s.durable, Apply(s, a).durable)
  {
    if Holds(s, a.c) && !a.Begin? && !a.Rollback? && !a.Commit? {
      WriteKeepsTables(s.tx.value.working, a);
      ExtendsTransitive(s.durable, s.tx.value.working, Write(s.tx.value.working, a));
    }
  }

  /** For every interleaving of any number of connections, with commits that fail or lose their
      acknowledgement: event numbers stay distinct, each newly durable event outranks all earlier
      ones, no durable row changes or disappears, and no report outruns its confirmed commit. */
  lemma {:induction false} RunKeepsLedger(s: Store, actions: seq<Action>)
    requires Inv(s)
    ensures Inv(Run(s, actions))
    ensures Extends(s.durable, Run(s, actions).durable)
    decreases |actions|
  {
    if actions != [] {
      StepKeepsLedger(s, actions[0]);
      var next := Apply(s, actions[0]);
      RunKeepsLedger(next, actions[1..]);
      ExtendsTransitive(s.durable, next.durable, Run(s, actions).durable);
    }
  }

  lemma {:induction false} RunConcat(s: Store, a: seq<Action>, b: seq<Action>)
    ensures Run(s, a + b) == Run(Run(s, a), b)
    decreases |a|
  {
    if a == [] {
      assert a + b == b;
    } else {
      assert (a + b)[1..] == a[1..] + b;
      RunConcat(Apply(s, a[0]), a[1..], b);
    }
  }

  lemma {:induction false} RunCons(s: Store, a: Action, rest: seq<Action>)
    ensures Run(s, [a] + rest) == Run(Apply(s, a), rest)
    ensures Run(s, [a]) == Apply(s, a)
  {
  }

  // ---- uncertain commits and reconciliation ----------------------------------------

  predicate Readable(t: Tables, id: EventId) {
    ReadEvent(t, id).Ok? && ReadEvent(t, id).value.Some?
  }

  datatype ReconcileReply = Found(fact: Fact) | Absent | Conflict | Failure(cause: ReadError) | LockBusy

  /** What the verification connection of `reconcile_event_commit` concludes. */
  function Reconciled(t: Tables, attempted: Fact): ReconcileReply {
    match ReadEvent(t, attempted.id)
    case Err(e) => Failure(e)
    case Ok(None) => Absent
    case Ok(Some(committed)) => if committed == attempted then Found(committed) else Conflict
  }

  /** The attempt itself and everything that any connection does afterwards. */
  function AfterAttempt(s: Store, c: nat, f: Fact, outcome: CommitOutcome, rest: seq<Action>): Store {
    Run(s, [AppendEvent(c, f), Commit(c, outcome)] + rest)
  }

  lemma {:induction false} AttemptUnfolds(s: Store, c: nat, f: Fact, outcome: CommitOutcome, rest: seq<Action>)
    ensures AfterAttempt(s, c, f, outcome, rest)
         == Run(Apply(Apply(s, AppendEvent(c, f)), Commit(c, outcome)), rest)
  {
    var append, commit := AppendEvent(c, f), Commit(c, outcome);
    assert [append, commit] + rest == [append] + ([commit] + rest);
    RunCons(s, append, [commit] + rest);
    RunCons(Apply(s, append), commit, rest);
  }

  /** What reconciliation answers, in terms of the read. */
  lemma {:induction false} ReconciledIff(t: Tables, f: Fact)
    ensures Reconciled(t, f) == Absent <==> FindEvent(t.events, f.id) == |t.events|
    ensures Reconciled(t, f).Found? ==> Reconciled(t, f) == Found(f)
    ensures Reconciled(t, f) == Found(f) <==> ReadEvent(t, f.id) == Ok(Some(f))
    ensures Reconciled(t, f) == Conflict <==> exists g :: g != f && ReadEvent(t, f.id) == Ok(Some(g))
    ensures Reconciled(t, f) != LockBusy
  {
    var read := ReadEvent(t, f.id);
    if read.Ok? && read.value.Some? {
      assert read == Ok(Some(read.value.value));
    }
  }

  /** What reconciliation finds for a fact whose row is in the table: the fact exactly when it meets
      the checks of the reads there and its case carries no recovery Run. */
  lemma {:induction false} DurableRowIsReconciledIff(t: Tables, f: Fact, sequence: int)
    requires FindEvent(t.events, f.id) < |t.events|
    requires t.events[FindEvent(t.events, f.id)] == EventRowOf(f, sequence)
    ensures if !Bindable(t, f) then Reconciled(t, f).Failure?
      else Reconciled(t, f) == if f.frozen.recoveryRun.None? then Found(f) else Conflict
  {
    hide Bindable;
    ReadsBackIffBindable(t, f, sequence);
    if ReadEvent(t, f.id).Ok? && ReadEvent(t, f.id).value.Some? {
      ReadFactsAreBound(t, f.id);
    }
    assert f.Portable() == f <==> f.frozen.recoveryRun.None?;
  }

  /** After an applied commit, acknowledged or not, and whatever all connections do then,
      reconciliation finds the attempted fact exactly when it is bindable in the tables as they are,
      and its case carries no recovery Run, the one field that its stored JSON leaves out; a
      bindable fact with one is reported as a conflict, any other is unreadable. A fact that was
      bindable when it was written still is. This is about facts whose cases set no private
      attributes; the decoders of legacy and historical research cases do, and their equality
      compares those too. */
  lemma {:induction false} AppliedCommitIsReconciled(s: Store, c: nat, f: Fact, outcome: CommitOutcome, rest: seq<Action>)
    requires Inv(s) && Holds(s, c)
    requires FindEvent(s.tx.value.working.events, f.id) == |s.tx.value.working.events|
    requires outcome != NotApplied
    ensures var t := AfterAttempt(s, c, f, outcome, rest).durable;
      && (Reconciled(t, f) == Found(f) <==> Bindable(t, f) && f.frozen.recoveryRun.None?)
      && (Reconciled(t, f) == Conflict <==> Bindable(t, f) && f.frozen.recoveryRun.Some?)
      && (Reconciled(t, f).Failure? <==> !Bindable(t, f))
      && (ReadEvent(t, f.id) == Ok(Some(f.Portable())) <==> Bindable(t, f))
      && (Bindable(s.tx.value.working, f) ==> Bindable(t, f))
  {
    hide Bindable, Sound;
    var t := s.tx.value.working;
    AttemptUnfolds(s, c, f, outcome, rest);
    StepKeepsLedger(s, AppendEvent(c, f));
    var committed := Apply(Apply(s, AppendEvent(c, f)), Commit(c, outcome));
    StepKeepsLedger(Apply(s, AppendEvent(c, f)), Commit(c, outcome));
    RunKeepsLedger(committed, rest);
    var u, row := WithEvent(t, f), EventRowOf(f, NextSequence(t.events));
    assert committed.durable == u by { AppendsItsRow(t, f); }
    AppendsItsRow(t, f);
    var later := Run(committed, rest).durable;
    FindEventGrows(u.events, later.events, f.id);
    DurableRowIsReconciledIff(later, f, NextSequence(t.events));
    ReadsBackIffBindable(later, f, NextSequence(t.events));
    if Bindable(t, f) {
      BindableStays(t, later, f);
    }
  }

  lemma {:induction false} AppendsItsRow(t: Tables, f: Fact)
    requires FindEvent(t.events, f.id) == |t.events|
    ensures TryAppend(t, f) == Ok(WithEvent(t, f))
    ensures var u := WithEvent(t, f);
      && Grows(t, u) && FindEvent(u.events, f.id) == |t.events| < |u.events|
      && u.events[|t.events|] == EventRowOf(f, NextSequence(t.events))
  {
    var u := WithEvent(t, f);
    assert u.events[|t.events|].id == f.id;
    assert forall j :: 0 <= j < |t.events| ==> u.events[j] == t.events[j];
  }

  predicate NeverAppends(actions: seq<Action>, id: EventId) {
    forall k :: 0 <= k < |actions| ==> !(actions[k].AppendEvent? && actions[k].fact.id == id)
  }

  predicate NoRow(s: Store, id: EventId) {
    && FindEvent(s.durable.events, id) == |s.durable.events|
    && (s.tx.Some? ==> FindEvent(s.tx.value.working.events, id) == |s.tx.value.working.events|)
  }

  lemma {:induction false} WriteAddsNoOtherRow(t: Tables, a: Action, id: EventId)
    requires a.SaveMapping? || a.AppendEvent? || a.RecordStage? || a.AppendReport?
    requires a.AppendEvent? ==> a.fact.id != id
    requires FindEvent(t.events, id) == |t.events|
    ensures FindEvent(Write(t, a).events, id) == |Write(t, a).events|
  {
    if a.AppendEvent? {
      var row := EventRowOf(a.fact, NextSequence(t.events));
      assert Write(t, a).events == t.events || Write(t, a).events == t.events + [row];
    } else {
      assert Write(t, a).events == t.events;
    }
  }

  lemma {:induction false} NoAppendNoRow(s: Store, actions: seq<Action>, id: EventId)
    requires NoRow(s, id)
    requires NeverAppends(actions, id)
    ensures NoRow(Run(s, actions), id)
    decreases |actions|
  {
    if actions != [] {
      var a := actions[0];
      if Holds(s, a.c) && !a.Begin? && !a.Rollback? && !a.Commit? {
        WriteAddsNoOtherRow(s.tx.value.working, a, id);
      }
      assert NeverAppends(actions[1..], id);
      NoAppendNoRow(Apply(s, a), actions[1..], id);
    }
  }

  /** A commit that was not applied is reported absent after any later run in which nobody
      writes that identity. */
  lemma {:induction false} FailedCommitIsAbsent(s: Store, c: nat, f: Fact, rest: seq<Action>)
    requires Inv(s) && Holds(s, c)
    requires FindEvent(s.tx.value.working.events, f.id) == |s.tx.value.working.events|
    requires NeverAppends(rest, f.id)
    ensures Reconciled(AfterAttempt(s, c, f, NotApplied, [Rollback(c)] + rest).durable, f) == Absent
  {
    AttemptUnfolds(s, c, f, NotApplied, [Rollback(c)] + rest);
    var tried := Apply(Apply(s, AppendEvent(c, f)), Commit(c, NotApplied));
    RunCons(tried, Rollback(c), rest);
    var back := Apply(tried, Rollback(c));
    assert s.durable.events <= s.tx.value.working.events;
    assert FindEvent(s.durable.events, f.id) == |s.durable.events| by {
      FindEventGrows(s.durable.events, s.tx.value.working.events, f.id);
    }
    NoAppendNoRow(back, rest, f.id);
  }

  /** Once an identity has a durable row, readable or not, every later attempt under it, on any
      connection and after any run, leaves the rows alone. It is accepted exactly when that row
      reads back as the attempted fact; a different fact under a readable one is refused as such,
      and every attempt under an unreadable one as unreadable. */
  lemma {:induction false} IdentityIsSettled(s: Store, rest: seq<Action>, f: Fact)
    requires Inv(s)
    requires FindEvent(s.durable.events, f.id) < |s.durable.events|
    ensures var later := Run(s, rest); var row := s.durable.events[FindEvent(s.durable.events, f.id)];
      later.tx.Some? ==>
        var t := later.tx.value.working;
        && (if Readable(t, f.id) then
              && row.payload.Json?
              && TryAppend(t, f) == if f == row.payload.value then Ok(t) else Err(DifferentFacts)
            else TryAppend(t, f).Err? && TryAppend(t, f).error.Unreadable?)
        && (Readable(s.durable, f.id) ==> Readable(t, f.id))
  {
    hide Sound;
    RunKeepsLedger(s, rest);
    var later := Run(s, rest);
    if later.tx.Some? {
      var t := later.tx.value.working;
      ExtendsTransitive(s.durable, later.durable, t);
      FindEventGrows(s.durable.events, t.events, f.id);
      if Readable(t, f.id) {
        ReadFactsAreBound(t, f.id);
      }
      if Readable(s.durable, f.id) {
        ReadsAreStable(s.durable, t, f.id);
      }
    }
  }

  /** The exception in `AppliedCommitIsReconciled` is real. A case that carries a recovery Run, as
      the cases of corrections do, is reconciled as a conflict after a lost acknowledgement,
      although its row is durable. */
  lemma {:induction false} RecoveredFactIsNotRecognized()
    ensures exists t: Tables, f: Fact ::
      && f.frozen.recoveryRun.Some?
      && Bindable(t, f)
      && FindEvent(t.events, f.id) == |t.events|
      && FindEvent(WithEvent(t, f).events, f.id) < |WithEvent(t, f).events|
      && Reconciled(WithEvent(t, f), f) == Conflict
  {
    var original := FrozenCase("case", "object", "run", None, "print", "contract", "host", "2.0.0",
                               "input", "input", false, "cutoff", "generated", None);
    var result := ExternalResult("CODE", [], "body", None, None, None, []);
    var f := Fact(original.OriginalId("run"), "object", "run", original.(recoveryRun := Some("run")), result,
                  "PASSED", "now", [], None, Some("now"));
    var t := Tables([MappingRow("object", "case", "print", "run", Some(Json(original)), "then")], [], [], []);
    assert Bindable(t, f);
    BindableReadsBack(t, WithEvent(t, f), f, NextSequence(t.events));
    assert ReadEvent(WithEvent(t, f), f.id) == Ok(Some(f.Portable()));
    assert f.Portable() != f;
    assert Reconciled(WithEvent(t, f), f) == Conflict;
  }

  // ---- from the saved mapping to the committed fact ------------------------------------------

  /** A saved mapping accepts a later case exactly when its recovery input is that of the saved
      case, in either of the two normal forms. */
  lemma {:induction false} SavedMappingAcceptsIff(t: Tables, c: FrozenCase, at: string, other: FrozenCase, later: string)
    requires GetMapping(t, c.business) == Ok(None) && TrySaveMapping(t, c, at).Ok?
    requires other.business == c.business
    ensures var u := TrySaveMapping(t, c, at).value;
      TrySaveMapping(u, other, later) ==
        if other.recoveryInput == c.recoveryInput || other.legacyInput == c.legacyInput then Ok(u)
        else Err(DifferentInput)
  {
    SavedMappingReadsBack(t, c, at);
  }

  lemma {:induction false} SavedMappingReadsBack(t: Tables, c: FrozenCase, at: string)
    requires GetMapping(t, c.business) == Ok(None) && TrySaveMapping(t, c, at).Ok?
    ensures var u := TrySaveMapping(t, c, at).value;
      && GetMapping(u, c.business).Ok? && GetMapping(u, c.business).value.Some?
      && var m := GetMapping(u, c.business).value.value;
      && m.caseId == c.caseId && m.fingerprint == c.fingerprint && m.run == c.Run()
      && m.frozen.Some? && m.frozen.value.Run() == c.Run()
      && m.frozen.value == c.(recoveryRun := m.frozen.value.recoveryRun)
  {
    var u := TrySaveMapping(t, c, at).value;
    assert FindMapping(t.mappings, c.business) == |t.mappings|;
    assert u.mappings[|t.mappings|].business == c.business;
    assert forall j :: 0 <= j < |t.mappings| ==> u.mappings[j] == t.mappings[j];
  }

  /** Saving the mapping first makes the original fact that is built from the same case bindable,
      so its commit will read back; this also holds for a case recovered under another Run. */
  lemma {:induction false} SavedMappingMakesBindable(t: Tables, c: FrozenCase, at: string, result: ExternalResult,
                                                     stages: seq<StageResult>, committedAt: Option<string>,
                                                     generatedAt: Option<string>, now: string)
    requires GetMapping(t, c.business) == Ok(None) && TrySaveMapping(t, c, at).Ok?
    ensures Bindable(TrySaveMapping(t, c, at).value,
                     BuildFact(c, c.Run(), result, stages, None, None, committedAt, generatedAt, now))
  {
    SavedMappingReadsBack(t, c, at);
  }

  /** A correction of a readable original, for a case of the same business object, is bindable
      exactly when the saved mapping names that case and, if it holds a snapshot, the same legacy
      input. */
  lemma {:induction false} CorrectionBindableIff(t: Tables, original: Fact, c: FrozenCase, result: ExternalResult,
                                                 stages: seq<StageResult>, committedAt: Option<string>,
                                                 generatedAt: Option<string>, now: string)
    requires ReadEvent(t, original.id) == Ok(Some(original)) && original.corrects.None?
    requires c.business == original.business
    ensures GetMapping(t, c.business).Ok? && GetMapping(t, c.business).value.Some?
    ensures var m := GetMapping(t, c.business).value.value;
      var f := BuildFact(c, original.run, result, stages, Some(c.CorrectionId(original.id)), Some(original.id),
                         committedAt, generatedAt, now);
      Bindable(t, f) <==> m.caseId == c.caseId && (m.frozen.Some? ==> m.frozen.value.legacyInput == c.legacyInput)
  {
    ReadFactsAreBound(t, original.id);
  }

  /** Whether a case may go on under a mapping that is already saved: with a snapshot, if that is
      consistent with its row and has the same input in one of the two normal forms; without one, if
      it is the built-in case of that mapping. Nothing is ever written over. */
  lemma {:induction false} SavedMappingDecides(t: Tables, c: FrozenCase, at: string)
    requires GetMapping(t, c.business).Ok? && GetMapping(t, c.business).value.Some?
    ensures var m := GetMapping(t, c.business).value.value;
      var accepts :=
        if m.frozen.Some? then
          && m.fingerprint == m.frozen.value.fingerprint && m.run == m.frozen.value.Run()
          && (m.frozen.value.recoveryInput == c.recoveryInput || m.frozen.value.legacyInput == c.legacyInput)
        else m.caseId == c.caseId && c.matchesFixture;
      TrySaveMapping(t, c, at) == if accepts then Ok(t) else Err(DifferentInput)
  {
  }

  /** A new mapping is refused exactly when its Run is taken; otherwise its row is added. */
  lemma {:induction false} NewMappingIs(t: Tables, c: FrozenCase, at: string)
    requires GetMapping(t, c.business) == Ok(None)
    ensures TrySaveMapping(t, c, at).Ok? <==> forall i :: 0 <= i < |t.mappings| ==> t.mappings[i].run != c.Run()
    ensures TrySaveMapping(t, c, at).Ok? ==>
      TrySaveMapping(t, c, at).value == t.(mappings := t.mappings
        + [MappingRow(c.business, c.caseId, c.fingerprint, c.Run(), Some(Json(c.(recoveryRun := None))), at)])
  {
  }

  // ---- the order of history reads -----------------------------------------------------

  function SequenceKey(row: EventRow): int {
    if row.sequence.Some? then row.sequence.value else 0
  }

  /** `ORDER BY event_sequence`: distinct numbers leave nothing to the later sort columns. */
  function EventOrder(t: Tables): seq<EventRow> {
    StableOrder.Sort(t.events, SequenceKey)
  }

  function FactOf(t: Tables, id: EventId): Fact
    requires Readable(t, id)
  {
    ReadEvent(t, id).value.value
  }

  /** The facts of the given rows, or nothing when one of them cannot be read. */
  function ReadAll(t: Tables, rows: seq<EventRow>): Option<seq<Fact>> {
    if forall i :: 0 <= i < |rows| ==> Readable(t, rows[i].id) then
      Some(seq(|rows|, i requires 0 <= i < |rows| && Readable(t, rows[i].id) => FactOf(t, rows[i].id)))
    else None
  }

  /** `_event_facts`. */
  function EventFacts(t: Tables): Option<seq<Fact>> {
    ReadAll(t, EventOrder(t))
  }

  lemma {:induction false} ReadAllExtends(a: Tables, b: Tables, rows: seq<EventRow>, more: seq<EventRow>)
    requires Grows(a, b)
    requires ReadAll(a, rows).Some? && ReadAll(b, rows + more).Some?
    ensures ReadAll(a, rows).value <= ReadAll(b, rows + more).value
  {
    var all := rows + more;
    forall i | 0 <= i < |rows|
      ensures ReadAll(a, rows).value[i] == ReadAll(b, all).value[i]
    {
      assert all[i] == rows[i] && Readable(a, rows[i].id);
      ReadsAreStable(a, b, rows[i].id);
    }
  }

  /** A row as `commit_event` writes it: the columns are those of the fact in its JSON. */
  predicate Written(row: EventRow) {
    && row.payload.Json? && row.sequence.Some?
    && row.payload.value.Portable() == row.payload.value
    && row == EventRowOf(row.payload.value, row.sequence.value)
  }

  ghost predicate WrittenFrom(events: seq<EventRow>, n: nat) {
    forall i :: n <= i < |events| ==> Written(events[i])
  }

  /** All rows that a run appends are written by `commit_event`. */
  ghost predicate NewRowsWritten(s: Store, n: nat) {
    WrittenFrom(s.durable.events, n) && (s.tx.Some? ==> WrittenFrom(s.tx.value.working.events, n))
  }

  lemma {:induction false} StepWrites(s: Store, a: Action, n: nat)
    requires NewRowsWritten(s, n)
    ensures NewRowsWritten(Apply(s, a), n)
  {
    hide ReadEvent, TrySaveMapping, TryPublish, Call, NextSequence;
    if Holds(s, a.c) && !a.Begin? && !a.Rollback? && !a.Commit? {
      var t := s.tx.value.working;
      WriteAppends(t, a);
    }
  }

  lemma {:induction false} WriteAppends(t: Tables, a: Action)
    requires a.SaveMapping? || a.AppendEvent? || a.RecordStage? || a.AppendReport?
    ensures var u := Write(t, a).events;
      u == t.events || (|u| == |t.events| + 1 && u[..|t.events|] == t.events && Written(u[|t.events|]))
  {
    hide ReadEvent, Call, NextSequence, HasConfirmedCommit, StoredReport, Projection;
  }

  lemma {:induction false} RunWrites(s: Store, actions: seq<Action>, n: nat)
    requires NewRowsWritten(s, n)
    ensures NewRowsWritten(Run(s, actions), n)
    decreases |actions|
  {
    hide NewRowsWritten, Apply;
    if actions != [] {
      StepWrites(s, actions[0], n);
      RunWrites(Apply(s, actions[0]), actions[1..], n);
    }
  }

  /** Every event appended after the first n meets the checks of the reads, in the tables as they
      are now. */
  ghost predicate BindableFrom(t: Tables, n: nat) {
    forall i :: n <= i < |t.events| ==> t.events[i].payload.Json? && Bindable(t, t.events[i].payload.value)
  }

  lemma {:induction false} FindOwnRow(events: seq<EventRow>, i: nat)
    requires UniqueEvents(events) && i < |events|
    ensures FindEvent(events, events[i].id) == i
  {
  }

  lemma {:induction false} WrittenRowReadsIff(t: Tables, i: nat)
    requires UniqueEvents(t.events) && i < |t.events| && Written(t.events[i])
    ensures Readable(t, t.events[i].id) <==> Bindable(t, t.events[i].payload.value)
  {
    hide Bindable;
    var row := t.events[i];
    FindOwnRow(t.events, i);
    ReadsBackIffBindable(t, row.payload.value, row.sequence.value);
    if Readable(t, row.id) {
      ReadFactsAreBound(t, row.id);
    }
  }

  lemma {:induction false} AllReadIff(t: Tables, n: nat)
    requires UniqueEvents(t.events) && n <= |t.events| && WrittenFrom(t.events, n)
    requires forall i :: 0 <= i < n ==> Readable(t, t.events[i].id)
    ensures EventFacts(t).Some? <==> BindableFrom(t, n)
  {
    hide Readable, Bindable;
    forall i | n <= i < |t.events|
      ensures Readable(t, t.events[i].id) <==> Bindable(t, t.events[i].payload.value)
    {
      assert Written(t.events[i]);
      WrittenRowReadsIff(t, i);
    }
    ReadableInOrder(t);
  }

  lemma {:induction false} ReadableInOrder(t: Tables)
    ensures EventFacts(t).Some? <==> forall i :: 0 <= i < |t.events| ==> Readable(t, t.events[i].id)
  {
    hide Readable;
    var rows := EventOrder(t);
    forall row: EventRow
      ensures row in rows <==> row in t.events
    {
      StableOrder.SortMember(t.events, SequenceKey, row);
    }
    if EventFacts(t).Some? {
      forall i | 0 <= i < |t.events|
        ensures Readable(t, t.events[i].id)
      {
        assert t.events[i] in rows;
        var k :| 0 <= k < |rows| && rows[k] == t.events[i];
        assert Readable(t, rows[k].id);
      }
    }
    if forall i :: 0 <= i < |t.events| ==> Readable(t, t.events[i].id) {
      forall k | 0 <= k < |rows|
        ensures Readable(t, rows[k].id)
      {
        assert rows[k] in t.events;
        var i :| 0 <= i < |t.events| && t.events[i] == rows[k];
      }
    }
  }

  /** The history is every event, read once, in increasing order of its number. */
  lemma {:induction false} HistoryIsInSequence(t: Tables)
    requires Numbered(t.events)
    ensures var rows := EventOrder(t);
      && multiset(rows) == multiset(t.events)
      && (forall i, j :: 0 <= i < j < |rows| ==> Outranks(rows, i, j))
      && (EventFacts(t).Some? ==>
            && |EventFacts(t).value| == |rows|
            && forall i :: 0 <= i < |rows| ==> ReadEvent(t, rows[i].id) == Ok(Some(EventFacts(t).value[i])))
  {
    hide ReadEvent;
    var rows := EventOrder(t);
    StableOrder.SortContents(t.events, SequenceKey);
    StableOrder.SortAscends(t.events, SequenceKey);
    forall i, j | 0 <= i < j < |rows|
      ensures Outranks(rows, i, j)
    {
      DistinctAfterSort(t.events, rows, i, j);
    }
    if EventFacts(t).Some? {
      assert forall i :: 0 <= i < |rows| ==> Readable(t, rows[i].id);
    }
  }

  lemma {:induction false} DistinctAfterSort(events: seq<EventRow>, rows: seq<EventRow>, i: nat, j: nat)
    requires Numbered(events) && multiset(rows) == multiset(events) && i < j < |rows|
    ensures rows[i].sequence.Some? && rows[j].sequence.Some? && rows[i].sequence != rows[j].sequence
  {
    assert rows[i] in multiset(rows) && rows[j] in multiset(rows);
    var a :| 0 <= a < |events| && events[a] == rows[i];
    var b :| 0 <= b < |events| && events[b] == rows[j];
    if a == b {
      StableOrder.TwiceMeansTwice(rows, i, j);
      StableOrder.OnceMeansOnce(events, a);
    }
  }

  /** Over every run, a readable history stays readable exactly when every event appended since is
      bindable, and then what a reader sees later starts with what it sees now. */
  lemma {:induction false} HistoryIsPrefix(s: Store, actions: seq<Action>)
    requires Inv(s) && NewRowsWritten(s, |s.durable.events|)
    requires EventFacts(s.durable).Some?
    ensures var later := Run(s, actions).durable;
      && (EventFacts(later).Some? <==> BindableFrom(later, |s.durable.events|))
      && (EventFacts(later).Some? ==> EventFacts(s.durable).value <= EventFacts(later).value)
  {
    hide Readable, Bindable;
    RunKeepsLedger(s, actions);
    RunWrites(s, actions, |s.durable.events|);
    var a, b := s.durable, Run(s, actions).durable;
    ReadableInOrder(a);
    forall i | 0 <= i < |a.events|
      ensures Readable(b, b.events[i].id)
    {
      StaysReadable(a, b, a.events[i].id);
    }
    AllReadIff(b, |a.events|);
    if EventFacts(b).Some? {
      LaterHistory(a, b);
    }
  }

  lemma {:induction false} StaysReadable(a: Tables, b: Tables, id: EventId)
    requires Grows(a, b) && Readable(a, id)
    ensures Readable(b, id)
  {
    ReadsAreStable(a, b, id);
  }

  lemma {:induction false} LaterHistory(a: Tables, b: Tables)
    requires Extends(a, b)
    requires EventFacts(a).Some? && EventFacts(b).Some?
    ensures EventFacts(a).value <= EventFacts(b).value
  {
    hide ReadAll, Readable;
    var tail := b.events[|a.events|..];
    assert b.events == a.events + tail;
    forall i, j | 0 <= i < j < |b.events| && |a.events| <= j
      ensures SequenceKey(b.events[i]) < SequenceKey(b.events[j])
    {
      assert Outranks(b.events, i, j);
    }
    StableOrder.SortAppendLargest(a.events, tail, SequenceKey);
    ReadAllExtends(a, b, EventOrder(a), tail);
  }

  /** Whether every commit attempt of the run is for a fact that meets the checks of the reads when
      it is written, which the connection can tell before. */
  ghost predicate AppendsBindable(s: Store, actions: seq<Action>)
    decreases |actions|
  {
    actions == []
    || (&& (actions[0].AppendEvent? && Holds(s, actions[0].c) ==>
              ReadEvent(s.tx.value.working, actions[0].fact.id) == Ok(None) ==>
                Bindable(s.tx.value.working, actions[0].fact))
        && AppendsBindable(Apply(s, actions[0]), actions[1..]))
  }

  ghost predicate AllReadable(t: Tables) {
    forall i :: 0 <= i < |t.events| ==> Readable(t, t.events[i].id)
  }

  lemma {:induction false} WriteStaysReadable(t: Tables, a: Action)
    requires a.SaveMapping? || a.AppendEvent? || a.RecordStage? || a.AppendReport?
    requires Sound(t) && AllReadable(t)
    requires a.AppendEvent? && ReadEvent(t, a.fact.id) == Ok(None) ==> Bindable(t, a.fact)
    ensures AllReadable(Write(t, a))
  {
    hide ReadEvent, Bindable, Sound;
    WriteKeepsTables(t, a);
    WriteAppends(t, a);
    var u := Write(t, a);
    forall i | 0 <= i < |u.events|
      ensures Readable(u, u.events[i].id)
    {
      if i < |t.events| {
        assert u.events[i] == t.events[i];
        StaysReadable(t, u, t.events[i].id);
      } else {
        AppendedIsReadable(t, a);
      }
    }
  }

  lemma {:induction false} AppendedIsReadable(t: Tables, a: Action)
    requires a.SaveMapping? || a.AppendEvent? || a.RecordStage? || a.AppendReport?
    requires |Write(t, a).events| == |t.events| + 1
    requires a.AppendEvent? && ReadEvent(t, a.fact.id) == Ok(None) ==> Bindable(t, a.fact)
    ensures Readable(Write(t, a), Write(t, a).events[|t.events|].id)
  {
    hide Bindable;
    if a.AppendEvent? {
      BindableReadsBack(t, Write(t, a), a.fact, NextSequence(t.events));
    }
  }

  /** A run in which every written fact was bindable when it was written keeps the whole history
      readable. */
  lemma {:induction false} BindableRunsStayReadable(s: Store, actions: seq<Action>)
    requires Inv(s) && AllReadable(s.durable) && (s.tx.Some? ==> AllReadable(s.tx.value.working))
    requires AppendsBindable(s, actions)
    ensures EventFacts(Run(s, actions).durable).Some?
    decreases |actions|
  {
    hide AllReadable, Sound;
    if actions == [] {
      AllReadableHistory(s.durable);
    } else {
      var a := actions[0];
      StepKeepsLedger(s, a);
      if Holds(s, a.c) && !a.Begin? && !a.Rollback? && !a.Commit? {
        WriteStaysReadable(s.tx.value.working, a);
      }
      BindableRunsStayReadable(Apply(s, a), actions[1..]);
    }
  }

  lemma {:induction false} AllReadableHistory(t: Tables)
    requires AllReadable(t)
    ensures EventFacts(t).Some?
  {
    ReadableInOrder(t);
  }

  // ---- published reports over whole runs ------------------------------------------------

  lemma {:induction false} FindReportGrows(a: seq<ReportRow>, b: seq<ReportRow>, id: ReportId)
    requires a <= b
    ensures FindReport(a, id) < |a| ==> FindReport(b, id) == FindReport(a, id)
  {
  }

  lemma {:induction false} ExposePersists(r: FormalReport, saved: Saved, later: Saved)
    requires r.stages != []
    requires Expose(r, saved).Ok?
    ensures Expose(r, saved + later).Ok?
  {
    LastClosureFailureAppend(saved, later);
    FirstSuccessAppend(saved, later, BusinessCommit);
    FirstSuccessAppend(saved, later, Publication);
    LastSuccessAppend(saved, later, BusinessCommit);
    LastSuccessAppend(saved, later, Publication);
    FirstExistsIffLastExists(saved, BusinessCommit);
  }

  /** The part of a report that no publication history touches. */
  ghost predicate SameReport(r: FormalReport, q: FormalReport) {
    && q.id == r.id && q.event == r.event && q.business == r.business && q.run == r.run
    && q.caseId == r.caseId && q.generatedAt == r.generatedAt && q.contract == r.contract
    && q.host == r.host && q.projection == r.projection && q.scope == r.scope && q.corrects == r.corrects
  }

  predicate IsClosed(r: FormalReport) {
    r.publication.Some? && r.publication.value.PublicationFailed?
  }

  lemma {:induction false} HistoryKeepsReport(r: FormalReport, stages: seq<StageResult>)
    requires r.stages != []
    ensures var q := WithPublicationHistory(r, stages);
      && SameReport(r, q) && q.result == r.result
      && q.publication == r.publication && q.monitoringClocks == r.monitoringClocks
  {
  }

  /** What exposing a stored report can change, and when. */
  lemma {:induction false} ExposeKeepsReport(stored: FormalReport, saved: Saved)
    requires stored.stages != []
    requires stored.publication.None? && stored.monitoringClocks.None?
    requires Expose(stored, saved).Ok?
    ensures var q := Expose(stored, saved).value;
      && SameReport(stored, q)
      && (IsClosed(q) <==> stored.result.release.Some? && LastClosureFailure(saved).Some?)
      && (q.result.release.None? <==> stored.result.release.None?)
      && (stored.result.release.None? ==>
            && q.result == stored.result
            && q.monitoringClocks ==
                 if stored.result.monitoring.None? then None
                 else Some((FirstSuccess(saved, BusinessCommit).value, FirstSuccess(saved, Publication).value)))
  {
    HistoryKeepsReport(stored, Stages(saved));
  }

  datatype ReportReply = FoundReport(report: FormalReport) | NoReport | DifferentReport | UnreadableReport(gate: GateError)

  /** What the verification connection of `reconcile_report_commit` concludes. */
  function ReconciledReport(t: Tables, attempted: FormalReport): ReportReply {
    var i := FindReport(t.reports, attempted.id);
    if i == |t.reports| then NoReport
    else
      match StoredReport(t, t.reports[i])
      case Err(e) => UnreadableReport(e)
      case Ok(report) => if report == attempted then FoundReport(report) else DifferentReport
  }

  lemma {:induction false} ProjectionIsNamed(f: Fact, id: ReportId)
    ensures Projection(f, id).id == id && Projection(f, id).event == f.id
  {
  }

  /** What report reconciliation answers, in terms of the rows: nothing exactly when no row has the
      identity, and otherwise the attempted report exactly when the stored one is readable and is
      that report. */
  lemma {:induction false} ReportIsReconciledIff(t: Tables, attempted: FormalReport)
    ensures ReconciledReport(t, attempted) == NoReport <==>
      forall i :: 0 <= i < |t.reports| ==> t.reports[i].id != attempted.id
    ensures var i := FindReport(t.reports, attempted.id);
      i < |t.reports| ==>
        match StoredReport(t, t.reports[i])
        case Err(e) => ReconciledReport(t, attempted) == UnreadableReport(e)
        case Ok(report) =>
          ReconciledReport(t, attempted) == if report == attempted then FoundReport(attempted) else DifferentReport
  {
    hide StoredReport;
  }

  predicate NeverPublishes(actions: seq<Action>, id: ReportId) {
    forall k :: 0 <= k < |actions| ==> !(actions[k].AppendReport? && actions[k].id == id)
  }

  ghost predicate NoReportRow(s: Store, id: ReportId) {
    && FindReport(s.durable.reports, id) == |s.durable.reports|
    && (s.tx.Some? ==> FindReport(s.tx.value.working.reports, id) == |s.tx.value.working.reports|)
  }

  lemma {:induction false} WriteAddsNoOtherReport(t: Tables, a: Action, id: ReportId)
    requires a.SaveMapping? || a.AppendEvent? || a.RecordStage? || a.AppendReport?
    requires a.AppendReport? ==> a.id != id
    requires FindReport(t.reports, id) == |t.reports|
    ensures FindReport(Write(t, a).reports, id) == |Write(t, a).reports|
  {
    hide ReadEvent, StoredReport, HasConfirmedCommit, Projection, Call;
    if a.AppendReport? {
      var u := Write(t, a).reports;
      assert u == t.reports || (|u| == |t.reports| + 1 && u[..|t.reports|] == t.reports && u[|t.reports|].id == a.id);
    } else {
      assert Write(t, a).reports == t.reports;
    }
  }

  lemma {:induction false} NoPublicationNoReport(s: Store, actions: seq<Action>, id: ReportId)
    requires NoReportRow(s, id)
    requires NeverPublishes(actions, id)
    ensures NoReportRow(Run(s, actions), id)
    decreases |actions|
  {
    hide Write;
    if actions != [] {
      var a := actions[0];
      if Holds(s, a.c) && !a.Begin? && !a.Rollback? && !a.Commit? {
        WriteAddsNoOtherReport(s.tx.value.working, a, id);
      }
      assert NeverPublishes(actions[1..], id);
      NoPublicationNoReport(Apply(s, a), actions[1..], id);
    }
  }

  /** A publication whose commit was not applied is reported absent after any later run in which
      nobody publishes that identity. */
  lemma {:induction false} FailedPublicationIsAbsent(s: Store, c: nat, f: Fact, id: ReportId, rest: seq<Action>)
    requires Inv(s) && Holds(s, c)
    requires FindReport(s.tx.value.working.reports, id) == |s.tx.value.working.reports|
    requires NeverPublishes(rest, id)
    ensures ReconciledReport(Run(s, [AppendReport(c, f, id), Commit(c, NotApplied), Rollback(c)] + rest).durable,
                             Projection(f, id)) == NoReport
  {
    hide Sound, Write, Projection;
    var append, commit, back := AppendReport(c, f, id), Commit(c, NotApplied), Rollback(c);
    assert [append, commit, back] + rest == [append] + ([commit] + ([back] + rest));
    RunCons(s, append, [commit] + ([back] + rest));
    RunCons(Apply(s, append), commit, [back] + rest);
    RunCons(Apply(Apply(s, append), commit), back, rest);
    var rolled := Apply(Apply(Apply(s, append), commit), back);
    assert rolled == Store(s.durable, None);
    assert FindReport(s.durable.reports, id) == |s.durable.reports| by {
      FindReportGrows(s.durable.reports, s.tx.value.working.reports, id);
    }
    NoPublicationNoReport(rolled, rest, id);
    assert Projection(f, id).id == id by { ProjectionIsNamed(f, id); }
  }

  /** A publication is accepted exactly when it is no shadow's, its event's commit is confirmed, and
      either the identity has a row that holds this projection, or neither the identity nor the
      event has one; only then a row is added, with the projection. */
  lemma {:induction false} PublishAcceptsIff(t: Tables, f: Fact, id: ReportId)
    ensures var i := FindReport(t.reports, id); var r := Projection(f, id);
      TryPublish(t, f, id).Ok? <==>
      && !(f.frozen.scope.Some? && f.frozen.scope.value.visibility == "SHADOW")
      && HasConfirmedCommit(t.stages, f.id)
      && (|| (i < |t.reports| && StoredReport(t, t.reports[i]) == Ok(r))
          || (i == |t.reports| && forall j :: 0 <= j < |t.reports| ==> t.reports[j].event != f.id))
    ensures var i := FindReport(t.reports, id); var r := Projection(f, id);
      TryPublish(t, f, id).Ok? ==>
        TryPublish(t, f, id).value == t.(reports := t.reports
          + if i < |t.reports| then [] else [ReportRow(id, f.id, Json(r), r.generatedAt)])
  {
    hide StoredReport, HasConfirmedCommit, Projection;
    if TryPublish(t, f, id).Ok? && FindReport(t.reports, id) < |t.reports| {
      assert t.reports + [] == t.reports;
    }
  }

  /** Once a report identity has a row, every later publication under it that gets past the gates
      leaves the rows alone: accepted exactly when the stored report is the projection of the fact,
      and refused as different or as unreadable otherwise. */
  lemma {:induction false} PublishedIdentityIsSettled(t: Tables, f: Fact, id: ReportId)
    requires FindReport(t.reports, id) < |t.reports|
    requires !IsShadow(f.frozen.scope) && HasConfirmedCommit(t.stages, f.id)
    ensures var stored := StoredReport(t, t.reports[FindReport(t.reports, id)]);
      TryPublish(t, f, id) ==
        match stored
        case Err(e) => Err(ReportUnreadable(e))
        case Ok(report) => if report == Projection(f, id) then Ok(t) else Err(DifferentProjection)
  {
  }

  lemma {:induction false} PortableProjection(f: Fact, id: ReportId)
    ensures Projection(f.Portable(), id) == Projection(f, id)
    ensures ReportIdFor(f.Portable()) == ReportIdFor(f)
  {
  }

  /** The stored projection of a readable event is recognized in every later state. */
  lemma {:induction false} StoredReportIsReconciled(a: Tables, b: Tables, f: Fact, id: ReportId)
    requires Extends(a, b)
    requires ReadEvent(a, f.id) == Ok(Some(f.Portable())) && id == ReportIdFor(f)
    requires FindReport(a.reports, id) < |a.reports|
    requires var report := Projection(f, id);
      a.reports[FindReport(a.reports, id)] == ReportRow(id, f.id, Json(report), report.generatedAt)
    ensures ReconciledReport(b, Projection(f, id)) == FoundReport(Projection(f, id))
  {
    hide ReadEvent, Projection;
    ReadsAreStable(a, b, f.id);
    FindReportGrows(a.reports, b.reports, id);
    PortableProjection(f, id);
    assert (Projection(f, id)).id == id && Projection(f, id).event == f.id by {
      ProjectionIsNamed(f, id);
    }
  }

  /** An applied publication of a durable event, acknowledged or not, is what reconciliation finds
      after any later run. Unlike the event itself, it is recognized for a recovered case too:
      a projection repeats nothing that the stored JSON leaves out. */
  lemma {:induction false} AppliedPublicationIsReconciled(s: Store, c: nat, f: Fact, id: ReportId,
                                                          outcome: CommitOutcome, rest: seq<Action>)
    requires Inv(s) && Holds(s, c)
    requires ReadEvent(s.tx.value.working, f.id) == Ok(Some(f.Portable())) && id == ReportIdFor(f)
    requires TryPublish(s.tx.value.working, f, id).Ok?
    requires outcome != NotApplied
    ensures ReconciledReport(Run(s, [AppendReport(c, f, id), Commit(c, outcome)] + rest).durable, Projection(f, id))
         == FoundReport(Projection(f, id))
  {
    hide ReadEvent, Projection, HasConfirmedCommit, ReconciledReport, Sound;
    var append, commit := AppendReport(c, f, id), Commit(c, outcome);
    assert [append, commit] + rest == [append] + ([commit] + rest);
    RunCons(s, append, [commit] + rest);
    RunCons(Apply(s, append), commit, rest);
    StepKeepsLedger(s, append);
    StepKeepsLedger(Apply(s, append), commit);
    var done := Apply(Apply(s, append), commit);
    RunKeepsLedger(done, rest);
    PublishedRow(s.tx.value.working, f, id);
    StoredReportIsReconciled(done.durable, Run(done, rest).durable, f, id);
  }

  /** An accepted publication leaves the projection's row, new or already there. */
  lemma {:induction false} PublishedRow(t: Tables, f: Fact, id: ReportId)
    requires ReadEvent(t, f.id) == Ok(Some(f.Portable())) && id == ReportIdFor(f)
    requires TryPublish(t, f, id).Ok?
    ensures var u := TryPublish(t, f, id).value; var report := Projection(f, id);
      && ReadEvent(u, f.id) == ReadEvent(t, f.id)
      && FindReport(u.reports, id) < |u.reports|
      && u.reports[FindReport(u.reports, id)] == ReportRow(id, f.id, Json(report), report.generatedAt)
  {
    hide ReadEvent, HasConfirmedCommit, Projection;
    var u := TryPublish(t, f, id).value;
    assert Grows(t, u);
    ReadsAreStable(t, u, f.id);
    ProjectionIsNamed(f, id);
    if FindReport(t.reports, id) == |t.reports| {
      assert u.reports[|t.reports|].id == id;
      assert forall j :: 0 <= j < |t.reports| ==> u.reports[j] == t.reports[j];
    }
  }

  /** A report that is public once stays public over every run, as the same projection of the
      same event. A report without a candidate release keeps its result and its monitoring
      clocks, and a candidate report that was closed by a failure stays closed. */
  lemma {:induction false} PublicForever(s: Store, actions: seq<Action>, id: ReportId)
    requires Inv(s)
    requires PublicRead(s.durable, id).Ok? && PublicRead(s.durable, id).value.Some?
    ensures var now, later := PublicRead(s.durable, id), PublicRead(Run(s, actions).durable, id);
      && later.Ok? && later.value.Some?
      && var r, q := now.value.value, later.value.value;
      && SameReport(r, q)
      && (r.result.release.None? ==> q.result == r.result && q.monitoringClocks == r.monitoringClocks)
      && (IsClosed(r) ==> IsClosed(q))
  {
    RunKeepsLedger(s, actions);
    var a, b := s.durable, Run(s, actions).durable;
    var r := PublicRead(a, id).value.value;
    PublicReadIff(a, id, r);
    var row := a.reports[FindReport(a.reports, id)];
    var stored := Projection(ReadEvent(a, row.event).value.value, id);
    var saved := SavedStages(a.stages, row.event);
    var later := SavedStages(b.stages[|a.stages|..], row.event);
    ReadLater(a, b, id);
    ExposePersists(stored, saved, later);
    var q := Expose(stored, saved + later).value;
    PublicReadIff(b, id, q);
    ExposeKeepsReport(stored, saved);
    ExposeKeepsReport(stored, saved + later);
    LastClosureFailureAppend(saved, later);
    FirstSuccessAppend(saved, later, BusinessCommit);
    FirstSuccessAppend(saved, later, Publication);
  }

  /** The ingredients of a public read in a later state of the tables. */
  lemma {:induction false} ReadLater(a: Tables, b: Tables, id: ReportId)
    requires Extends(a, b)
    requires FindReport(a.reports, id) < |a.reports|
    requires var event := a.reports[FindReport(a.reports, id)].event;
      HasConfirmedCommit(a.stages, event) && HasVisibility(a.stages, event) && Readable(a, event)
    ensures FindReport(b.reports, id) == FindReport(a.reports, id) < |a.reports|
    ensures b.reports[FindReport(b.reports, id)] == a.reports[FindReport(a.reports, id)]
    ensures var event := a.reports[FindReport(a.reports, id)].event;
      && HasConfirmedCommit(b.stages, event) && HasVisibility(b.stages, event)
      && ReadEvent(b, event) == ReadEvent(a, event)
      && SavedStages(b.stages, event)
         == SavedStages(a.stages, event) + SavedStages(b.stages[|a.stages|..], event)
  {
    hide ReadEvent, HasConfirmedCommit, HasVisibility, SavedStages, FindReport;
    FindReportGrows(a.reports, b.reports, id);
    var row := a.reports[FindReport(a.reports, id)];
    GatesGrow(a.stages, b.stages, row.event);
    ReadsAreStable(a, b, row.event);
    var tail := b.stages[|a.stages|..];
    assert b.stages == a.stages + tail;
    SavedAppend(a.stages, tail, row.event);
  }

  // ---- the operations that commit in mid-transaction ------------------------------------

  datatype CommitReply = Committed(fact: Fact) | Refused(error: LedgerError) | Uncertain

  datatype PublishReply = Shown(report: FormalReport) | PublishRefused(error: LedgerError) | PublishUncertain

  /** Steps of the other connections. */
  predicate ByOthers(actions: seq<Action>, c: nat) {
    forall k :: 0 <= k < |actions| ==> actions[k].c != c
  }

  class DecisionLedger {
    var store: Store

    constructor (durable: Tables)
      requires Sound(durable)
      ensures store == Store(durable, None) && Inv(store)
    {
      store := Store(durable, None);
    }

    /** Commit, then retake the lock; other connections may run in between. Any failure rolls
        back and leaves the caller uncertain. */
    method CommitAndRelock(c: nat, outcome: CommitOutcome, gap: seq<Action>) returns (held: bool)
      requires Inv(store) && Holds(store, c)
      requires ByOthers(gap, c)
      modifies this
      ensures Inv(store) && Extends(old(store.durable), store.durable)
      ensures held ==> Holds(store, c) && outcome == Acknowledged
      ensures !held ==> !Holds(store, c)
      ensures store == Run(old(store), [Commit(c, outcome)] + gap + [if held then Begin(c) else Rollback(c)])
      ensures outcome == Acknowledged ==> (held <==> Run(old(store), [Commit(c, outcome)] + gap).tx.None?)
    {
      ghost var steps := [Commit(c, outcome)] + gap;
      RunKeepsLedger(store, steps);
      RunCons(store, Commit(c, outcome), gap);
      if outcome != NotApplied {
        store := Store(store.tx.value.working, None);
      }
      store := Run(store, gap);
      held := outcome == Acknowledged && store.tx.None?;
      ghost var last := if held then Begin(c) else Rollback(c);
      RunCons(store, last, []);
      RunConcat(old(store), steps, [last]);
      StepKeepsLedger(store, last);
      if held {
        store := store.(tx := Some(Transaction(c, store.durable)));
      } else if store.tx.Some? && store.tx.value.owner == c {
        store := store.(tx := None);
      }
    }

    /** `commit_event` on the fact that `build_event_fact` made. */
    method CommitEvent(c: nat, f: Fact, writeFails: bool, outcome: CommitOutcome, gap: seq<Action>)
      returns (reply: CommitReply)
      requires Inv(store) && Holds(store, c)
      requires ByOthers(gap, c)
      modifies this
      ensures Inv(store) && Extends(old(store.durable), store.durable)
      ensures var t := old(store.tx.value.working);
        match TryAppend(t, f)
        case Err(e) => reply == Refused(e) && store == old(store)
        case Ok(u) =>
          if u == t then reply == Committed(f) && store == old(store)
          else if writeFails then reply == Refused(WriteFailed) && store == old(store)
          else
            && reply == (if outcome == Acknowledged && AfterAttempt(old(store), c, f, outcome, gap).tx.None?
                         then Committed(f) else Uncertain)
            && (reply == Uncertain <==> !Holds(store, c))
            && store == AfterAttempt(old(store), c, f, outcome,
                 gap + [if reply == Uncertain then Rollback(c) else Begin(c)])
    {
      hide ReadEvent, Sound, NextSequence;
      var t := store.tx.value.working;
      var existing := ReadEvent(t, f.id);
      if existing.Err? {
        return Refused(Unreadable(existing.error));
      }
      if existing.value.Some? {
        if existing.value.value != f {
          return Refused(DifferentFacts);
        }
        return Committed(f);
      }
      assert WithEvent(t, f) != t by {
        assert |WithEvent(t, f).events| == |t.events| + 1;
      }
      if writeFails {
        return Refused(WriteFailed);
      }
      StepKeepsLedger(store, AppendEvent(c, f));
      store := store.(tx := Some(Transaction(c, WithEvent(t, f))));
      assert store == Apply(old(store), AppendEvent(c, f));
      var held := CommitAndRelock(c, outcome, gap);
      ghost var last := if held then Begin(c) else Rollback(c);
      ghost var rest := [Commit(c, outcome)] + gap + [last];
      assert [AppendEvent(c, f)] + rest == [AppendEvent(c, f), Commit(c, outcome)] + (gap + [last]);
      RunCons(old(store), AppendEvent(c, f), rest);
      assert [AppendEvent(c, f)] + ([Commit(c, outcome)] + gap) == [AppendEvent(c, f), Commit(c, outcome)] + gap;
      RunCons(old(store), AppendEvent(c, f), [Commit(c, outcome)] + gap);
      reply := if held then Committed(f) else Uncertain;
    }

    /** `reconcile_event_commit`: give up the transaction, verify on a fresh connection, retake
        the lock, and only then compare. */
    method ReconcileEventCommit(c: nat, attempted: Fact, before: seq<Action>, after: seq<Action>)
      returns (reply: ReconcileReply)
      requires Inv(store)
      requires ByOthers(before, c) && ByOthers(after, c)
      modifies this
      ensures Inv(store) && Extends(old(store.durable), store.durable)
      ensures var seen := Run(old(store), [Rollback(c)] + before);
        if Reconciled(seen.durable, attempted).Failure? then
          reply == Reconciled(seen.durable, attempted) && store == seen
        else if Run(seen, after).tx.Some? then
          reply == LockBusy && store == Run(seen, after)
        else
          && reply == Reconciled(seen.durable, attempted)
          && store == Run(seen, after).(tx := Some(Transaction(c, Run(seen, after).durable)))
    {
      RunKeepsLedger(store, [Rollback(c)] + before);
      RunCons(store, Rollback(c), before);
      if store.tx.Some? && store.tx.value.owner == c {
        store := store.(tx := None);
      }
      store := Run(store, before);
      var committed := ReadEvent(store.durable, attempted.id);
      if committed.Err? {
        return Failure(committed.error);
      }
      RunKeepsLedger(store, after);
      ExtendsTransitive(old(store.durable), store.durable, Run(store, after).durable);
      store := Run(store, after);
      if store.tx.Some? {
        return LockBusy;
      }
      StepKeepsLedger(store, Begin(c));
      store := store.(tx := Some(Transaction(c, store.durable)));
      if committed.value.None? {
        return Absent;
      }
      reply := if committed.value.value == attempted then Found(attempted) else Conflict;
    }

    /** `publish_report`, without the audit row that a refused shadow publication leaves. */
    method PublishReport(c: nat, f: Fact, id: ReportId, writeFails: bool, outcome: CommitOutcome, gap: seq<Action>)
      returns (reply: PublishReply)
      requires Inv(store) && Holds(store, c)
      requires ByOthers(gap, c)
      modifies this
      ensures Inv(store) && Extends(old(store.durable), store.durable)
      ensures IsShadow(f.frozen.scope) ==>
        reply == PublishRefused(ShadowIsolated) && store == old(store).(tx := None)
      ensures !IsShadow(f.frozen.scope) ==>
        var t := old(store.tx.value.working);
        match TryPublish(t, f, id)
        case Err(e) => reply == PublishRefused(e) && store == old(store)
        case Ok(u) =>
          if u == t then reply == Shown(Projection(f, id)) && store == old(store)
          else if writeFails then reply == PublishRefused(WriteFailed) && store == old(store)
          else
            && reply == (if outcome == Acknowledged
                            && Run(old(store), [AppendReport(c, f, id)] + ([Commit(c, outcome)] + gap)).tx.None?
                         then Shown(Projection(f, id)) else PublishUncertain)
            && (reply.Shown? <==> Holds(store, c))
            && store == Run(old(store),
                 [AppendReport(c, f, id)] + ([Commit(c, outcome)] + gap + [if reply.Shown? then Begin(c) else Rollback(c)]))
    {
      hide StoredReport, HasConfirmedCommit, Projection;
      if IsShadow(f.frozen.scope) {
        store := store.(tx := None);
        return PublishRefused(ShadowIsolated);
      }
      var t := store.tx.value.working;
      var tried := TryPublish(t, f, id);
      if tried.Err? {
        return PublishRefused(tried.error);
      }
      if FindReport(t.reports, id) < |t.reports| {
        return Shown(Projection(f, id));
      }
      assert tried.value != t by {
        assert |tried.value.reports| == |t.reports| + 1;
      }
      if writeFails {
        return PublishRefused(WriteFailed);
      }
      StepKeepsLedger(store, AppendReport(c, f, id));
      store := store.(tx := Some(Transaction(c, tried.value)));
      assert store == Apply(old(store), AppendReport(c, f, id));
      var held := CommitAndRelock(c, outcome, gap);
      RunCons(old(store), AppendReport(c, f, id),
              [Commit(c, outcome)] + gap + [if held then Begin(c) else Rollback(c)]);
      RunCons(old(store), AppendReport(c, f, id), [Commit(c, outcome)] + gap);
      reply := if held then Shown(Projection(f, id)) else PublishUncertain;
    }
  }
}
