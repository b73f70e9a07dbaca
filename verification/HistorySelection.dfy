/** Selections from the event history: the monitoring history that later assessments build on,
    and the concentration obligations of each issuer. */
module HistorySelection {
  import opened Outcomes
  import opened Identities
  import opened LedgerTables
  import opened EventLineage
  import opened CommitProtocol
  import StableOrder

  // ---- monitoring history -------------------------------------------------------------

  datatype MonitoringKind = DailyClose | EventReassess | Lifecycle | NotificationRun

  datatype MonitoringFact = MonitoringFact(id: EventId, corrects: Option<EventId>, kind: MonitoringKind)
  {
    predicate IsAssessment() {
      kind == DailyClose || kind == EventReassess
    }
  }

  /** The loop keeps a fact unless it is an assessment that corrects something other than the
      latest kept assessment. */
  predicate Kept(f: MonitoringFact, latest: Option<EventId>) {
    !f.IsAssessment() || f.corrects.None? || f.corrects == latest
  }

  function Latest(facts: seq<MonitoringFact>): Option<EventId> {
    if facts == [] then None
    else
      var before, f := Latest(facts[..|facts| - 1]), facts[|facts| - 1];
      if f.IsAssessment() && Kept(f, before) then Some(f.id) else before
  }

  function Select(facts: seq<MonitoringFact>): seq<MonitoringFact> {
    if facts == [] then []
    else
      var init, f := facts[..|facts| - 1], facts[|facts| - 1];
      Select(init) + if Kept(f, Latest(init)) then [f] else []
  }

  /** The loop of `monitoring_history` over the scoped facts. */
  method MonitoringHistory(facts: seq<MonitoringFact>) returns (selected: seq<MonitoringFact>)
    ensures selected == Select(facts)
  {
    selected := [];
    var latest: Option<EventId> := None;
    for i := 0 to |facts|
      invariant selected == Select(facts[..i])
      invariant latest == Latest(facts[..i])
    {
      assert facts[..i + 1][..i] == facts[..i];
      var fact := facts[i];
      if fact.IsAssessment() {
        if fact.corrects.Some? && fact.corrects != latest {
          continue;
        }
        latest := Some(fact.id);
      }
      selected := selected + [fact];
    }
    assert facts[..|facts|] == facts;
  }

  /** The position of the last kept assessment before position n, if there is one. */
  function PreviousAssessment(s: seq<MonitoringFact>, n: nat): (r: Option<nat>)
    requires n <= |s|
    ensures r.Some? ==> r.value < n && s[r.value].IsAssessment()
    ensures forall k :: (if r.Some? then r.value + 1 else 0) <= k < n ==> !s[k].IsAssessment()
  {
    if n == 0 then None
    else if s[n - 1].IsAssessment() then Some(n - 1)
    else PreviousAssessment(s, n - 1)
  }

  /** The loop's variable is the identity of the last selected assessment. */
  lemma {:induction false} LatestIsLastSelected(facts: seq<MonitoringFact>)
    ensures var s := Select(facts); var p := PreviousAssessment(s, |s|);
      Latest(facts) == if p.Some? then Some(s[p.value].id) else None
  {
    if facts != [] {
      var init, f := facts[..|facts| - 1], facts[|facts| - 1];
      LatestIsLastSelected(init);
      if Kept(f, Latest(init)) {
        PreviousIgnoresTail(Select(init), [f], |Select(init)|);
      } else {
        assert Select(facts) == Select(init);
      }
    }
  }

  lemma {:induction false} PreviousIgnoresTail(s: seq<MonitoringFact>, tail: seq<MonitoringFact>, n: nat)
    requires n <= |s|
    ensures PreviousAssessment(s + tail, n) == PreviousAssessment(s, n)
  {
    if n > 0 {
      PreviousIgnoresTail(s, tail, n - 1);
    }
  }

  /** Every selected correction of an assessment corrects the assessment selected immediately
      before it. */
  lemma {:induction false} CorrectionsFollowTheirTarget(facts: seq<MonitoringFact>, n: nat)
    requires n < |Select(facts)|
    requires Select(facts)[n].IsAssessment() && Select(facts)[n].corrects.Some?
    ensures var s := Select(facts); var p := PreviousAssessment(s, n);
      p.Some? && s[n].corrects == Some(s[p.value].id)
  {
    var init, f := facts[..|facts| - 1], facts[|facts| - 1];
    var s, r := Select(facts), Select(init);
    assert s == r + s[|r|..];
    PreviousIgnoresTail(r, s[|r|..], n);
    if n < |r| {
      CorrectionsFollowTheirTarget(init, n);
    } else {
      LatestIsLastSelected(init);
    }
  }

  /** With lineage of depth one, the target of a selected correction is an original. */
  lemma {:induction false} CorrectedAssessmentIsOriginal(facts: seq<MonitoringFact>, n: nat)
    requires forall f, g :: f in facts && g in facts && f.corrects == Some(g.id) ==> g.corrects.None?
    requires n < |Select(facts)|
    requires Select(facts)[n].IsAssessment() && Select(facts)[n].corrects.Some?
    ensures var p := PreviousAssessment(Select(facts), n); p.Some? && Select(facts)[p.value].corrects.None?
  {
    CorrectionsFollowTheirTarget(facts, n);
    var p := PreviousAssessment(Select(facts), n).value;
    SelectedAreFacts(facts, Select(facts)[n]);
    SelectedAreFacts(facts, Select(facts)[p]);
  }

  lemma {:induction false} SelectedAreFacts(facts: seq<MonitoringFact>, f: MonitoringFact)
    requires f in Select(facts)
    ensures f in facts
  {
    var init := facts[..|facts| - 1];
    if f in Select(init) {
      SelectedAreFacts(init, f);
    }
  }

  /** The identity of the last selected assessment. */
  function LastSelected(s: seq<MonitoringFact>): Option<EventId> {
    var p := PreviousAssessment(s, |s|);
    if p.Some? then Some(s[p.value].id) else None
  }

  /** The next fact is selected, at the end, exactly when it is no assessment, an original, or a
      correction of the last selected assessment. */
  lemma {:induction false} SelectsNextIff(facts: seq<MonitoringFact>, f: MonitoringFact)
    ensures Select(facts + [f])
         == Select(facts)
            + if f.kind == Lifecycle || f.kind == NotificationRun
                 || f.corrects.None? || f.corrects == LastSelected(Select(facts)) then [f] else []
  {
    var all := facts + [f];
    assert all[..|all| - 1] == facts;
    LatestIsLastSelected(facts);
  }

  ghost function Drop(facts: seq<MonitoringFact>, p: MonitoringFact -> bool): (r: seq<MonitoringFact>)
    ensures forall f :: f in r <==> f in facts && !p(f)
  {
    if facts == [] then []
    else
      var init, f := facts[..|facts| - 1], facts[|facts| - 1];
      Drop(init, p) + if p(f) then [] else [f]
  }

  const IsCorrectedAssessment: MonitoringFact -> bool :=
    (f: MonitoringFact) => f.IsAssessment() && f.corrects.Some?

  /** Originals and facts that are no assessments are all selected, in their order: without the
      corrections of assessments, the selection is the history. */
  lemma {:induction false} OnlyCorrectionsAreDropped(facts: seq<MonitoringFact>)
    ensures Drop(Select(facts), IsCorrectedAssessment) == Drop(facts, IsCorrectedAssessment)
  {
    if facts != [] {
      var init, f := facts[..|facts| - 1], facts[|facts| - 1];
      OnlyCorrectionsAreDropped(init);
      if Kept(f, Latest(init)) {
        assert Select(facts)[..|Select(facts)| - 1] == Select(init);
      } else {
        assert Select(facts) == Select(init);
      }
    }
  }

  /** A longer log only extends the selection. */
  lemma {:induction false} SelectionExtends(facts: seq<MonitoringFact>, more: seq<MonitoringFact>)
    ensures Select(facts) <= Select(facts + more)
    decreases |more|
  {
    var all := facts + more;
    if more == [] {
      assert all == facts;
    } else {
      assert all[..|all| - 1] == facts + more[..|more| - 1];
      SelectionExtends(facts, more[..|more| - 1]);
    }
  }

  /** The scope filter of `monitoring_history`, as any per-fact view that keeps the lineage. */
  ghost predicate KeepsLineage(view: Fact -> Option<MonitoringFact>) {
    forall f :: view(f).Some? ==> view(f).value.id == f.id && view(f).value.corrects == f.corrects
  }

  function Scoped(facts: seq<Fact>, view: Fact -> Option<MonitoringFact>): seq<MonitoringFact> {
    if facts == [] then []
    else
      var last := view(facts[|facts| - 1]);
      Scoped(facts[..|facts| - 1], view) + if last.Some? then [last.value] else []
  }

  lemma {:induction false} ScopedAppend(facts: seq<Fact>, more: seq<Fact>, view: Fact -> Option<MonitoringFact>)
    ensures Scoped(facts + more, view) == Scoped(facts, view) + Scoped(more, view)
    decreases |more|
  {
    var all := facts + more;
    if more == [] {
      assert all == facts;
    } else {
      assert all[..|all| - 1] == facts + more[..|more| - 1];
      ScopedAppend(facts, more[..|more| - 1], view);
    }
  }

  lemma {:induction false} ScopedComesFrom(facts: seq<Fact>, view: Fact -> Option<MonitoringFact>, m: MonitoringFact)
    requires m in Scoped(facts, view)
    ensures exists f :: f in facts && view(f) == Some(m)
  {
    var init := facts[..|facts| - 1];
    if m in Scoped(init, view) {
      ScopedComesFrom(init, view, m);
    } else {
      assert facts[|facts| - 1] in facts;
    }
  }

  /** Over every run of the ledger whose appended facts are bindable, the monitoring history that a
      later assessment sees starts with the one that is visible now. */
  lemma {:induction false} MonitoringHistoryExtends(s: Store, actions: seq<Action>, view: Fact -> Option<MonitoringFact>)
    requires Inv(s) && NewRowsWritten(s, |s.durable.events|)
    requires EventFacts(s.durable).Some? && BindableFrom(Run(s, actions).durable, |s.durable.events|)
    ensures EventFacts(Run(s, actions).durable).Some?
    ensures Select(Scoped(EventFacts(s.durable).value, view))
         <= Select(Scoped(EventFacts(Run(s, actions).durable).value, view))
  {
    hide Inv, EventFacts, Run, Select, Scoped, BindableFrom, NewRowsWritten;
    HistoryIsPrefix(s, actions);
    var now, later := EventFacts(s.durable).value, EventFacts(Run(s, actions).durable).value;
    assert later == now + later[|now|..];
    ScopedAppend(now, later[|now|..], view);
    SelectionExtends(Scoped(now, view), Scoped(later[|now|..], view));
  }

  /** In the history read from any table, the target of a selected correction is an original:
      the lineage check of the reads supplies the depth-one lineage. */
  lemma {:induction false} ReadCorrectionsFollowOriginals(t: Tables, view: Fact -> Option<MonitoringFact>, n: nat)
    requires KeepsLineage(view)
    requires EventFacts(t).Some?
    requires var s := Select(Scoped(EventFacts(t).value, view));
      n < |s| && s[n].IsAssessment() && s[n].corrects.Some?
    ensures var s := Select(Scoped(EventFacts(t).value, view)); var p := PreviousAssessment(s, n);
      p.Some? && s[n].corrects == Some(s[p.value].id) && s[p.value].corrects.None?
  {
    var facts := EventFacts(t).value;
    var scoped := Scoped(facts, view);
    forall x, y | x in scoped && y in scoped && x.corrects == Some(y.id)
      ensures y.corrects.None?
    {
      ScopedComesFrom(facts, view, x);
      ScopedComesFrom(facts, view, y);
      var f :| f in facts && view(f) == Some(x);
      var g :| g in facts && view(g) == Some(y);
      ReadFactsAreStored(t, f);
      ReadFactsAreStored(t, g);
      CorrectionsHaveDepthOne(t, f.id);
    }
    CorrectionsFollowTheirTarget(scoped, n);
    CorrectedAssessmentIsOriginal(scoped, n);
  }

  lemma {:induction false} ReadFactsAreStored(t: Tables, f: Fact)
    requires EventFacts(t).Some? && f in EventFacts(t).value
    ensures ReadEvent(t, f.id) == Ok(Some(f))
  {
  }

  // ---- concentration history ------------------------------------------------------------

  datatype Issuer = Issuer(id: string, obligation: Option<string>, direction: string)

  /** A scoped concentration outcome; `order` is its position in the event history. */
  datatype Outcome = Outcome(order: int, cutoff: int, accounts: set<string>, issuers: seq<Issuer>)

  /** One obligation-bearing entry and where it stands in its outcome. */
  datatype Entry = Entry(outcome: Outcome, position: nat)

  const CutoffOf: Outcome -> int := (o: Outcome) => o.cutoff
  const OrderOf: Outcome -> int := (o: Outcome) => o.order

  ghost predicate InEventOrder(outcomes: seq<Outcome>) {
    forall i :: 0 <= i < |outcomes| ==> outcomes[i].order == i
  }

  ghost predicate Bears(e: Entry, issuer: string, outcomes: seq<Outcome>) {
    && e.outcome in outcomes
    && e.position < |e.outcome.issuers|
    && e.outcome.issuers[e.position].id == issuer
    && e.outcome.issuers[e.position].obligation.Some?
  }

  /** Later by cutoff, then by event order, then by position in the outcome. */
  ghost predicate Supersedes(e: Entry, d: Entry) {
    || d.outcome.cutoff < e.outcome.cutoff
    || (d.outcome.cutoff == e.outcome.cutoff && d.outcome.order < e.outcome.order)
    || (d.outcome == e.outcome && d.position <= e.position)
  }

  ghost predicate Answers(latest: map<string, Entry>, issuer: string, d: Entry) {
    issuer in latest && Supersedes(latest[issuer], d)
  }

  /** The map holds, for exactly the issuers with an obligation, the superseding entry. */
  ghost predicate IsLatest(latest: map<string, Entry>, outcomes: seq<Outcome>) {
    && (forall k :: k in latest ==> Bears(latest[k], k, outcomes))
    && (forall k, d :: Bears(d, k, outcomes) ==> Answers(latest, k, d))
  }

  /** The dictionary comprehension of `concentration_history` over the sorted outcomes. */
  method LatestObligations(outcomes: seq<Outcome>) returns (sorted: seq<Outcome>, latest: map<string, Entry>)
    requires InEventOrder(outcomes)
    ensures sorted == StableOrder.Sort(outcomes, CutoffOf)
    ensures IsLatest(latest, outcomes)
  {
    sorted := StableOrder.Sort(outcomes, CutoffOf);
    StableOrder.SortInOrder(outcomes, CutoffOf, OrderOf);
    latest := map[];
    for i := 0 to |sorted|
      invariant IsLatest(latest, sorted[..i])
    {
      latest := OverwriteWith(latest, sorted[..i], sorted[i]) by {
        forall j | 0 <= j < i
          ensures StableOrder.Before(sorted[..i][j], sorted[i], CutoffOf, OrderOf)
        {
        }
      }
      assert sorted[..i + 1] == sorted[..i] + [sorted[i]];
    }
    assert sorted[..|sorted|] == sorted;
    forall o: Outcome
      ensures o in sorted <==> o in outcomes
    {
      StableOrder.SortMember(outcomes, CutoffOf, o);
    }
    assert forall e, k :: Bears(e, k, sorted) <==> Bears(e, k, outcomes);
  }

  method OverwriteWith(latest: map<string, Entry>, before: seq<Outcome>, outcome: Outcome)
    returns (next: map<string, Entry>)
    requires IsLatest(latest, before)
    requires forall j :: 0 <= j < |before| ==> StableOrder.Before(before[j], outcome, CutoffOf, OrderOf)
    ensures IsLatest(next, before + [outcome])
  {
    next := latest;
    for p := 0 to |outcome.issuers|
      invariant IsLatestUpTo(next, before, outcome, p)
    {
      var issuer := outcome.issuers[p];
      if issuer.obligation.Some? {
        next := next[issuer.id := Entry(outcome, p)];
      }
      forall k, d | BearsUpTo(d, k, before, outcome, p + 1)
        ensures Answers(next, k, d)
      {
        if Bears(d, k, before) {
          var j :| 0 <= j < |before| && before[j] == d.outcome;
          assert StableOrder.Before(before[j], outcome, CutoffOf, OrderOf);
        }
        assert (k == issuer.id && issuer.obligation.Some?) || BearsUpTo(d, k, before, outcome, p);
      }
    }
    assert forall k, d :: Bears(d, k, before + [outcome]) <==> BearsUpTo(d, k, before, outcome, |outcome.issuers|);
  }

  /** An entry among the earlier outcomes or the first p issuers of the next one. */
  ghost predicate BearsUpTo(e: Entry, issuer: string, before: seq<Outcome>, outcome: Outcome, p: nat) {
    Bears(e, issuer, before) || (e.position < p && Bears(e, issuer, [outcome]))
  }

  ghost predicate IsLatestUpTo(latest: map<string, Entry>, before: seq<Outcome>, outcome: Outcome, p: nat) {
    && (forall k :: k in latest ==> BearsUpTo(latest[k], k, before, outcome, p))
    && (forall k, d :: BearsUpTo(d, k, before, outcome, p) ==> Answers(latest, k, d))
  }

  /** At most one map is the latest one. */
  lemma {:induction false} LatestIsUnique(a: map<string, Entry>, b: map<string, Entry>, outcomes: seq<Outcome>)
    requires InEventOrder(outcomes)
    requires IsLatest(a, outcomes) && IsLatest(b, outcomes)
    ensures a == b
  {
  }

  predicate Covered(o: Outcome, accounts: set<string>) {
    o.accounts <= accounts
  }

  function CoveredOutcomes(sorted: seq<Outcome>, accounts: set<string>): seq<Outcome> {
    if sorted == [] then []
    else CoveredOutcomes(sorted[..|sorted| - 1], accounts)
         + if Covered(sorted[|sorted| - 1], accounts) then [sorted[|sorted| - 1]] else []
  }

  predicate Uncovered(latest: map<string, Entry>, accounts: set<string>)
    requires forall k :: k in latest ==> latest[k].position < |latest[k].outcome.issuers|
  {
    exists k :: k in latest
      && latest[k].outcome.issuers[latest[k].position].direction == "REDUCE"
      && !Covered(latest[k].outcome, accounts)
  }

  /** The shown outcomes are exactly those all of whose accounts were asked for. */
  lemma {:induction false} ShownIffCovered(sorted: seq<Outcome>, accounts: set<string>, o: Outcome)
    ensures o in CoveredOutcomes(sorted, accounts) <==> o in sorted && forall a :: a in o.accounts ==> a in accounts
    ensures o in sorted && o.accounts == accounts ==> o in CoveredOutcomes(sorted, accounts)
  {
    if sorted != [] {
      ShownIffCovered(sorted[..|sorted| - 1], accounts, o);
      assert sorted == sorted[..|sorted| - 1] + [sorted[|sorted| - 1]];
    }
  }

  /** The flag is raised exactly when the latest obligation of some issuer is to reduce and has an
      account that was not asked for. */
  lemma {:induction false} UncoveredIff(latest: map<string, Entry>, accounts: set<string>)
    requires forall k :: k in latest ==> latest[k].position < |latest[k].outcome.issuers|
    ensures Uncovered(latest, accounts) <==>
      exists k, a :: k in latest && a in latest[k].outcome.accounts && a !in accounts
        && latest[k].outcome.issuers[latest[k].position].direction == "REDUCE"
  {
    if Uncovered(latest, accounts) {
      var k :| k in latest && latest[k].outcome.issuers[latest[k].position].direction == "REDUCE"
        && !Covered(latest[k].outcome, accounts);
      var a :| a in latest[k].outcome.accounts && a !in accounts;
    }
  }

  /** Widening the accounts of the same owner and visibility only adds outcomes, in their order,
      and can only clear the uncovered-obligation flag; the latest obligations do not depend on
      the accounts at all. */
  lemma {:induction false} WideningOnlyAdds(sorted: seq<Outcome>, latest: map<string, Entry>,
                                            narrow: set<string>, wide: set<string>)
    requires narrow <= wide
    requires forall k :: k in latest ==> latest[k].position < |latest[k].outcome.issuers|
    ensures CoveredOutcomes(CoveredOutcomes(sorted, wide), narrow) == CoveredOutcomes(sorted, narrow)
    ensures Uncovered(latest, wide) ==> Uncovered(latest, narrow)
  {
    if sorted != [] {
      var init, last := sorted[..|sorted| - 1], sorted[|sorted| - 1];
      WideningOnlyAdds(init, latest, narrow, wide);
      if Covered(last, wide) {
        var w := CoveredOutcomes(sorted, wide);
        assert w[..|w| - 1] == CoveredOutcomes(init, wide);
      } else {
        assert CoveredOutcomes(sorted, wide) == CoveredOutcomes(init, wide);
        assert !Covered(last, narrow);
      }
    }
  }
}
