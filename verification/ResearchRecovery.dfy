/** The failure identity of a research Run, rebuilt after a restart by replaying the validation of
    the command's facts, against the one that the live provider had set. */
module ResearchRecovery {
  import opened Outcomes
  import opened OrderedSets
  import opened ResearchFacts
  import opened ResearchProvider

  /** `_recover_research_failure_code` after a restart: no transient code, a redacted Run code,
      only the command to replay. */
  function RecoveredCode(p: Provider): Option<Code> {
    if p.failsData then Some(ResearchDataUnavailable)
    else if Validation(p.replayed, p.expected, p.mode, p.admits).Some? then Some(RequiredFactsIncomplete)
    else None
  }

  /** The two codes, told apart by the command alone. */
  lemma {:induction false} CodesMean(p: Provider, checkpoints: seq<Checkpoint>)
    ensures RecoveredCode(p) == Some(ResearchDataUnavailable) <==> p.failsData
    ensures LiveCode(p, checkpoints) == Some(ResearchDataUnavailable) <==> p.failsData
    ensures RecoveredCode(p) == Some(RequiredFactsIncomplete) <==>
      !p.failsData && Validation(p.replayed, p.expected, p.mode, p.admits).Some?
    ensures LiveCode(p, checkpoints) == Some(RequiredFactsIncomplete) <==>
      !p.failsData && (!p.staged || Active(checkpoints) == 0) && Validation(p.items, p.expected, p.mode, p.admits).Some?
  {
    hide Validation;
  }

  /** For every command, whatever the run had saved when the provider was asked, the code rebuilt
      after a restart is the code that the call set, no data failure included. */
  lemma {:induction false} RecoveredCodeIsLive(c: Command, mode: Mode, member: Option<Member>, admits: Admission,
                                               events: seq<Event>, seen: nat)
    requires seen <= |Run(StagedProvider(c, mode, member, admits), [], events)|
    ensures var p := StagedProvider(c, mode, member, admits);
      LiveCode(p, Run(p, [], events)[..seen]) == RecoveredCode(p)
  {
    hide Run, Validation, NextStage;
    var p := StagedProvider(c, mode, member, admits);
    SavedMeansValid(p, [], events);
    var checkpoints := Run(p, [], events);
    var view := checkpoints[..seen];
    if Active(view) > 0 {
      assert Completed(view, STAGES[0]);
      var i :| 0 <= i < |view| && view[i].stage == Some(Collect);
      assert checkpoints[i] == view[i];
    }
  }

  // ---- the original aggregate Run ---------------------------------------------------------------

  /** The provider of the original aggregate Run (`_legacy_research_definition`). It delivers the
      rebuilt payloads, while its recovery replays the persisted ones. */
  function LegacyProvider(c: Command, admits: Admission): Provider {
    Provider(LegacyItems(c.members), ItemsOf(c.members), c.members, Legacy, c.failsData, false, admits)
  }

  /** The keys that the rebuilt payload has: signals and flags, and either all or none of manifest,
      cutoff and facts. */
  predicate CopiedWhole(raw: RawMember) {
    && raw.signals.Some? && raw.flags.Some?
    && (raw.manifest.Some? <==> raw.cutoff.Some?)
    && (raw.manifest.Some? <==> raw.facts.Some?)
  }

  lemma {:induction false} EvidenceByOwnId(evidence: seq<RawEvidence>, i: nat, id: string)
    requires i < |evidence| && evidence[i].id == Some(id)
    requires forall k :: 0 <= k < |evidence| && k != i ==> evidence[k].id != Some(id)
    ensures EvidenceById(evidence, id) == Some(evidence[i])
    decreases |evidence|
  {
    if i < |evidence| - 1 {
      EvidenceByOwnId(evidence[..|evidence| - 1], i, id);
    }
  }

  /** The rebuilt payload of a decoded member is its persisted one exactly when that has the keys
      which are always rebuilt, and no other. */
  lemma {:induction false} RebuiltIsPersistedIff(m: Member, admits: Admission)
    requires Genuine(Legacy, m, admits) && m.origin.Decoded?
    ensures LegacyPayload(m) == m.origin.persisted <==> CopiedWhole(m.origin.persisted)
  {
    var raw := m.origin.persisted;
    assert m.evidence == DecodeEvidence(raw.evidence);
    forall i | 0 <= i < |raw.evidence|
      ensures LegacyEvidence(m, i) == raw.evidence[i]
    {
      forall k | 0 <= k < |raw.evidence| && k != i
        ensures raw.evidence[k].id != raw.evidence[i].id
      {
        assert m.EvidenceIds()[k] != m.EvidenceIds()[i];
      }
      EvidenceByOwnId(raw.evidence, i, m.evidence[i].id);
    }
    assert LegacyPayload(m).evidence == raw.evidence;
  }

  /** What delivering and replaying one member demand of it. */
  lemma {:induction false} LegacyMemberIff(m: Member, admits: Admission)
    ensures Genuine(Legacy, m, admits) ==> m.origin.Decoded?
    ensures Decode(Legacy, LegacyPayload(m), admits) == Some(m) <==>
      Genuine(Legacy, m, admits) && CopiedWhole(m.origin.persisted)
  {
    if Decode(Legacy, LegacyPayload(m), admits) == Some(m) {
      assert m.origin == Decoded(Legacy, LegacyPayload(m));
      assert Genuine(Legacy, m, admits);
    }
    if Genuine(Legacy, m, admits) {
      RebuiltIsPersistedIff(m, admits);
    }
  }

  predicate Replays(c: Command, admits: Admission) {
    forall i :: 0 <= i < |c.members| ==> Genuine(Legacy, c.members[i], admits) && Complete(Legacy, c.members[i])
  }

  /** Both validations of the aggregate Run, member by member. */
  lemma {:induction false} LegacyValidations(c: Command, admits: Admission)
    requires Distinct(MemberSecurities(c.members))
    ensures var p := LegacyProvider(c, admits);
      && (Validation(p.replayed, p.expected, p.mode, p.admits).None? <==> Replays(c, admits))
      && (p.Failure().None? <==>
            Replays(c, admits) && forall i :: 0 <= i < |c.members| ==> CopiedWhole(Payload(c.members[i])))
  {
    hide Decode, LegacyPayload, Validation;
    var p := LegacyProvider(c, admits);
    forall i | 0 <= i < |c.members|
      ensures Genuine(Legacy, c.members[i], admits) ==> c.members[i].origin.Decoded?
      ensures Decode(Legacy, LegacyPayload(c.members[i]), admits) == Some(c.members[i]) <==>
        Genuine(Legacy, c.members[i], admits) && CopiedWhole(Payload(c.members[i]))
    {
      LegacyMemberIff(c.members[i], admits);
    }
    assert Lists(p.items, c.members) by { LegacyItemsAreListed(c.members); }
    ValidationPassesIff(p.items, c.members, Legacy, admits);
    ReplayedPassesIff(c.members, admits);
  }

  lemma {:induction false} LegacyItemsAreListed(members: seq<Member>)
    ensures Lists(LegacyItems(members), members)
  {
  }

  lemma {:induction false} ReplayedPassesIff(members: seq<Member>, admits: Admission)
    requires Distinct(MemberSecurities(members))
    ensures Validation(ItemsOf(members), members, Legacy, admits).None? <==>
      forall i :: 0 <= i < |members| ==> Genuine(Legacy, members[i], admits) && Complete(Legacy, members[i])
  {
    hide Decode;
    if Lists(ItemsOf(members), members) {
      ValidationPassesIff(ItemsOf(members), members, Legacy, admits);
    } else if Validation(ItemsOf(members), members, Legacy, admits).None? {
      UnlistedFails(members, admits);
    } else if forall i :: 0 <= i < |members| ==> Genuine(Legacy, members[i], admits) {
      OwnItemsAreListed(members, Legacy, admits);
    }
  }

  /** Validated own items stand under the members' securities. */
  lemma {:induction false} UnlistedFails(members: seq<Member>, admits: Admission)
    requires Validation(ItemsOf(members), members, Legacy, admits).None?
    ensures Lists(ItemsOf(members), members)
  {
    hide Decode, Lookup;
    var items := ItemsOf(members);
    NoFailureIff(items, members, Legacy, admits);
    forall i | 0 <= i < |items|
      ensures items[i].content.raw.security == Some(members[i].security)
    {
      assert ItemSecurities(items)[i] == MemberSecurities(members)[i];
      DecodeKeepsSecurity(Legacy, items[i].content.raw, admits);
    }
  }

  /** The recovery of the original aggregate Run finds the code that the live provider set exactly
      when the command fails its data anyway, some member does not validate from its own payload,
      or every persisted payload has just the keys that are rebuilt. */
  lemma {:induction false} LegacyCodeIsLiveIff(c: Command, admits: Admission, checkpoints: seq<Checkpoint>)
    requires Distinct(MemberSecurities(c.members))
    ensures var p := LegacyProvider(c, admits);
      LiveCode(p, checkpoints) == RecoveredCode(p) <==>
      || c.failsData
      || !Replays(c, admits)
      || forall i :: 0 <= i < |c.members| ==> CopiedWhole(Payload(c.members[i]))
  {
    hide Validation, Replays, CopiedWhole, NextStage;
    LegacyValidations(c, admits);
  }

  function Name(i: nat): string {
    seq(i + 1, _ => 'x')
  }

  /** A persisted member of the first research contract: no manifest, and no risk flags, which that
      contract lets a member leave out. */
  function UnflaggedPayload(i: nat): RawMember {
    RawMember(Some(Name(i)), Some(Name(i)), [RawEvidence(Some(Name(i)), Some("cutoff"), "body")],
              Some(OldSignals("signals")), None, None, None, None)
  }

  function UnflaggedMember(i: nat): Member {
    Member(Name(i), Name(i), [Evidence(Name(i), "cutoff", "body")], ImpliedManifest(Name(i)),
           Facts(false, true, ""), "cutoff", [], Decoded(Legacy, UnflaggedPayload(i)))
  }

  function UnflaggedMembers(n: nat): seq<Member> {
    seq(n, i requires 0 <= i < n => UnflaggedMember(i))
  }

  function UnflaggedCommand(): Command {
    Command(UnflaggedMembers(10), false)
  }

  /** The difference is real: a command of ten such members, which the contract admits, is refused
      live as incomplete, and its recovery finds no data failure. */
  lemma {:induction false} LegacyCodesDiffer(admits: Admission, checkpoints: seq<Checkpoint>)
    requires forall i :: 0 <= i < 10 ==> admits(Legacy, UnflaggedPayload(i))
    ensures var c := UnflaggedCommand(); var p := LegacyProvider(c, admits);
      && FixedTen(c)
      && (forall i :: 0 <= i < 10 ==> Genuine(Legacy, c.members[i], admits))
      && LiveCode(p, checkpoints) == Some(RequiredFactsIncomplete)
      && RecoveredCode(p) == None
  {
    hide Validation, NextStage, FixedTen;
    var c := UnflaggedCommand();
    forall i | 0 <= i < 10
      ensures Genuine(Legacy, c.members[i], admits) && Complete(Legacy, c.members[i])
      ensures !CopiedWhole(Payload(c.members[i]))
    {
      UnflaggedIsGenuine(i, admits);
    }
    assert FixedTen(c) && Distinct(MemberSecurities(c.members)) by {
      UnflaggedIsFixedTen();
      NamesIdentify(10);
      NamesDiffer(10);
    }
    LegacyValidations(c, admits);
    assert !CopiedWhole(Payload(c.members[0]));
  }

  function Names(n: nat): seq<string> {
    seq(n, i requires 0 <= i < n => Name(i))
  }

  /** All identities of such members are their names. */
  lemma {:induction false} NamesIdentify(n: nat)
    ensures var members := UnflaggedMembers(n);
      MemberSecurities(members) == MemberResearchIds(members) == AllEvidenceIds(members) == Names(n)
  {
    if n > 0 {
      var members := UnflaggedMembers(n);
      NamesIdentify(n - 1);
      assert members[..n - 1] == UnflaggedMembers(n - 1);
      assert members[n - 1].EvidenceIds() == [Name(n - 1)];
      assert Names(n) == Names(n - 1) + [Name(n - 1)];
    }
  }

  lemma {:induction false} NamesDiffer(n: nat)
    ensures Distinct(Names(n))
  {
    forall i, j | 0 <= i < j < n
      ensures Names(n)[i] != Names(n)[j]
    {
      assert |Name(i)| == i + 1 && |Name(j)| == j + 1;
    }
  }

  lemma {:induction false} UnflaggedIsFixedTen()
    ensures FixedTen(UnflaggedCommand())
  {
    NamesIdentify(10);
    NamesDiffer(10);
  }

  lemma {:induction false} UnflaggedIsGenuine(i: nat, admits: Admission)
    requires admits(Legacy, UnflaggedPayload(i))
    ensures Genuine(Legacy, UnflaggedMember(i), admits) && Complete(Legacy, UnflaggedMember(i))
    ensures !CopiedWhole(Payload(UnflaggedMember(i)))
  {
    var m, id := UnflaggedMember(i), Name(i);
    assert DecodeEvidence(UnflaggedPayload(i).evidence) == m.evidence;
    assert m.EvidenceIds() == [id] && m.manifest[0].evidence == [id];
    assert id in m.manifest[0].evidence && id in m.EvidenceIds();
    forall x
      ensures x in ManifestEvidence(m.manifest) <==> x == id
    {
      assert forall k :: 0 <= k < |m.manifest| ==> m.manifest[k].evidence == [id];
      assert x == id ==> x in m.manifest[0].evidence;
    }
    assert forall x :: x in Set(m.EvidenceIds()) <==> x == id;
  }
}
