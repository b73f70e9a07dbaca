/** The required facts of a research command: member payloads as they are persisted, the three
    decoders, the two builders of context items, and the validation of delivered items. */
module ResearchFacts {
  import opened Outcomes
  import opened OrderedSets

  /** The contract family that a frozen case names. */
  datatype Mode = Current | Historical | Legacy

  datatype ManifestEntry = ManifestEntry(dataType: string, complete: bool, evidence: seq<string>)

  /** JSON of one evidence entry; an identity or cutoff that is no string is `None`. */
  datatype RawEvidence = RawEvidence(id: Option<string>, cutoff: Option<string>, body: string)

  /** JSON of structured facts: whether the money flow is complete, if it is there at all, and
      whether every signal can be derived. */
  datatype RawFacts = RawFacts(moneyFlow: Option<bool>, signalsPresent: bool, body: string)

  /** JSON of structured signals, by the set of features it names. */
  datatype RawSignals = OldSignals(text: string) | CurrentSignals(present: bool, text: string) | OtherSignals(text: string)

  /** JSON of a member; each optional key may be missing. */
  datatype RawMember = RawMember(
    security: Option<string>, research: Option<string>, evidence: seq<RawEvidence>,
    signals: Option<RawSignals>, flags: Option<seq<string>>, cutoff: Option<string>,
    manifest: Option<seq<ManifestEntry>>, facts: Option<RawFacts>)

  datatype Evidence = Evidence(id: string, cutoff: string, body: string)

  datatype Facts = Facts(moneyFlowComplete: bool, signalsPresent: bool, body: string)

  /** The private attributes of a member, which its equality compares too: how it was decoded, and
      from what. */
  datatype Origin = Built | Decoded(mode: Mode, persisted: RawMember)

  /** A decoded member; its structured signals are derived from its facts. */
  datatype Member = Member(
    security: string, research: string, evidence: seq<Evidence>, manifest: seq<ManifestEntry>,
    facts: Facts, cutoff: string, flags: seq<string>, origin: Origin)
  {
    function EvidenceIds(): seq<string> {
      seq(|evidence|, i requires 0 <= i < |evidence| => evidence[i].id)
    }
  }

  /** The checks of the member contract on values that are not modelled. */
  type Admission = (Mode, RawMember) -> bool

  // ---- identities -------------------------------------------------------------------------

  function MemberSecurities(members: seq<Member>): seq<string> {
    seq(|members|, i requires 0 <= i < |members| => members[i].security)
  }

  function MemberResearchIds(members: seq<Member>): seq<string> {
    seq(|members|, i requires 0 <= i < |members| => members[i].research)
  }

  /** The evidence of all members, one after the other. */
  function AllEvidenceIds(members: seq<Member>): seq<string> {
    if members == [] then []
    else AllEvidenceIds(members[..|members| - 1]) + members[|members| - 1].EvidenceIds()
  }

  /** The identities that a member list covers. */
  function MemberEvidence(members: seq<Member>): set<string> {
    set i, x | 0 <= i < |members| && x in members[i].EvidenceIds() :: x
  }

  function ManifestEvidence(manifest: seq<ManifestEntry>): set<string> {
    set i, x | 0 <= i < |manifest| && x in manifest[i].evidence :: x
  }

  // ---- decoding -----------------------------------------------------------------------------

  predicate WholeEvidence(evidence: seq<RawEvidence>) {
    evidence != [] && forall i :: 0 <= i < |evidence| ==> evidence[i].id.Some? && evidence[i].cutoff.Some?
  }

  function DecodeEvidence(evidence: seq<RawEvidence>): seq<Evidence>
    requires WholeEvidence(evidence)
  {
    seq(|evidence|, i requires 0 <= i < |evidence| =>
      Evidence(evidence[i].id.value, evidence[i].cutoff.value, evidence[i].body))
  }

  /** The required data types, each of which a member's manifest names once. */
  const DATA_TYPES: seq<string> :=
    ["DAILY_MARKET", "MONEY_FLOW", "INSTITUTIONAL_ACTIVITY", "FINANCIAL_STATEMENTS"]

  /** `_legacy_data_manifest_payload`: everything complete, from the first evidence. */
  function ImpliedManifest(first: string): seq<ManifestEntry> {
    seq(|DATA_TYPES|, i requires 0 <= i < |DATA_TYPES| => ManifestEntry(DATA_TYPES[i], true, [first]))
  }

  /** `_legacy_structured_facts_payload`: zeros for the old features, their own values for the
      current ones. */
  function ImpliedFacts(signals: Option<RawSignals>): Option<Facts> {
    match signals
    case Some(OldSignals(_)) => Some(Facts(false, true, ""))
    case Some(CurrentSignals(present, text)) => Some(Facts(false, present, text))
    case _ => None
  }

  function DecodeFacts(mode: Mode, raw: RawMember): Option<Facts> {
    if raw.facts.None? then
      if mode == Legacy then ImpliedFacts(raw.signals) else None
    else
      var f := raw.facts.value;
      if f.moneyFlow.Some? then Some(Facts(f.moneyFlow.value, f.signalsPresent, f.body))
      else if mode == Historical then Some(Facts(false, f.signalsPresent, f.body))
      else None
  }

  /** The cutoff and the manifest, which only the oldest payloads may leave out. */
  function DecodeCutoff(mode: Mode, raw: RawMember): Option<string> {
    if raw.cutoff.None? && mode == Legacy && raw.evidence != [] then raw.evidence[0].cutoff else raw.cutoff
  }

  function DecodeManifest(mode: Mode, raw: RawMember): Option<seq<ManifestEntry>> {
    if raw.manifest.None? && mode == Legacy && raw.evidence != [] && raw.evidence[0].id.Some?
    then Some(ImpliedManifest(raw.evidence[0].id.value)) else raw.manifest
  }

  /** The three decoders: the current contract, `decode_historical_research_member_input` and
      `decode_legacy_research_member_input`. The latter two remember the payload. */
  function Decode(mode: Mode, raw: RawMember, admits: Admission): (r: Option<Member>)
    ensures r.Some? ==> r.value.evidence != [] && Distinct(r.value.EvidenceIds())
    ensures r.Some? ==> ManifestEvidence(r.value.manifest) == Set(r.value.EvidenceIds())
  {
    var cutoff, manifest, facts := DecodeCutoff(mode, raw), DecodeManifest(mode, raw), DecodeFacts(mode, raw);
    if raw.security.None? || raw.research.None? || !WholeEvidence(raw.evidence) || cutoff.None? || manifest.None? || facts.None?
    then None
    else
      var m := Member(raw.security.value, raw.research.value, DecodeEvidence(raw.evidence), manifest.value, facts.value,
                      cutoff.value, if raw.flags.Some? then raw.flags.value else [],
                      if mode == Current then Built else Decoded(mode, raw));
      if Distinct(m.EvidenceIds()) && ManifestEvidence(m.manifest) == Set(m.EvidenceIds()) && admits(mode, raw)
      then Some(m) else None
  }

  /** What every decoder demands of identities and evidence. */
  ghost predicate Identified(raw: RawMember) {
    && raw.security.Some? && raw.research.Some? && raw.evidence != []
    && (forall i :: 0 <= i < |raw.evidence| ==> raw.evidence[i].id.Some? && raw.evidence[i].cutoff.Some?)
    && (forall i, j :: 0 <= i < j < |raw.evidence| ==> raw.evidence[i].id != raw.evidence[j].id)
  }

  ghost predicate Names(manifest: seq<ManifestEntry>, x: string) {
    exists i :: 0 <= i < |manifest| && x in manifest[i].evidence
  }

  ghost predicate Delivers(evidence: seq<RawEvidence>, x: string) {
    exists i :: 0 <= i < |evidence| && evidence[i].id == Some(x)
  }

  /** The manifest names exactly the evidence. */
  ghost predicate Accounts(manifest: seq<ManifestEntry>, evidence: seq<RawEvidence>) {
    forall x :: Names(manifest, x) <==> Delivers(evidence, x)
  }

  lemma {:induction false} AccountsIff(m: Member, raw: RawMember)
    requires WholeEvidence(raw.evidence) && m.evidence == DecodeEvidence(raw.evidence)
    ensures ManifestEvidence(m.manifest) == Set(m.EvidenceIds()) <==> Accounts(m.manifest, raw.evidence)
    ensures Distinct(m.EvidenceIds()) <==>
      forall i, j :: 0 <= i < j < |raw.evidence| ==> raw.evidence[i].id != raw.evidence[j].id
  {
    var ids := m.EvidenceIds();
    assert forall i :: 0 <= i < |ids| ==> raw.evidence[i].id == Some(ids[i]);
    forall x
      ensures x in Set(ids) <==> Delivers(raw.evidence, x)
      ensures x in ManifestEvidence(m.manifest) <==> Names(m.manifest, x)
    {
      if i :| 0 <= i < |raw.evidence| && raw.evidence[i].id == Some(x) {
        assert ids[i] == x;
      }
    }
  }

  lemma {:induction false} ImpliedAccountsIff(raw: RawMember)
    requires WholeEvidence(raw.evidence)
    requires forall i, j :: 0 <= i < j < |raw.evidence| ==> raw.evidence[i].id != raw.evidence[j].id
    ensures Accounts(ImpliedManifest(raw.evidence[0].id.value), raw.evidence) <==> |raw.evidence| == 1
  {
    var first := raw.evidence[0].id.value;
    var manifest := ImpliedManifest(first);
    forall x
      ensures Names(manifest, x) <==> x == first
    {
      assert manifest[0].evidence == [first];
      assert x == first ==> x in manifest[0].evidence;
    }
    assert Delivers(raw.evidence, first);
    if |raw.evidence| > 1 {
      assert Delivers(raw.evidence, raw.evidence[1].id.value);
    }
  }

  /** When a payload decodes. The current contract needs every key but signals and flags; the
      historical one may also leave out the money flow; the legacy one may leave out the cutoff, the
      facts if its signals imply them, and the manifest if there is one piece of evidence. */
  lemma {:induction false} DecodesIff(mode: Mode, raw: RawMember, admits: Admission)
    ensures Decode(mode, raw, admits).Some? <==>
      && Identified(raw) && admits(mode, raw)
      && (mode == Legacy || raw.cutoff.Some?)
      && (if raw.manifest.Some? then Accounts(raw.manifest.value, raw.evidence) else mode == Legacy && |raw.evidence| == 1)
      && (if raw.facts.Some? then mode == Historical || raw.facts.value.moneyFlow.Some?
          else mode == Legacy && raw.signals.Some? && !raw.signals.value.OtherSignals?)
  {
    hide Accounts;
    if WholeEvidence(raw.evidence) && DecodeManifest(mode, raw).Some? {
      var m := Member("", "", DecodeEvidence(raw.evidence), DecodeManifest(mode, raw).value, Facts(false, false, ""), "", [], Built);
      AccountsIff(m, raw);
      if raw.manifest.None? && (forall i, j :: 0 <= i < j < |raw.evidence| ==> raw.evidence[i].id != raw.evidence[j].id) {
        ImpliedAccountsIff(raw);
      }
      SameIds(mode, raw, admits, m);
    }
  }

  lemma {:induction false} SameIds(mode: Mode, raw: RawMember, admits: Admission, m: Member)
    requires WholeEvidence(raw.evidence) && DecodeManifest(mode, raw).Some?
    requires m.evidence == DecodeEvidence(raw.evidence) && m.manifest == DecodeManifest(mode, raw).value
    ensures Decode(mode, raw, admits).Some? <==>
      && raw.security.Some? && raw.research.Some? && DecodeCutoff(mode, raw).Some? && DecodeFacts(mode, raw).Some?
      && Distinct(m.EvidenceIds()) && ManifestEvidence(m.manifest) == Set(m.EvidenceIds()) && admits(mode, raw)
  {
    hide DecodeCutoff, DecodeManifest, DecodeFacts, ManifestEvidence, Distinct;
    if raw.security.Some? && raw.research.Some? && DecodeCutoff(mode, raw).Some? && DecodeFacts(mode, raw).Some? {
      var n := Member(raw.security.value, raw.research.value, DecodeEvidence(raw.evidence), m.manifest,
                      DecodeFacts(mode, raw).value, DecodeCutoff(mode, raw).value,
                      if raw.flags.Some? then raw.flags.value else [],
                      if mode == Current then Built else Decoded(mode, raw));
      assert n.EvidenceIds() == m.EvidenceIds();
    }
  }

  function DumpEvidence(e: Evidence): RawEvidence {
    RawEvidence(Some(e.id), Some(e.cutoff), e.body)
  }

  /** What a payload decodes to: every key that is there, as it is; the cutoff of the first evidence,
      complete data and no flags where they are not; an unknown money flow as incomplete; and, but
      for the current contract, the payload itself. */
  lemma {:induction false} DecodesTo(mode: Mode, raw: RawMember, admits: Admission)
    requires Decode(mode, raw, admits).Some?
    ensures var m := Decode(mode, raw, admits).value;
      && m.security == raw.security.value && m.research == raw.research.value
      && |m.evidence| == |raw.evidence|
      && (forall i :: 0 <= i < |raw.evidence| ==> DumpEvidence(m.evidence[i]) == raw.evidence[i])
      && m.cutoff == (if raw.cutoff.Some? then raw.cutoff.value else raw.evidence[0].cutoff.value)
      && m.flags == (if raw.flags.Some? then raw.flags.value else [])
      && (raw.manifest.Some? ==> m.manifest == raw.manifest.value)
      && (raw.manifest.None? ==> forall i :: 0 <= i < |m.manifest| ==> m.manifest[i].complete)
      && (raw.facts.Some? ==> m.facts == Facts(raw.facts.value.moneyFlow == Some(true), raw.facts.value.signalsPresent, raw.facts.value.body))
      && (raw.facts.None? ==>
            && !m.facts.moneyFlowComplete
            && (m.facts.signalsPresent <==> raw.signals.value.OldSignals? || raw.signals.value.present))
      && m.origin == (if mode == Current then Built else Decoded(mode, raw))
  {
    hide ManifestEvidence, Distinct;
  }

  // ---- context items --------------------------------------------------------------------------

  datatype Stage = Collect | Analyze | BullBear | Draft

  datatype Artifact = Artifact(
    stage: Stage, source: Stage, inputs: seq<string>, securities: seq<string>, evidence: seq<string>)

  datatype Content = NotJson | MemberJson(raw: RawMember) | ArtifactJson(artifact: Artifact)

  datatype Item = Item(id: string, content: Content, required: bool, sourceStage: Option<Stage>)

  function DumpFacts(f: Facts): RawFacts {
    RawFacts(Some(f.moneyFlowComplete), f.signalsPresent, f.body)
  }

  function DumpSignals(f: Facts): RawSignals {
    CurrentSignals(f.signalsPresent, f.body)
  }

  /** The JSON of a member with every key. */
  function Dump(m: Member): RawMember {
    RawMember(Some(m.security), Some(m.research),
              seq(|m.evidence|, i requires 0 <= i < |m.evidence| => DumpEvidence(m.evidence[i])),
              Some(DumpSignals(m.facts)), Some(m.flags), Some(m.cutoff), Some(m.manifest), Some(DumpFacts(m.facts)))
  }

  function Payload(m: Member): RawMember {
    if m.origin.Decoded? then m.origin.persisted else Dump(m)
  }

  function FactId(security: string): string {
    "required-facts:" + security
  }

  function ItemOf(m: Member): Item {
    Item(FactId(m.security), MemberJson(Payload(m)), true, None)
  }

  /** `_research_context_items`: the persisted payloads themselves. */
  function ItemsOf(members: seq<Member>): seq<Item> {
    seq(|members|, i requires 0 <= i < |members| => ItemOf(members[i]))
  }

  /** The dictionary of persisted evidence by identity: the last entry wins. */
  function EvidenceById(evidence: seq<RawEvidence>, id: string): Option<RawEvidence> {
    if evidence == [] then None
    else
      var last := evidence[|evidence| - 1];
      if last.id == Some(id) then Some(last) else EvidenceById(evidence[..|evidence| - 1], id)
  }

  function LegacyEvidence(m: Member, i: nat): RawEvidence
    requires i < |m.evidence|
  {
    var saved := EvidenceById(Payload(m).evidence, m.evidence[i].id);
    if saved.Some? then saved.value else DumpEvidence(m.evidence[i])
  }

  /** The payload that `_legacy_research_context_items` rebuilds key by key: signals and flags
      always, cutoff and facts exactly when there is a manifest. */
  function LegacyPayload(m: Member): RawMember {
    var saved := Payload(m);
    var known := saved.manifest.Some?;
    RawMember(Some(m.security), Some(m.research),
              seq(|m.evidence|, i requires 0 <= i < |m.evidence| => LegacyEvidence(m, i)),
              if saved.signals.Some? then saved.signals else Some(DumpSignals(m.facts)),
              if saved.flags.Some? then saved.flags else Some(m.flags),
              if !known then None else if saved.cutoff.Some? then saved.cutoff else Some(m.cutoff),
              saved.manifest,
              if !known then None else if saved.facts.Some? then saved.facts else Some(DumpFacts(m.facts)))
  }

  function LegacyId(m: Member): string {
    "required-fact:" + m.security + ":" + if m.evidence == [] then "" else m.evidence[0].id
  }

  function LegacyItems(members: seq<Member>): seq<Item> {
    seq(|members|, i requires 0 <= i < |members| =>
      Item(LegacyId(members[i]), MemberJson(LegacyPayload(members[i])), true, None))
  }

  // ---- validation -----------------------------------------------------------------------------

  datatype Reason =
    | MemberCoverage | Availability | MalformedItem | Provenance | EvidenceCoverage
    | IncompleteData | MoneyFlow | StructuredSignals | SecurityCoverage

  /** The member that the dictionary by security holds: the last one. */
  function Lookup(expected: seq<Member>, security: string): Option<Member> {
    if expected == [] then None
    else if expected[|expected| - 1].security == security then Some(expected[|expected| - 1])
    else Lookup(expected[..|expected| - 1], security)
  }

  /** The first check that one item fails. */
  function ItemFailure(item: Item, expected: seq<Member>, mode: Mode, admits: Admission): Option<Reason> {
    if !item.required then Some(Availability)
    else if !item.content.MemberJson? || Decode(mode, item.content.raw, admits).None? then Some(MalformedItem)
    else
      var m := Decode(mode, item.content.raw, admits).value;
      if Lookup(expected, m.security) != Some(m) then Some(Provenance)
      else if ManifestEvidence(m.manifest) != Set(m.EvidenceIds()) then Some(EvidenceCoverage)
      else if exists i :: 0 <= i < |m.manifest| && !m.manifest[i].complete then Some(IncompleteData)
      else if mode == Current && !m.facts.moneyFlowComplete then Some(MoneyFlow)
      else if !m.facts.signalsPresent then Some(StructuredSignals)
      else None
  }

  /** The reason for which an item is refused: that of the first failing check, in the order of the
      checks. */
  lemma {:induction false} RefusedFor(item: Item, expected: seq<Member>, mode: Mode, admits: Admission)
    ensures var failure := ItemFailure(item, expected, mode, admits);
      && (failure == Some(Availability) <==> !item.required)
      && (failure == Some(MalformedItem) <==>
            item.required && (item.content.MemberJson? ==> Decode(mode, item.content.raw, admits).None?))
      && failure != Some(EvidenceCoverage) && failure != Some(MemberCoverage) && failure != Some(SecurityCoverage)
      && (item.required && item.content.MemberJson? && Decode(mode, item.content.raw, admits).Some? ==>
            var m := Decode(mode, item.content.raw, admits).value;
            var known := Lookup(expected, m.security) == Some(m);
            var complete := forall i :: 0 <= i < |m.manifest| ==> m.manifest[i].complete;
            var flow := mode != Current || m.facts.moneyFlowComplete;
            && (failure == Some(Provenance) <==> !known)
            && (failure == Some(IncompleteData) <==> known && !complete)
            && (failure == Some(MoneyFlow) <==> known && complete && !flow)
            && (failure == Some(StructuredSignals) <==> known && complete && flow && !m.facts.signalsPresent)
            && (failure.None? <==> known && complete && flow && m.facts.signalsPresent))
  {
    hide Lookup, ManifestEvidence;
    if item.required && item.content.MemberJson? && Decode(mode, item.content.raw, admits).Some? {
      DecodeAccounts(mode, item.content.raw, admits);
      hide Decode;
    }
  }

  lemma {:induction false} DecodeAccounts(mode: Mode, raw: RawMember, admits: Admission)
    requires Decode(mode, raw, admits).Some?
    ensures var m := Decode(mode, raw, admits).value; ManifestEvidence(m.manifest) == Set(m.EvidenceIds())
  {
  }

  function FirstFailure(items: seq<Item>, expected: seq<Member>, mode: Mode, admits: Admission): Option<Reason> {
    if items == [] then None
    else
      var earlier := FirstFailure(items[..|items| - 1], expected, mode, admits);
      if earlier.Some? then earlier else ItemFailure(items[|items| - 1], expected, mode, admits)
  }

  function SecurityOf(item: Item): string {
    if item.content.MemberJson? && item.content.raw.security.Some? then item.content.raw.security.value else ""
  }

  function ItemSecurities(items: seq<Item>): seq<string> {
    seq(|items|, i requires 0 <= i < |items| => SecurityOf(items[i]))
  }

  /** `_validate_research_context_items`: nothing when every member's manifest will be delivered. */
  function Validation(items: seq<Item>, expected: seq<Member>, mode: Mode, admits: Admission): Option<Reason> {
    if |items| != |expected| then Some(MemberCoverage)
    else if FirstFailure(items, expected, mode, admits).Some? then FirstFailure(items, expected, mode, admits)
    else if ItemSecurities(items) != MemberSecurities(expected) then Some(SecurityCoverage)
    else None
  }

  method ValidateContextItems(items: seq<Item>, expected: seq<Member>, mode: Mode, admits: Admission)
    returns (r: Option<Reason>)
    ensures r == Validation(items, expected, mode, admits)
  {
    if |items| != |expected| {
      return Some(MemberCoverage);
    }
    var actual: seq<string> := [];
    for i := 0 to |items|
      invariant FirstFailure(items[..i], expected, mode, admits).None?
      invariant actual == ItemSecurities(items[..i])
    {
      assert items[..i + 1][..i] == items[..i];
      var failure := ItemFailure(items[i], expected, mode, admits);
      if failure.Some? {
        FailureIsFinal(items, i + 1, expected, mode, admits);
        return failure;
      }
      actual := actual + [SecurityOf(items[i])];
    }
    assert items[..|items|] == items;
    if actual != MemberSecurities(expected) {
      return Some(SecurityCoverage);
    }
    return None;
  }

  lemma {:induction false} FailureIsFinal(items: seq<Item>, n: nat, expected: seq<Member>, mode: Mode, admits: Admission)
    requires n <= |items|
    requires FirstFailure(items[..n], expected, mode, admits).Some?
    ensures FirstFailure(items, expected, mode, admits) == FirstFailure(items[..n], expected, mode, admits)
    decreases |items|
  {
    if n < |items| {
      var init := items[..|items| - 1];
      assert init[..n] == items[..n];
      FailureIsFinal(init, n, expected, mode, admits);
    } else {
      assert items[..n] == items;
    }
  }

  lemma {:induction false} NoFailureIff(items: seq<Item>, expected: seq<Member>, mode: Mode, admits: Admission)
    ensures FirstFailure(items, expected, mode, admits).None? <==>
      forall i :: 0 <= i < |items| ==> ItemFailure(items[i], expected, mode, admits).None?
    decreases |items|
  {
    hide ItemFailure;
    if items != [] {
      var init := items[..|items| - 1];
      NoFailureIff(init, expected, mode, admits);
      assert forall i :: 0 <= i < |init| ==> init[i] == items[i];
      if forall i :: 0 <= i < |init| ==> ItemFailure(init[i], expected, mode, admits).None? {
        assert forall i :: 0 <= i < |init| ==> ItemFailure(items[i], expected, mode, admits).None?;
      }
    }
  }

  lemma {:induction false} LookupFinds(expected: seq<Member>, security: string)
    ensures Lookup(expected, security).Some? ==>
      Lookup(expected, security).value in expected && Lookup(expected, security).value.security == security
  {
    if expected != [] && expected[|expected| - 1].security != security {
      LookupFinds(expected[..|expected| - 1], security);
    }
  }

  lemma {:induction false} LookupOfDistinct(expected: seq<Member>, i: nat)
    requires Distinct(MemberSecurities(expected))
    requires i < |expected|
    ensures Lookup(expected, expected[i].security) == Some(expected[i])
    decreases |expected|
  {
    var init, securities := expected[..|expected| - 1], MemberSecurities(expected);
    if i < |init| {
      assert securities[i] != securities[|init|];
      assert MemberSecurities(init) == securities[..|init|];
      LookupOfDistinct(init, i);
    }
  }

  /** Whether nothing that the model must see is missing from a member. */
  predicate Complete(mode: Mode, m: Member) {
    && (forall i :: 0 <= i < |m.manifest| ==> m.manifest[i].complete)
    && (mode == Current ==> m.facts.moneyFlowComplete)
    && m.facts.signalsPresent
  }

  /** A list of required items, one per expected member, under the members' own securities. */
  ghost predicate Lists(items: seq<Item>, expected: seq<Member>) {
    && |items| == |expected|
    && forall i :: 0 <= i < |items| ==>
         items[i].required && items[i].content.MemberJson? && items[i].content.raw.security == Some(expected[i].security)
  }

  /** Validation passes exactly when each item decodes to its own member, private attributes
      included, and that member is complete. */
  lemma {:induction false} ValidationPassesIff(items: seq<Item>, expected: seq<Member>, mode: Mode, admits: Admission)
    requires Lists(items, expected) && Distinct(MemberSecurities(expected))
    ensures Validation(items, expected, mode, admits).None? <==>
      forall i :: 0 <= i < |expected| ==>
        Decode(mode, items[i].content.raw, admits) == Some(expected[i]) && Complete(mode, expected[i])
  {
    hide Lookup, Decode;
    NoFailureIff(items, expected, mode, admits);
    assert ItemSecurities(items) == MemberSecurities(expected);
    forall i | 0 <= i < |expected|
      ensures ItemFailure(items[i], expected, mode, admits).None? <==>
        Decode(mode, items[i].content.raw, admits) == Some(expected[i]) && Complete(mode, expected[i])
    {
      LookupOfDistinct(expected, i);
      DecodeKeepsSecurity(mode, items[i].content.raw, admits);
    }
  }

  lemma {:induction false} DecodeKeepsSecurity(mode: Mode, raw: RawMember, admits: Admission)
    ensures Decode(mode, raw, admits).Some? ==> raw.security == Some(Decode(mode, raw, admits).value.security)
  {
  }

  // ---- commands -------------------------------------------------------------------------------

  datatype Command = Command(members: seq<Member>, failsData: bool)

  /** A member that its own payload decodes to, as the decoder of its command's mode left it. */
  predicate Genuine(mode: Mode, m: Member, admits: Admission) {
    Decode(mode, Payload(m), admits) == Some(m)
  }

  /** `validate_fixed_ten_contract`, on the identities. */
  predicate FixedTen(c: Command) {
    && |c.members| == 10
    && Distinct(MemberSecurities(c.members))
    && Distinct(MemberResearchIds(c.members))
    && Distinct(AllEvidenceIds(c.members))
  }

  /** A built member survives its own JSON under the current contract. */
  lemma {:induction false} BuiltIsGenuine(m: Member, admits: Admission)
    requires m.origin == Built && admits(Current, Dump(m))
    requires m.evidence != [] && Distinct(m.EvidenceIds()) && ManifestEvidence(m.manifest) == Set(m.EvidenceIds())
    ensures Genuine(Current, m, admits)
  {
    assert DecodeEvidence(Dump(m).evidence) == m.evidence;
  }

  lemma {:induction false} OwnItemsAreListed(members: seq<Member>, mode: Mode, admits: Admission)
    requires forall i :: 0 <= i < |members| ==> Genuine(mode, members[i], admits)
    ensures Lists(ItemsOf(members), members)
  {
    hide Decode;
    forall i | 0 <= i < |members|
      ensures Payload(members[i]).security == Some(members[i].security)
    {
      DecodeKeepsSecurity(mode, Payload(members[i]), admits);
    }
  }
}
