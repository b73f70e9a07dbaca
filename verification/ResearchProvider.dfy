/** The staged research context provider. It keeps no state of its own between calls: each call
    derives the active stage and its input from the durable checkpoints. */
module ResearchProvider {
  import opened Outcomes
  import opened OrderedSets
  import opened ResearchFacts

  const STAGES: seq<Stage> := [Collect, Analyze, BullBear, Draft]

  /** A context checkpoint; other step types and unknown stages have no stage. */
  datatype Checkpoint = Checkpoint(stage: Option<Stage>, boundary: int, outputs: seq<Item>)

  datatype Reply =
    | Delivered(items: seq<Item>) | DataUnavailable | FactsIncomplete(reason: Reason)
    | InputUnavailable | InputInvalid | ArtifactRejected

  // ---- coverage ----------------------------------------------------------------------------------

  /** What the stage loop adds to its two lists for one item; nothing for malformed JSON. */
  function Securities(item: Item): seq<string> {
    match item.content
    case NotJson => []
    case MemberJson(raw) => if raw.security.Some? then [raw.security.value] else []
    case ArtifactJson(a) => a.securities
  }

  function EvidenceTexts(evidence: seq<RawEvidence>): seq<string> {
    if evidence == [] then []
    else
      var last := evidence[|evidence| - 1].id;
      EvidenceTexts(evidence[..|evidence| - 1]) + if last.Some? then [last.value] else []
  }

  function EvidenceOf(item: Item): seq<string> {
    match item.content
    case NotJson => []
    case MemberJson(raw) => EvidenceTexts(raw.evidence)
    case ArtifactJson(a) => a.evidence
  }

  function AllSecurities(items: seq<Item>): seq<string> {
    if items == [] then [] else AllSecurities(items[..|items| - 1]) + Securities(items[|items| - 1])
  }

  function AllEvidence(items: seq<Item>): seq<string> {
    if items == [] then [] else AllEvidence(items[..|items| - 1]) + EvidenceOf(items[|items| - 1])
  }

  predicate Readable(items: seq<Item>) {
    forall i :: 0 <= i < |items| ==> !items[i].content.NotJson?
  }

  /** The accumulating loop of `provide`. */
  method ReadInputs(items: seq<Item>) returns (r: Option<(seq<string>, seq<string>)>)
    ensures r == if Readable(items) then Some((AllSecurities(items), AllEvidence(items))) else None
  {
    var securities: seq<string>, evidence: seq<string> := [], [];
    for i := 0 to |items|
      invariant Readable(items[..i])
      invariant securities == AllSecurities(items[..i]) && evidence == AllEvidence(items[..i])
    {
      assert items[..i + 1][..i] == items[..i];
      if items[i].content.NotJson? {
        return None;
      }
      securities := securities + Securities(items[i]);
      evidence := evidence + EvidenceOf(items[i]);
    }
    assert items[..|items|] == items;
    r := Some((securities, evidence));
  }

  /** The outputs carry exactly the members' identities. */
  ghost predicate Carries(items: seq<Item>, members: seq<Member>) {
    && Readable(items)
    && Set(AllSecurities(items)) == Set(MemberSecurities(members))
    && Set(AllEvidence(items)) == MemberEvidence(members)
  }

  // ---- one call ---------------------------------------------------------------------------------------

  predicate Completed(checkpoints: seq<Checkpoint>, stage: Stage) {
    exists i :: 0 <= i < |checkpoints| && checkpoints[i].stage == Some(stage)
  }

  /** Index of the first incomplete stage. */
  function Active(checkpoints: seq<Checkpoint>): (n: nat)
    ensures n <= 4
    ensures forall i :: 0 <= i < n ==> Completed(checkpoints, STAGES[i])
    ensures n < 4 ==> !Completed(checkpoints, STAGES[n])
  {
    if !Completed(checkpoints, Collect) then 0
    else if !Completed(checkpoints, Analyze) then 1
    else if !Completed(checkpoints, BullBear) then 2
    else if !Completed(checkpoints, Draft) then 3
    else 4
  }

  /** The checkpoint of a completed stage with the greatest boundary, the first among equals. */
  function Newest(checkpoints: seq<Checkpoint>, stage: Stage): (c: Checkpoint)
    requires Completed(checkpoints, stage)
    ensures c in checkpoints && c.stage == Some(stage)
    ensures forall d :: d in checkpoints && d.stage == Some(stage) ==> d.boundary <= c.boundary
  {
    var init, last := checkpoints[..|checkpoints| - 1], checkpoints[|checkpoints| - 1];
    assert checkpoints == init + [last];
    if !Completed(init, stage) then
      assert forall d :: d in init ==> d.stage != Some(stage);
      last
    else
      var best := Newest(init, stage);
      if last.stage == Some(stage) && best.boundary < last.boundary then last else best
  }

  function StageText(stage: Stage): string {
    match stage
    case Collect => "collect"
    case Analyze => "analyze"
    case BullBear => "bull-bear"
    case Draft => "draft"
  }

  function OutputId(stage: Stage): string {
    "research-stage-output:" + StageText(stage) + ":0"
  }

  function ItemIds(items: seq<Item>): seq<string> {
    seq(|items|, i requires 0 <= i < |items| => items[i].id)
  }

  /** The later stages: read the previous stage's outputs and wrap them in one artifact, whose
      contract demands distinct input identities. */
  function NextStage(previous: Checkpoint, source: Stage, stage: Stage): (r: Reply)
    ensures !r.DataUnavailable? && !r.FactsIncomplete?
  {
    var outputs := previous.outputs;
    if outputs == [] then InputUnavailable
    else if !Readable(outputs) then InputInvalid
    else if AllSecurities(outputs) == [] || AllEvidence(outputs) == [] then InputUnavailable
    else if !Distinct(ItemIds(outputs)) then ArtifactRejected
    else
      var artifact := Artifact(stage, source, ItemIds(outputs),
                               Dedup(AllSecurities(outputs)), Dedup(AllEvidence(outputs)));
      Delivered([Item(OutputId(stage), ArtifactJson(artifact), false, Some(source))])
  }

  /** When a later stage delivers, and how it fails otherwise, whatever its input holds. */
  lemma {:induction false} NextStageIs(previous: Checkpoint, source: Stage, stage: Stage)
    ensures var reply := NextStage(previous, source, stage); var outputs := previous.outputs;
      var covered := AllSecurities(outputs) != [] && AllEvidence(outputs) != [];
      && (reply == InputInvalid <==> exists i :: 0 <= i < |outputs| && outputs[i].content.NotJson?)
      && (reply == InputUnavailable <==> Readable(outputs) && !covered)
      && (reply == ArtifactRejected <==> Readable(outputs) && covered && !Distinct(ItemIds(outputs)))
      && (reply.Delivered? <==> Readable(outputs) && covered && Distinct(ItemIds(outputs)))
      && (reply.Delivered? ==>
            && |reply.items| == 1 && reply.items[0].content.ArtifactJson?
            && var a := reply.items[0].content.artifact;
            && (a.stage, a.source) == (stage, source) && reply.items[0].sourceStage == Some(source)
            && reply.items[0].id == OutputId(stage)
            && a.inputs == ItemIds(outputs)
            && Set(a.securities) == Set(AllSecurities(outputs)) && Distinct(a.securities)
            && Set(a.evidence) == Set(AllEvidence(outputs)) && Distinct(a.evidence))
  {
    hide Dedup;
    assert Readable(previous.outputs) <==> !exists i :: 0 <= i < |previous.outputs| && previous.outputs[i].content.NotJson?;
  }

  /** What a definition fixes for its provider: the items it delivers, the items that a recovery
      replays, the members it expects, and whether it is given the run store. */
  datatype Provider = Provider(
    items: seq<Item>, replayed: seq<Item>, expected: seq<Member>, mode: Mode, failsData: bool, staged: bool,
    admits: Admission)
  {
    function Failure(): Option<Reason> {
      Validation(items, expected, mode, admits)
    }
  }

  /** `_FrozenResearchContextProvider.provide` against the durable checkpoints; without the run
      store every call delivers the validated items. */
  function Provide(p: Provider, checkpoints: seq<Checkpoint>): Reply {
    var n := Active(checkpoints);
    if p.failsData then DataUnavailable
    else if !p.staged || n == 0 then
      if p.Failure().Some? then FactsIncomplete(p.Failure().value) else Delivered(p.items)
    else if n == 4 then Delivered([])
    else NextStage(Newest(checkpoints, STAGES[n - 1]), STAGES[n - 1], STAGES[n])
  }

  datatype Code = ResearchDataUnavailable | RequiredFactsIncomplete

  /** The code that one call sets on the live provider. */
  function LiveCode(p: Provider, checkpoints: seq<Checkpoint>): Option<Code> {
    var reply := Provide(p, checkpoints);
    if reply.DataUnavailable? then Some(ResearchDataUnavailable)
    else if reply.FactsIncomplete? then Some(RequiredFactsIncomplete)
    else None
  }

  /** The provider object: the definition's constants and the code that its last failing call set. */
  class ContextProvider {
    const p: Provider
    var failureCode: Option<Code>

    constructor (p: Provider)
      ensures this.p == p && failureCode == None
    {
      this.p := p;
      failureCode := None;
    }

    method ProvideItems(checkpoints: seq<Checkpoint>) returns (reply: Reply)
      modifies this
      ensures reply == Provide(p, checkpoints)
      ensures failureCode == if LiveCode(p, checkpoints).Some? then LiveCode(p, checkpoints) else old(failureCode)
    {
      if p.failsData {
        failureCode := Some(ResearchDataUnavailable);
        return DataUnavailable;
      }
      var n := Active(checkpoints);
      if !p.staged || n == 0 {
        var failure := ValidateContextItems(p.items, p.expected, p.mode, p.admits);
        if failure.Some? {
          failureCode := Some(RequiredFactsIncomplete);
          return FactsIncomplete(failure.value);
        }
        return Delivered(p.items);
      }
      if n == 4 {
        return Delivered([]);
      }
      var previous := Newest(checkpoints, STAGES[n - 1]);
      if previous.outputs == [] {
        return InputUnavailable;
      }
      var inputs := ReadInputs(previous.outputs);
      if inputs.None? {
        return InputInvalid;
      }
      var (securities, evidence) := inputs.value;
      if securities == [] || evidence == [] {
        return InputUnavailable;
      }
      if !Distinct(ItemIds(previous.outputs)) {
        return ArtifactRejected;
      }
      var artifact := Artifact(STAGES[n], STAGES[n - 1], ItemIds(previous.outputs), Dedup(securities), Dedup(evidence));
      return Delivered([Item(OutputId(STAGES[n]), ArtifactJson(artifact), false, Some(STAGES[n - 1]))]);
    }
  }

  // ---- runs ---------------------------------------------------------------------------------------------

  /** Some provider, in this process or an earlier one, was asked when the run had `seen`
      checkpoints, and the framework saved its answer at `boundary`; or some other step was saved. */
  datatype Event = Saved(seen: nat, boundary: int) | OtherStep(boundary: int)

  function Advance(p: Provider, checkpoints: seq<Checkpoint>, e: Event): seq<Checkpoint> {
    match e
    case OtherStep(boundary) => checkpoints + [Checkpoint(None, boundary, [])]
    case Saved(seen, boundary) =>
      var view := if seen <= |checkpoints| then checkpoints[..seen] else checkpoints;
      var n, reply := Active(view), Provide(p, view);
      if n == 4 || !reply.Delivered? then checkpoints
      else checkpoints + [Checkpoint(Some(STAGES[n]), boundary, reply.items)]
  }

  function Run(p: Provider, checkpoints: seq<Checkpoint>, events: seq<Event>): seq<Checkpoint>
    decreases |events|
  {
    if events == [] then checkpoints else Run(p, Advance(p, checkpoints, events[0]), events[1..])
  }

  /** No stage is saved for a provider whose facts do not validate. */
  ghost predicate ValidIfSaved(p: Provider, checkpoints: seq<Checkpoint>) {
    forall i :: 0 <= i < |checkpoints| && checkpoints[i].stage.Some? ==> !p.failsData && p.Failure().None?
  }

  lemma {:induction false} SavedMeansValid(p: Provider, checkpoints: seq<Checkpoint>, events: seq<Event>)
    requires p.staged && ValidIfSaved(p, checkpoints)
    ensures ValidIfSaved(p, Run(p, checkpoints, events))
    decreases |events|
  {
    if events != [] {
      AdvanceMeansValid(p, checkpoints, events[0]);
      SavedMeansValid(p, Advance(p, checkpoints, events[0]), events[1..]);
    }
  }

  lemma {:induction false} AdvanceMeansValid(p: Provider, checkpoints: seq<Checkpoint>, e: Event)
    requires p.staged && ValidIfSaved(p, checkpoints)
    ensures ValidIfSaved(p, Advance(p, checkpoints, e))
  {
    hide Validation, NextStage;
    if e.Saved? {
      var view := if e.seen <= |checkpoints| then checkpoints[..e.seen] else checkpoints;
      if Active(view) > 0 {
        assert Completed(view, STAGES[0]);
        var i :| 0 <= i < |view| && view[i].stage == Some(Collect);
        assert checkpoints[i] == view[i];
      }
    }
  }

  /** A saved stage output: the validated facts, or one artifact over exactly their identities. */
  ghost predicate GoodOutput(p: Provider, c: Checkpoint) {
    c.stage.Some? ==>
      && !p.failsData && p.Failure().None?
      && Carries(c.outputs, p.expected)
      && match c.stage.value
         case Collect => c.outputs == p.items
         case stage => ArtifactOutput(p, c.outputs, stage)
  }

  function Source(stage: Stage): Stage
    requires stage != Collect
  {
    if stage == Analyze then Collect else if stage == BullBear then Analyze else BullBear
  }

  /** The single item of a later stage, built over the stage before it; there is a member then. */
  ghost predicate ArtifactOutput(p: Provider, outputs: seq<Item>, stage: Stage)
    requires stage != Collect
  {
    && p.expected != []
    && |outputs| == 1
    && outputs[0].id == OutputId(stage)
    && outputs[0].content.ArtifactJson?
    && outputs[0].sourceStage == Some(Source(stage))
    && var a := outputs[0].content.artifact;
    && a.stage == stage && a.source == Source(stage)
    && a.inputs == if stage == Analyze then ItemIds(p.items) else [OutputId(Source(stage))]
  }

  /** Every saved output is good, and a completed stage has completed predecessors. */
  ghost predicate Inv(p: Provider, checkpoints: seq<Checkpoint>) {
    && (forall i :: 0 <= i < |checkpoints| ==> GoodOutput(p, checkpoints[i]))
    && (Completed(checkpoints, Analyze) ==> Completed(checkpoints, Collect))
    && (Completed(checkpoints, BullBear) ==> Completed(checkpoints, Analyze))
    && (Completed(checkpoints, Draft) ==> Completed(checkpoints, BullBear))
  }

  lemma {:induction false} EmptyIsGood(p: Provider)
    ensures Inv(p, [])
  {
  }

  lemma {:induction false} DecodedTexts(raw: RawMember, mode: Mode, admits: Admission)
    requires Decode(mode, raw, admits).Some?
    ensures EvidenceTexts(raw.evidence) == Decode(mode, raw, admits).value.EvidenceIds()
  {
    TextsOf(raw.evidence);
  }

  lemma {:induction false} TextsOf(evidence: seq<RawEvidence>)
    requires forall i :: 0 <= i < |evidence| ==> evidence[i].id.Some?
    ensures EvidenceTexts(evidence) == seq(|evidence|, i requires 0 <= i < |evidence| => evidence[i].id.value)
  {
    if evidence != [] {
      TextsOf(evidence[..|evidence| - 1]);
    }
  }

  /** A validated item carries the identities of the member that its security looks up. */
  lemma {:induction false} ItemCarries(p: Provider, i: nat)
    requires p.Failure().None?
    requires i < |p.items|
    ensures |p.items| == |p.expected|
    ensures p.items[i].content.MemberJson?
    ensures var m := Lookup(p.expected, p.expected[i].security);
      && m.Some? && Decode(p.mode, p.items[i].content.raw, p.admits) == m
      && Securities(p.items[i]) == [p.expected[i].security]
      && EvidenceOf(p.items[i]) == m.value.EvidenceIds() != []
  {
    hide Decode, Lookup;
    NoFailureIff(p.items, p.expected, p.mode, p.admits);
    assert ItemSecurities(p.items)[i] == MemberSecurities(p.expected)[i];
    var raw := p.items[i].content.raw;
    DecodeKeepsSecurity(p.mode, raw, p.admits);
    DecodedTexts(raw, p.mode, p.admits);
  }

  lemma {:induction false} InAllSecurities(items: seq<Item>, x: string)
    ensures x in AllSecurities(items) <==> exists i :: 0 <= i < |items| && x in Securities(items[i])
  {
    if items != [] {
      var init := items[..|items| - 1];
      InAllSecurities(init, x);
      assert forall i :: 0 <= i < |init| ==> init[i] == items[i];
      if exists i :: 0 <= i < |init| && x in Securities(init[i]) {
        var i :| 0 <= i < |init| && x in Securities(init[i]);
        assert x in Securities(items[i]);
      }
    }
  }

  lemma {:induction false} InAllEvidence(items: seq<Item>, x: string)
    ensures x in AllEvidence(items) <==> exists i :: 0 <= i < |items| && x in EvidenceOf(items[i])
  {
    if items != [] {
      var init := items[..|items| - 1];
      InAllEvidence(init, x);
      assert forall i :: 0 <= i < |init| ==> init[i] == items[i];
      if exists i :: 0 <= i < |init| && x in EvidenceOf(init[i]) {
        var i :| 0 <= i < |init| && x in EvidenceOf(init[i]);
        assert x in EvidenceOf(items[i]);
      }
    }
  }

  /** Every expected member is the one its security looks up: validation compares each delivered
      member with the dictionary entry, and the delivered securities are the expected ones. */
  ghost predicate OnePerSecurity(expected: seq<Member>) {
    forall i :: 0 <= i < |expected| ==> Lookup(expected, expected[i].security) == Some(expected[i])
  }

  /** Validated facts carry exactly the expected identities. */
  lemma {:induction false} FactsCarry(p: Provider)
    requires p.Failure().None?
    requires OnePerSecurity(p.expected)
    ensures Carries(p.items, p.expected)
  {
    hide Validation, Lookup, Decode;
    forall i | 0 <= i < |p.items|
      ensures |p.items| == |p.expected| && !p.items[i].content.NotJson?
      ensures Securities(p.items[i]) == [MemberSecurities(p.expected)[i]]
      ensures EvidenceOf(p.items[i]) == p.expected[i].EvidenceIds()
    {
      ItemCarries(p, i);
    }
    assert |p.items| == |p.expected| by { SameLength(p); }
    forall x
      ensures x in AllSecurities(p.items) <==> x in MemberSecurities(p.expected)
      ensures x in AllEvidence(p.items) <==> x in MemberEvidence(p.expected)
    {
      InAllSecurities(p.items, x);
      InAllEvidence(p.items, x);
    }
  }

  lemma {:induction false} SameLength(p: Provider)
    requires p.Failure().None?
    ensures |p.items| == |p.expected|
  {
  }

  // ---- providers of a command --------------------------------------------------------------------------

  function Select(items: seq<Item>, id: string): seq<Item> {
    if items == [] then []
    else Select(items[..|items| - 1], id) + if items[|items| - 1].id == id then [items[|items| - 1]] else []
  }

  /** The provider of a member Run, or of the whole command when no member is fixed
      (`_research_definition`); a recovery replays the items it was built with. */
  function StagedProvider(c: Command, mode: Mode, member: Option<Member>, admits: Admission): Provider {
    var all := ItemsOf(c.members);
    var items := if member.Some? then Select(all, FactId(member.value.security)) else all;
    Provider(items, items, if member.Some? then [member.value] else c.members, mode, c.failsData, true, admits)
  }

  /** A provider over the members' own items. */
  ghost predicate FromCommand(p: Provider) {
    && p.staged && p.items == ItemsOf(p.expected)
    && forall i :: 0 <= i < |p.expected| ==> Genuine(p.mode, p.expected[i], p.admits)
  }

  /** Validation of a command's own items leaves one member per security. */
  lemma {:induction false} ValidationImpliesOnePerSecurity(p: Provider)
    requires FromCommand(p)
    requires p.Failure().None?
    ensures OnePerSecurity(p.expected)
  {
    hide Validation, Lookup, Decode;
    forall i | 0 <= i < |p.expected|
      ensures Lookup(p.expected, p.expected[i].security) == Some(p.expected[i])
    {
      ItemCarries(p, i);
      assert Genuine(p.mode, p.expected[i], p.admits);
    }
  }

  lemma {:induction false} IdsDiffer(a: string, b: string)
    ensures FactId(a) == FactId(b) <==> a == b
  {
    var prefix := "required-facts:";
    assert FactId(a)[|prefix|..] == a && FactId(b)[|prefix|..] == b;
  }

  lemma {:induction false} SelectNothing(members: seq<Member>, security: string)
    requires forall i :: 0 <= i < |members| ==> members[i].security != security
    ensures Select(ItemsOf(members), FactId(security)) == []
  {
    if members != [] {
      var init := members[..|members| - 1];
      assert ItemsOf(members)[..|init|] == ItemsOf(init);
      SelectNothing(init, security);
      IdsDiffer(members[|init|].security, security);
    }
  }

  lemma {:induction false} SelectOne(members: seq<Member>, i: nat)
    requires Distinct(MemberSecurities(members)) && i < |members|
    ensures Select(ItemsOf(members), FactId(members[i].security)) == [ItemOf(members[i])]
    decreases |members|
  {
    var init, securities := members[..|members| - 1], MemberSecurities(members);
    assert ItemsOf(members)[..|init|] == ItemsOf(init);
    assert MemberSecurities(init) == securities[..|init|];
    if i < |init| {
      assert securities[i] != securities[|init|];
      SelectOne(init, i);
      IdsDiffer(members[|init|].security, members[i].security);
    } else {
      assert forall k :: 0 <= k < |init| ==> securities[k] == members[k].security && securities[k] != securities[|init|];
      SelectNothing(init, members[i].security);
    }
  }

  /** A command that meets its contract, and a member of it if one is fixed. */
  ghost predicate Frozen(c: Command, mode: Mode, member: Option<Member>, admits: Admission) {
    && FixedTen(c)
    && (forall i :: 0 <= i < |c.members| ==> Genuine(mode, c.members[i], admits))
    && (member.Some? ==> member.value in c.members)
  }

  /** The provider of such a command delivers the own items of distinct members. */
  lemma {:induction false} ProvidersAreFromCommand(c: Command, mode: Mode, member: Option<Member>, admits: Admission)
    requires Frozen(c, mode, member, admits)
    ensures var p := StagedProvider(c, mode, member, admits);
      FromCommand(p) && p.expected != [] && Distinct(MemberSecurities(p.expected))
  {
    if member.Some? {
      var i :| 0 <= i < |c.members| && c.members[i] == member.value;
      SelectOne(c.members, i);
      assert ItemsOf([member.value]) == [ItemOf(member.value)];
    }
  }

  // ---- every run keeps the coverage ---------------------------------------------------------------------------

  /** A stage built over a good output is good. */
  lemma {:induction false} NextStageCarries(p: Provider, previous: Checkpoint, stage: Stage, boundary: int)
    requires stage != Collect
    requires previous.stage == Some(Source(stage)) && GoodOutput(p, previous)
    requires NextStage(previous, Source(stage), stage).Delivered?
    ensures GoodOutput(p, Checkpoint(Some(stage), boundary, NextStage(previous, Source(stage), stage).items))
  {
  }

  lemma {:induction false} CompletedGrows(checkpoints: seq<Checkpoint>, c: Checkpoint, stage: Stage)
    ensures Completed(checkpoints + [c], stage) <==> Completed(checkpoints, stage) || c.stage == Some(stage)
  {
    var all := checkpoints + [c];
    assert all[|checkpoints|] == c;
    assert forall i :: 0 <= i < |checkpoints| ==> all[i] == checkpoints[i];
  }

  lemma {:induction false} CompletedInView(checkpoints: seq<Checkpoint>, n: nat, stage: Stage)
    requires n <= |checkpoints|
    ensures Completed(checkpoints[..n], stage) ==> Completed(checkpoints, stage)
  {
  }

  lemma {:induction false} AnswerIsGood(p: Provider, view: seq<Checkpoint>, boundary: int)
    requires FromCommand(p)
    requires forall i :: 0 <= i < |view| ==> GoodOutput(p, view[i])
    requires Active(view) < 4 && Provide(p, view).Delivered?
    ensures GoodOutput(p, Checkpoint(Some(STAGES[Active(view)]), boundary, Provide(p, view).items))
  {
    hide GoodOutput, NextStage, Validation;
    var n := Active(view);
    if n == 0 {
      FirstStageIsGood(p, boundary);
    } else {
      var previous := Newest(view, STAGES[n - 1]);
      var i :| 0 <= i < |view| && view[i] == previous;
      NextStageCarries(p, previous, STAGES[n], boundary);
    }
  }

  lemma {:induction false} FirstStageIsGood(p: Provider, boundary: int)
    requires FromCommand(p)
    requires !p.failsData && p.Failure().None?
    ensures GoodOutput(p, Checkpoint(Some(Collect), boundary, p.items))
  {
    ValidationImpliesOnePerSecurity(p);
    FactsCarry(p);
  }

  lemma {:induction false} AdvanceKeepsInv(p: Provider, checkpoints: seq<Checkpoint>, e: Event)
    requires FromCommand(p)
    requires Inv(p, checkpoints)
    ensures Inv(p, Advance(p, checkpoints, e))
  {
    hide GoodOutput, NextStage, Provide, Completed;
    match e
    case OtherStep(boundary) =>
      var c := Checkpoint(None, boundary, []);
      assert GoodOutput(p, c) by { NoStageIsGood(p, c); }
      forall stage: Stage { CompletedGrows(checkpoints, c, stage); }
    case Saved(seen, boundary) =>
      var view := if seen <= |checkpoints| then checkpoints[..seen] else checkpoints;
      var n := Active(view);
      if n < 4 && Provide(p, view).Delivered? {
        var c := Checkpoint(Some(STAGES[n]), boundary, Provide(p, view).items);
        AnswerIsGood(p, view, boundary);
        forall stage: Stage
          ensures Completed(checkpoints + [c], stage) <==> Completed(checkpoints, stage) || c.stage == Some(stage)
          ensures Completed(view, stage) ==> Completed(checkpoints, stage)
        {
          CompletedGrows(checkpoints, c, stage);
          CompletedInView(checkpoints, |view|, stage);
        }
      }
  }

  lemma {:induction false} NoStageIsGood(p: Provider, c: Checkpoint)
    requires c.stage.None?
    ensures GoodOutput(p, c)
  {
  }

  lemma {:induction false} RunKeepsInv(p: Provider, checkpoints: seq<Checkpoint>, events: seq<Event>)
    requires FromCommand(p)
    requires Inv(p, checkpoints)
    ensures Inv(p, Run(p, checkpoints, events))
    decreases |events|
  {
    if events != [] {
      AdvanceKeepsInv(p, checkpoints, events[0]);
      RunKeepsInv(p, Advance(p, checkpoints, events[0]), events[1..]);
    }
  }

  /** For every member list and every run, with restarts, repeated and stale calls: the identities
      that each saved stage output carries are exactly the expected members'. */
  lemma {:induction false} EveryStageCarriesTheFacts(p: Provider, events: seq<Event>, i: nat)
    requires FromCommand(p)
    requires i < |Run(p, [], events)| && Run(p, [], events)[i].stage.Some?
    ensures Carries(Run(p, [], events)[i].outputs, p.expected)
  {
    assert Inv(p, []);
    RunKeepsInv(p, [], events);
    assert GoodOutput(p, Run(p, [], events)[i]);
  }

  // ---- progress ---------------------------------------------------------------------------------------------------

  lemma {:induction false} DistinctIdsIff(members: seq<Member>)
    ensures Distinct(ItemIds(ItemsOf(members))) <==> Distinct(MemberSecurities(members))
  {
    var ids, securities := ItemIds(ItemsOf(members)), MemberSecurities(members);
    forall i, j | 0 <= i < j < |members|
      ensures ids[i] == ids[j] <==> securities[i] == securities[j]
    {
      IdsDiffer(securities[i], securities[j]);
    }
  }

  lemma {:induction false} CarriesSomething(p: Provider)
    requires p.Failure().None?
    requires p.expected != []
    ensures AllSecurities(p.items) != [] && AllEvidence(p.items) != [] && Readable(p.items)
  {
    hide Validation, Decode, Lookup;
    SameLength(p);
    ItemCarries(p, |p.items| - 1);
    forall i | 0 <= i < |p.items|
      ensures !p.items[i].content.NotJson?
    {
      ItemCarries(p, i);
    }
  }

  /** The second stage, the only one whose input is not a single item, delivers exactly when
      there is a member and no two members share a security. */
  lemma {:induction false} AnalyzeDeliversIff(p: Provider, collected: Checkpoint)
    requires FromCommand(p)
    requires collected.stage == Some(Collect) && GoodOutput(p, collected)
    ensures NextStage(collected, Collect, Analyze).Delivered? <==>
      p.expected != [] && Distinct(MemberSecurities(p.expected))
  {
    DistinctIdsIff(p.expected);
    if p.expected != [] {
      CarriesSomething(p);
    } else {
      assert collected.outputs == [];
    }
  }

  lemma {:induction false} LaterStagesDeliver(p: Provider, previous: Checkpoint, stage: Stage)
    requires stage == BullBear || stage == Draft
    requires previous.stage == Some(Source(stage)) && GoodOutput(p, previous)
    requires p.expected != [] && p.items != []
    ensures NextStage(previous, Source(stage), stage).Delivered?
  {
    hide Validation;
    MembersHaveIdentities(p);
    assert previous.outputs != [];
  }

  lemma {:induction false} MembersHaveIdentities(p: Provider)
    requires p.Failure().None?
    requires p.expected != []
    ensures Set(MemberSecurities(p.expected)) != {}
    ensures MemberEvidence(p.expected) != {}
  {
    assert MemberSecurities(p.expected)[0] in Set(MemberSecurities(p.expected));
    ItemCarries(p, 0);
    hide Validation, Decode, EvidenceOf;
    LookupFinds(p.expected, p.expected[0].security);
    var m := Lookup(p.expected, p.expected[0].security).value;
    var k :| 0 <= k < |p.expected| && p.expected[k] == m;
    assert m.EvidenceIds()[0] in p.expected[k].EvidenceIds();
    assert m.EvidenceIds()[0] in MemberEvidence(p.expected);
  }

  lemma {:induction false} ValidCallsAdvance(p: Provider, events: seq<Event>, boundary: int)
    requires FromCommand(p) && !p.failsData && p.Failure().None?
    requires p.expected != [] && Distinct(MemberSecurities(p.expected))
    ensures var checkpoints := Run(p, [], events);
      Active(checkpoints) < 4 ==>
        && Provide(p, checkpoints).Delivered?
        && Active(Advance(p, checkpoints, Saved(|checkpoints|, boundary))) == Active(checkpoints) + 1
  {
    hide GoodOutput, NextStage, Validation, Completed;
    assert Inv(p, []) by { EmptyIsGood(p); }
    RunKeepsInv(p, [], events);
    var checkpoints := Run(p, [], events);
    var n := Active(checkpoints);
    assert checkpoints[..|checkpoints|] == checkpoints;
    if 0 < n < 4 {
      var previous := Newest(checkpoints, STAGES[n - 1]);
      var i :| 0 <= i < |checkpoints| && checkpoints[i] == previous;
      if n == 1 {
        AnalyzeDeliversIff(p, previous);
      } else {
        LaterStagesDeliver(p, previous, STAGES[n]);
      }
    }
    if n < 4 {
      var c := Checkpoint(Some(STAGES[n]), boundary, Provide(p, checkpoints).items);
      forall stage: Stage
        ensures Completed(checkpoints + [c], stage) <==> Completed(checkpoints, stage) || c.stage == Some(stage)
      {
        CompletedGrows(checkpoints, c, stage);
      }
    }
  }

  lemma {:induction false} NothingSaved(p: Provider, events: seq<Event>)
    requires p.staged && (p.failsData || p.Failure().Some?)
    ensures var checkpoints := Run(p, [], events);
      && !Provide(p, checkpoints).Delivered?
      && forall i :: 0 <= i < |checkpoints| ==> checkpoints[i].stage.None?
  {
    hide Run, Validation, NextStage;
    SavedMeansValid(p, [], events);
  }

  lemma {:induction false} NothingLeftToDo(p: Provider, checkpoints: seq<Checkpoint>)
    requires p.staged && !p.failsData && Active(checkpoints) == 4
    ensures Provide(p, checkpoints) == Delivered([])
  {
  }

  /** For every frozen command, and every member of it that may be fixed: if its data are there and
      the expected members complete, then in every reachable state a call delivers the first
      incomplete stage and saving it completes exactly that stage; otherwise nothing is ever saved. */
  lemma {:induction false} EachCallAdvances(c: Command, mode: Mode, member: Option<Member>, admits: Admission,
                                            events: seq<Event>, boundary: int)
    requires Frozen(c, mode, member, admits)
    ensures var p := StagedProvider(c, mode, member, admits);
      var checkpoints := Run(p, [], events);
      if !c.failsData && (forall i :: 0 <= i < |p.expected| ==> Complete(mode, p.expected[i])) then
        && (Active(checkpoints) < 4 ==>
              && Provide(p, checkpoints).Delivered?
              && Active(Advance(p, checkpoints, Saved(|checkpoints|, boundary))) == Active(checkpoints) + 1)
        && (Active(checkpoints) == 4 ==> Provide(p, checkpoints) == Delivered([]))
      else
        && !Provide(p, checkpoints).Delivered?
        && forall i :: 0 <= i < |checkpoints| ==> checkpoints[i].stage.None?
  {
    hide Validation, Run, Provide, Advance, Decode;
    var p := StagedProvider(c, mode, member, admits);
    ProvidersAreFromCommand(c, mode, member, admits);
    OwnItemsAreListed(p.expected, mode, admits);
    ValidationPassesIff(p.items, p.expected, mode, admits);
    assert forall i :: 0 <= i < |p.expected| ==> Genuine(mode, p.expected[i], admits);
    assert p.Failure().None? <==> forall i :: 0 <= i < |p.expected| ==> Complete(mode, p.expected[i]);
    if !p.failsData && p.Failure().None? {
      ValidCallsAdvance(p, events, boundary);
      if Active(Run(p, [], events)) == 4 {
        NothingLeftToDo(p, Run(p, [], events));
      }
    } else {
      NothingSaved(p, events);
    }
  }

  // ---- the draft guard ------------------------------------------------------------------------------------------------

  datatype Verdict = Accepted(artifact: Artifact) | StageInvalid | StageUnavailable

  predicate IsDraft(item: Item) {
    item.content.ArtifactJson? && item.content.artifact.stage == Draft
  }

  /** The checks of `_StagedResearchModelAdapter.generate` on the first draft item. The security
      comprehension ranges over the command's members even when one member is fixed. */
  predicate DraftIsValid(item: Item, context: seq<Item>, members: seq<Member>, member: Option<Member>)
    requires IsDraft(item)
  {
    var a := item.content.artifact;
    var scope := if member.Some? then [member.value] else members;
    && item.sourceStage == Some(BullBear)
    && Set(a.inputs) <= Set(ItemIds(context))
    && Set(a.securities) == (if members == [] then {} else Set(MemberSecurities(scope)))
    && Set(a.evidence) == MemberEvidence(scope)
  }

  function Guard(context: seq<Item>, members: seq<Member>, member: Option<Member>): Verdict {
    GuardFrom(context, context, members, member)
  }

  function GuardFrom(rest: seq<Item>, context: seq<Item>, members: seq<Member>, member: Option<Member>): Verdict {
    if rest == [] then StageUnavailable
    else if !IsDraft(rest[0]) then GuardFrom(rest[1..], context, members, member)
    else if DraftIsValid(rest[0], context, members, member) then Accepted(rest[0].content.artifact)
    else StageInvalid
  }

  lemma {:induction false} GuardOfUniform(rest: seq<Item>, context: seq<Item>, members: seq<Member>,
                                          member: Option<Member>, valid: bool)
    requires exists i :: 0 <= i < |rest| && IsDraft(rest[i])
    requires forall i :: 0 <= i < |rest| && IsDraft(rest[i]) ==>
      DraftIsValid(rest[i], context, members, member) == valid
    ensures GuardFrom(rest, context, members, member).Accepted? == valid
    decreases |rest|
  {
    if IsDraft(rest[0]) {
      assert DraftIsValid(rest[0], context, members, member) == valid;
    } else {
      var i :| 0 <= i < |rest| && IsDraft(rest[i]);
      assert rest[1..][i - 1] == rest[i];
      GuardOfUniform(rest[1..], context, members, member, valid);
    }
  }

  ghost predicate IsFirstDraft(context: seq<Item>, i: nat) {
    i < |context| && IsDraft(context[i]) && forall k :: 0 <= k < i ==> !IsDraft(context[k])
  }

  /** What the guard demands of a draft, for a command with members: it comes from the debate, was
      built over items of the context, and covers exactly the securities and the evidence of the
      fixed member, or of all members. */
  ghost predicate CoversExactly(item: Item, context: seq<Item>, scope: seq<Member>)
    requires IsDraft(item)
  {
    var a := item.content.artifact;
    && item.sourceStage == Some(BullBear)
    && (forall x :: x in a.inputs ==> exists k :: 0 <= k < |context| && context[k].id == x)
    && (forall x :: x in a.securities <==> exists k :: 0 <= k < |scope| && scope[k].security == x)
    && (forall x :: x in a.evidence <==> exists k :: 0 <= k < |scope| && x in scope[k].EvidenceIds())
  }

  lemma {:induction false} ValidIffCovers(item: Item, context: seq<Item>, members: seq<Member>, member: Option<Member>)
    requires IsDraft(item) && members != []
    ensures DraftIsValid(item, context, members, member) <==>
      CoversExactly(item, context, if member.Some? then [member.value] else members)
  {
    var a := item.content.artifact;
    var scope := if member.Some? then [member.value] else members;
    assert Set(a.inputs) <= Set(ItemIds(context)) <==>
      (forall x :: x in a.inputs ==> exists k :: 0 <= k < |context| && context[k].id == x) by {
      InputsIff(a.inputs, context);
    }
    assert Set(a.securities) == Set(MemberSecurities(scope)) <==>
      (forall x :: x in a.securities <==> exists k :: 0 <= k < |scope| && scope[k].security == x) by {
      SecuritiesIff(a.securities, scope);
    }
    assert Set(a.evidence) == MemberEvidence(scope) <==>
      (forall x :: x in a.evidence <==> exists k :: 0 <= k < |scope| && x in scope[k].EvidenceIds()) by {
      EvidenceIff(a.evidence, scope);
    }
  }

  lemma {:induction false} InputsIff(inputs: seq<string>, context: seq<Item>)
    ensures Set(inputs) <= Set(ItemIds(context)) <==>
      forall x :: x in inputs ==> exists k :: 0 <= k < |context| && context[k].id == x
  {
    forall x
      ensures x in ItemIds(context) <==> exists k :: 0 <= k < |context| && context[k].id == x
    {
      if k :| 0 <= k < |context| && context[k].id == x {
        assert ItemIds(context)[k] == x;
      }
    }
    assert forall x :: x in Set(inputs) <==> x in inputs;
  }

  lemma {:induction false} SecuritiesIff(securities: seq<string>, scope: seq<Member>)
    ensures Set(securities) == Set(MemberSecurities(scope)) <==>
      forall x :: x in securities <==> exists k :: 0 <= k < |scope| && scope[k].security == x
  {
    forall x
      ensures x in Set(MemberSecurities(scope)) <==> exists k :: 0 <= k < |scope| && scope[k].security == x
    {
      if k :| 0 <= k < |scope| && scope[k].security == x {
        assert MemberSecurities(scope)[k] == x;
      }
    }
    assert forall x :: x in Set(securities) <==> x in securities;
  }

  lemma {:induction false} EvidenceIff(evidence: seq<string>, scope: seq<Member>)
    ensures Set(evidence) == MemberEvidence(scope) <==>
      forall x :: x in evidence <==> exists k :: 0 <= k < |scope| && x in scope[k].EvidenceIds()
  {
    assert forall x :: x in Set(evidence) <==> x in evidence;
    assert forall x :: x in MemberEvidence(scope) <==> exists k :: 0 <= k < |scope| && x in scope[k].EvidenceIds();
  }

  /** The guard decides by the first draft of the context alone: accepted exactly when that covers
      what it must, invalid when it does not, unavailable when there is none. */
  lemma {:induction false} GuardIff(context: seq<Item>, members: seq<Member>, member: Option<Member>)
    requires members != []
    ensures (forall k :: 0 <= k < |context| ==> !IsDraft(context[k])) ==>
      Guard(context, members, member) == StageUnavailable
    ensures forall i: nat :: IsFirstDraft(context, i) ==>
      Guard(context, members, member) ==
        if CoversExactly(context[i], context, if member.Some? then [member.value] else members)
        then Accepted(context[i].content.artifact) else StageInvalid
  {
    hide CoversExactly, DraftIsValid;
    if forall k :: 0 <= k < |context| ==> !IsDraft(context[k]) {
      GuardSkips(context, context, members, member, |context|);
      assert context[|context|..] == [];
    }
    forall i: nat | IsFirstDraft(context, i)
      ensures Guard(context, members, member) ==
        if CoversExactly(context[i], context, if member.Some? then [member.value] else members)
        then Accepted(context[i].content.artifact) else StageInvalid
    {
      GuardSkips(context, context, members, member, i);
      ValidIffCovers(context[i], context, members, member);
    }
  }

  lemma {:induction false} GuardSkips(rest: seq<Item>, context: seq<Item>, members: seq<Member>, member: Option<Member>, i: nat)
    requires i <= |rest| && forall k :: 0 <= k < i ==> !IsDraft(rest[k])
    ensures GuardFrom(rest, context, members, member) == GuardFrom(rest[i..], context, members, member)
    decreases i
  {
    if i == 0 {
      assert rest[0..] == rest;
    } else {
      assert rest[1..][i - 1..] == rest[i..];
      GuardSkips(rest[1..], context, members, member, i - 1);
    }
  }

  /** The context that the framework is assumed to pass to the model: every saved stage output,
      and no draft that was not saved. */
  ghost predicate FullContext(context: seq<Item>, checkpoints: seq<Checkpoint>) {
    && (forall c, o :: c in checkpoints && c.stage.Some? && o in c.outputs ==> o in context)
    && (forall o :: o in context && IsDraft(o) ==> exists c :: c in checkpoints && c.stage.Some? && o in c.outputs)
  }

  /** A draft among saved outputs is the whole output of a draft checkpoint. */
  lemma {:induction false} DraftOutput(p: Provider, c: Checkpoint, o: Item)
    requires c.stage.Some? && GoodOutput(p, c) && o in c.outputs && IsDraft(o)
    ensures c.stage == Some(Draft)
    ensures o.sourceStage == Some(BullBear) && o.content.artifact.inputs == [OutputId(BullBear)]
    ensures Set(o.content.artifact.securities) == Set(MemberSecurities(p.expected))
    ensures Set(o.content.artifact.evidence) == MemberEvidence(p.expected)
  {
    if c.stage == Some(Collect) {
      var k :| 0 <= k < |p.items| && p.items[k] == o;
      ItemCarries(p, k);
    } else {
      assert c.outputs == [o];
      assert AllSecurities(c.outputs) == AllSecurities(c.outputs[..0]) + Securities(o);
      assert AllEvidence(c.outputs) == AllEvidence(c.outputs[..0]) + EvidenceOf(o);
    }
  }

  lemma {:induction false} BullBearIsInContext(p: Provider, checkpoints: seq<Checkpoint>, context: seq<Item>)
    requires Inv(p, checkpoints) && FullContext(context, checkpoints)
    requires Completed(checkpoints, BullBear)
    ensures OutputId(BullBear) in Set(ItemIds(context))
  {
    hide Validation, Carries;
    var j :| 0 <= j < |checkpoints| && checkpoints[j].stage == Some(BullBear);
    assert GoodOutput(p, checkpoints[j]);
    var b := checkpoints[j].outputs[0];
    assert checkpoints[j] in checkpoints && b in checkpoints[j].outputs;
    assert b in context;
    var k :| 0 <= k < |context| && context[k] == b;
    assert ItemIds(context)[k] == OutputId(BullBear);
  }

  /** A draft that a run saved, checked against the whole context. */
  lemma {:induction false} SavedDraftIsValid(p: Provider, checkpoints: seq<Checkpoint>, context: seq<Item>, o: Item,
                                             members: seq<Member>, member: Option<Member>)
    requires Inv(p, checkpoints) && FullContext(context, checkpoints)
    requires o in context && IsDraft(o)
    requires p.expected == (if member.Some? then [member.value] else members) && p.expected != []
    ensures DraftIsValid(o, context, members, member) <==> members != []
  {
    hide GoodOutput, OutputId;
    var c :| c in checkpoints && c.stage.Some? && o in c.outputs;
    var i :| 0 <= i < |checkpoints| && checkpoints[i] == c;
    DraftOutput(p, c, o);
    assert Completed(checkpoints, Draft);
    BullBearIsInContext(p, checkpoints, context);
    assert MemberSecurities(p.expected)[0] in Set(MemberSecurities(p.expected));
  }

  /** For every frozen command and every member of it that may be fixed, the draft guard accepts
      what any run of the provider built. */
  lemma {:induction false} GuardAcceptsSavedDraft(c: Command, mode: Mode, member: Option<Member>, admits: Admission,
                                                  events: seq<Event>, context: seq<Item>)
    requires Frozen(c, mode, member, admits)
    requires var checkpoints := Run(StagedProvider(c, mode, member, admits), [], events);
      Active(checkpoints) == 4 && FullContext(context, checkpoints)
    ensures Guard(context, c.members, member).Accepted?
  {
    hide Run, Validation, NextStage, Carries, DraftIsValid;
    var p := StagedProvider(c, mode, member, admits);
    var checkpoints := Run(p, [], events);
    ProvidersAreFromCommand(c, mode, member, admits);
    EmptyIsGood(p);
    RunKeepsInv(p, [], events);
    var i :| 0 <= i < |checkpoints| && checkpoints[i].stage == Some(STAGES[3]);
    assert GoodOutput(p, checkpoints[i]) && checkpoints[i] in checkpoints;
    var draft := checkpoints[i].outputs[0];
    assert draft in context && IsDraft(draft);
    var k :| 0 <= k < |context| && context[k] == draft;
    forall j | 0 <= j < |context| && IsDraft(context[j])
      ensures DraftIsValid(context[j], context, c.members, member)
    {
      SavedDraftIsValid(p, checkpoints, context, context[j], c.members, member);
    }
    GuardOfUniform(context, context, c.members, member, true);
  }
}
