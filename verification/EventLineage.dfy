/** Reading a committed event: the stored JSON is bound to its row, its business mapping
    and, for a correction, to the original event it corrects. */
module EventLineage {
  import opened Outcomes
  import opened Identities
  import opened LedgerTables

  datatype ReadError = InvalidEvent | InvalidSnapshot | LineageMismatch | MappingMismatch

  datatype Mapping = Mapping(caseId: string, fingerprint: string, run: string, frozen: Option<FrozenCase>)

  /** Index of the row with the primary key, or the table's length. */
  function FindEvent(events: seq<EventRow>, id: EventId): (i: nat)
    ensures i <= |events|
    ensures i < |events| ==> events[i].id == id
    ensures forall j :: 0 <= j < i ==> events[j].id != id
  {
    if events == [] then 0
    else if events[0].id == id then 0
    else 1 + FindEvent(events[1..], id)
  }

  function FindMapping(mappings: seq<MappingRow>, business: string): (i: nat)
    ensures i <= |mappings|
    ensures i < |mappings| ==> mappings[i].business == business
    ensures forall j :: 0 <= j < i ==> mappings[j].business != business
  {
    if mappings == [] then 0
    else if mappings[0].business == business then 0
    else 1 + FindMapping(mappings[1..], business)
  }

  /** `get_business_object_mapping`. A snapshot of another build is rebound to the row's Run. */
  function GetMapping(t: Tables, business: string): Result<Option<Mapping>, ReadError> {
    var i := FindMapping(t.mappings, business);
    if i == |t.mappings| then Ok(None)
    else
      var row := t.mappings[i];
      match row.snapshot
      case None => Ok(Some(Mapping(row.caseId, row.fingerprint, row.run, None)))
      case Some(Malformed) => Err(InvalidSnapshot)
      case Some(Json(saved)) =>
        var c := if saved.Run() != row.run then saved.(recoveryRun := Some(row.run)) else saved;
        Ok(Some(Mapping(row.caseId, row.fingerprint, row.run, Some(c))))
  }

  /** The snapshotless mapping of a pre-snapshot build that this fact may recover. */
  predicate SnapshotlessFor(mapping: Option<Mapping>, f: Fact) {
    && mapping.Some?
    && mapping.value.frozen.None?
    && mapping.value.caseId == f.frozen.caseId
    && f.frozen.matchesFixture
  }

  predicate RecoveredFor(mapping: Option<Mapping>, f: Fact, run: string) {
    && mapping.Some?
    && mapping.value.run == run
    && (|| (mapping.value.frozen.Some? && mapping.value.frozen.value.recoveryInput == f.frozen.recoveryInput)
        || SnapshotlessFor(mapping, f))
  }

  predicate ExpectedId(f: Fact, run: string) {
    if f.corrects.Some? then f.id == f.frozen.CorrectionId(f.corrects.value)
    else f.id == f.frozen.OriginalId(run) || f.id == f.frozen.LegacyId(run)
  }

  /** The identity check that precedes the recursion into the corrected event. */
  predicate BoundToRow(f: Fact, row: EventRow, mapping: Option<Mapping>) {
    && f.id == row.id
    && f.business == row.business
    && f.run == row.run
    && f.corrects == row.corrects
    && f.frozen.business == row.business
    && (f.corrects.Some? || f.frozen.Run() == row.run || RecoveredFor(mapping, f, row.run))
    && ExpectedId(f, row.run)
  }

  /** The check of the fact against its saved business mapping. */
  predicate BoundToMapping(f: Fact, run: string, mapping: Option<Mapping>) {
    && mapping.Some?
    && mapping.value.caseId == f.frozen.caseId
    && mapping.value.run == run
    && (|| f.corrects.Some?
        || mapping.value.fingerprint == f.frozen.fingerprint
        || SnapshotlessFor(mapping, f))
    && (mapping.value.frozen.Some? ==>
          if f.corrects.None? then mapping.value.frozen.value.recoveryInput == f.frozen.recoveryInput
          else mapping.value.frozen.value.legacyInput == f.frozen.legacyInput)
  }

  predicate OriginalOf(original: Result<Option<Fact>, ReadError>, row: EventRow) {
    && original.Ok? && original.value.Some?
    && original.value.value.corrects.None?
    && original.value.value.business == row.business
    && original.value.value.run == row.run
  }

  /** `get_decision_event` with `_stored_decision_event`. It is total on every table, also on
      rows that correct each other in a cycle: the identity check comes first and a correction's
      identity contains the identity it corrects. */
  function ReadEvent(t: Tables, id: EventId): Result<Option<Fact>, ReadError>
    decreases id
  {
    var i := FindEvent(t.events, id);
    if i == |t.events| then Ok(None)
    else
      var row := t.events[i];
      if row.payload.Malformed? then Err(InvalidEvent)
      else
        var f := row.payload.value;
        var mapping := GetMapping(t, row.business);
        if mapping.Err? then Err(mapping.error)
        else if !BoundToRow(f, row, mapping.value) then Err(LineageMismatch)
        else if row.corrects.Some? && row.corrects.value == row.id then Err(LineageMismatch)
        else if row.corrects.Some? && ReadEvent(t, row.corrects.value).Err? then
          Err(ReadEvent(t, row.corrects.value).error)
        else if row.corrects.Some? && !OriginalOf(ReadEvent(t, row.corrects.value), row) then
          Err(LineageMismatch)
        else if !BoundToMapping(f, row.run, mapping.value) then Err(MappingMismatch)
        else Ok(Some(f))
  }

  /** Every returned fact is the JSON of the row it was read under, agrees with that row's
      columns, has the one identity its content determines, and belongs to the saved mapping of
      its business object. */
  lemma {:induction false} ReadFactsAreBound(t: Tables, id: EventId)
    requires ReadEvent(t, id).Ok? && ReadEvent(t, id).value.Some?
    ensures var f := ReadEvent(t, id).value.value; var i := FindEvent(t.events, id);
      && f.id == id
      && i < |t.events|
      && t.events[i].payload == Json(f)
      && t.events[i].business == f.business == f.frozen.business
      && t.events[i].run == f.run
      && t.events[i].corrects == f.corrects
      && (if f.corrects.Some? then id == CorrectionEvent(f.business, f.corrects.value)
          else || id == OriginalEvent(f.business, f.run, f.frozen.contract)
               || id == LegacyEvent(f.business, f.run, f.frozen.contract, f.frozen.host))
      && exists m :: 0 <= m < |t.mappings| && t.mappings[m].business == f.business
           && t.mappings[m].caseId == f.frozen.caseId && t.mappings[m].run == f.run
           && (f.corrects.None? && !f.frozen.matchesFixture ==> t.mappings[m].fingerprint == f.frozen.fingerprint)
  {
  }

  /** Every returned correction points at an event that reads back as an original of the same
      business object and Run; so a chain of corrections has depth one. */
  lemma {:induction false} CorrectionsHaveDepthOne(t: Tables, id: EventId)
    requires ReadEvent(t, id).Ok? && ReadEvent(t, id).value.Some?
    ensures var f := ReadEvent(t, id).value.value;
      && f.id == id
      && FindEvent(t.events, id) < |t.events|
      && t.events[FindEvent(t.events, id)].corrects == f.corrects
      && (f.corrects.Some? ==>
           var original := ReadEvent(t, f.corrects.value);
           && original.Ok? && original.value.Some?
           && original.value.value.corrects.None?
           && original.value.value.business == f.business
           && original.value.value.run == f.run)
  {
  }

  /** One step of a walk along the rows' `corrects_event_id` column. */
  predicate Corrects(t: Tables, id: EventId, next: EventId) {
    var i := FindEvent(t.events, id);
    i < |t.events| && t.events[i].corrects == Some(next)
  }

  /** Whatever the table holds, two corrections in a row, and in particular a cycle of any
      length, are never returned: the head of the walk reads as an error. */
  lemma {:induction false} LongChainsAreRefused(t: Tables, first: EventId, second: EventId, third: EventId)
    requires Corrects(t, first, second) && Corrects(t, second, third)
    ensures ReadEvent(t, first).Err?
  {
  }

  /** Append-only growth of the tables that lineage depends on. */
  ghost predicate Grows(a: Tables, b: Tables) {
    a.events <= b.events && a.mappings <= b.mappings
  }

  lemma {:induction false} FindEventGrows(a: seq<EventRow>, b: seq<EventRow>, id: EventId)
    requires a <= b
    ensures FindEvent(a, id) < |a| ==> FindEvent(b, id) == FindEvent(a, id)
  {
  }

  lemma {:induction false} FindMappingGrows(a: seq<MappingRow>, b: seq<MappingRow>, business: string)
    requires a <= b
    ensures FindMapping(a, business) < |a| ==> FindMapping(b, business) == FindMapping(a, business)
  {
  }

  /** A fact that was once readable reads back identically in every later state of the tables. */
  lemma {:induction false} ReadsAreStable(a: Tables, b: Tables, id: EventId)
    requires Grows(a, b)
    requires ReadEvent(a, id).Ok? && ReadEvent(a, id).value.Some?
    ensures ReadEvent(b, id) == ReadEvent(a, id)
    decreases id
  {
    FindEventGrows(a.events, b.events, id);
    var row := a.events[FindEvent(a.events, id)];
    FindMappingGrows(a.mappings, b.mappings, row.business);
    if row.corrects.Some? {
      ReadsAreStable(a, b, row.corrects.value);
    }
  }

  /** What a caller can check before it commits: the fact's JSON is well bound to its mapping
      and, for a correction, to a readable original. */
  predicate Bindable(t: Tables, f: Fact) {
    var mapping := GetMapping(t, f.frozen.business);
    var g := f.Portable();
    var row := EventRowOf(f, 0);
    && mapping.Ok?
    && BoundToRow(g, row, mapping.value)
    && BoundToMapping(g, f.run, mapping.value)
    && (f.corrects.Some? ==> OriginalOf(ReadEvent(t, f.corrects.value), row))
  }

  /** A committed row reads back as its fact exactly when the fact is bindable there. */
  lemma {:induction false} ReadsBackIffBindable(t: Tables, f: Fact, sequence: int)
    requires FindEvent(t.events, f.id) < |t.events|
    requires t.events[FindEvent(t.events, f.id)] == EventRowOf(f, sequence)
    ensures ReadEvent(t, f.id) == Ok(Some(f.Portable())) <==> Bindable(t, f)
  {
  }

  lemma {:induction false} BindableStays(t: Tables, u: Tables, f: Fact)
    requires Grows(t, u) && Bindable(t, f)
    ensures Bindable(u, f)
  {
    hide BoundToRow, ReadEvent;
    FindMappingGrows(t.mappings, u.mappings, f.frozen.business);
    if f.corrects.Some? {
      ReadsAreStable(t, u, f.corrects.value);
    }
  }

  /** Once the row of a bindable fact is in the table, the read returns its portable form, in
      that table and in every later one. */
  lemma {:induction false} BindableReadsBack(t: Tables, u: Tables, f: Fact, sequence: int)
    requires Bindable(t, f)
    requires FindEvent(t.events, f.id) == |t.events|
    requires Grows(t.(events := t.events + [EventRowOf(f, sequence)]), u)
    ensures ReadEvent(u, f.id) == Ok(Some(f.Portable()))
  {
    hide ReadEvent, Bindable;
    var s := t.(events := t.events + [EventRowOf(f, sequence)]);
    assert s.events[|t.events|].id == f.id;
    assert forall j :: 0 <= j < |t.events| ==> s.events[j] == t.events[j];
    BindableStays(t, s, f);
    ReadsBackIffBindable(s, f, sequence);
    ReadsAreStable(s, u, f.id);
  }

  // ---- what a read means --------------------------------------------------------------------

  /** The one saved mapping of a business object, if its snapshot can be decoded. */
  ghost predicate IsMapping(t: Tables, k: nat, business: string) {
    && k < |t.mappings| && t.mappings[k].business == business
    && (forall j :: 0 <= j < k ==> t.mappings[j].business != business)
    && t.mappings[k].snapshot != Some(Malformed)
  }

  ghost predicate IsRow(t: Tables, i: nat, id: EventId) {
    && i < |t.events| && t.events[i].id == id
    && forall j :: 0 <= j < i ==> t.events[j].id != id
  }

  ghost predicate SameColumns(f: Fact, row: EventRow) {
    && row.payload == Json(f) && f.id == row.id && f.business == row.business && f.run == row.run && f.corrects == row.corrects
    && f.frozen.business == row.business
  }

  /** A mapping without a snapshot stands for the built-in case alone. */
  ghost predicate StandsForFixture(f: Fact, m: MappingRow) {
    m.snapshot.None? && m.caseId == f.frozen.caseId && f.frozen.matchesFixture
  }

  /** The checks of an original: identity, Run, and the case that its mapping names. */
  ghost predicate IsOriginal(f: Fact, m: MappingRow)
    requires m.snapshot != Some(Malformed)
  {
    && f.corrects.None? && m.caseId == f.frozen.caseId && m.run == f.run
    && (|| f.id == OriginalEvent(f.business, f.run, f.frozen.contract)
        || f.id == LegacyEvent(f.business, f.run, f.frozen.contract, f.frozen.host))
    && (m.fingerprint == f.frozen.fingerprint || StandsForFixture(f, m))
    && (m.snapshot.Some? ==> m.snapshot.value.value.recoveryInput == f.frozen.recoveryInput)
    && (f.frozen.Run() == f.run || m.snapshot.Some? || StandsForFixture(f, m))
  }

  /** The checks of a correction, but for its original: identity, Run, case and legacy input. */
  ghost predicate IsCorrection(f: Fact, m: MappingRow)
    requires m.snapshot != Some(Malformed)
  {
    && f.corrects.Some? && m.caseId == f.frozen.caseId && m.run == f.run
    && f.id == CorrectionEvent(f.business, f.corrects.value)
    && (m.snapshot.Some? ==> m.snapshot.value.value.legacyInput == f.frozen.legacyInput)
  }

  /** An event reads back as a fact exactly when its row holds that fact with equal columns, and its
      mapping is the saved one of that case: for an original, with the input that recovery compares;
      for a correction, with the legacy input, and its corrected event reads back as an original of
      the same object and Run. */
  lemma {:induction false} ReadEventIff(t: Tables, id: EventId, f: Fact, i: nat, k: nat)
    requires IsRow(t, i, id) && IsMapping(t, k, t.events[i].business)
    ensures ReadEvent(t, id) == Ok(Some(f)) <==>
      && SameColumns(f, t.events[i])
      && (|| IsOriginal(f, t.mappings[k])
          || (IsCorrection(f, t.mappings[k])
              && exists o: Fact :: ReadEvent(t, f.corrects.value) == Ok(Some(o)) && o.corrects.None?
                   && o.business == f.business && o.run == f.run))
  {
    hide ReadEvent;
    var row, m := t.events[i], t.mappings[k];
    assert FindEvent(t.events, id) == i && FindMapping(t.mappings, row.business) == k;
    var mapping := GetMapping(t, row.business);
    var mine := if m.snapshot.None? then None
      else Some(if m.snapshot.value.value.Run() != m.run then m.snapshot.value.value.(recoveryRun := Some(m.run)) else m.snapshot.value.value);
    assert mapping == Ok(Some(Mapping(m.caseId, m.fingerprint, m.run, mine)));
    if SameColumns(f, row) {
      var bound := BoundToRow(f, row, mapping.value) && BoundToMapping(f, row.run, mapping.value);
      assert bound <==> IsOriginal(f, m) || IsCorrection(f, m);
    }
    UnfoldRead(t, id);
  }

  /** One level of the recursive read. */
  lemma {:induction false} UnfoldRead(t: Tables, id: EventId)
    ensures var i := FindEvent(t.events, id);
      i < |t.events| && t.events[i].payload.Json? && GetMapping(t, t.events[i].business).Ok? ==>
        var row := t.events[i]; var f := row.payload.value; var mapping := GetMapping(t, row.business).value;
        (ReadEvent(t, id) == Ok(Some(f)) <==>
           && BoundToRow(f, row, mapping) && BoundToMapping(f, row.run, mapping)
           && (row.corrects.Some? ==> row.corrects.value != row.id && OriginalOf(ReadEvent(t, row.corrects.value), row)))
    ensures ReadEvent(t, id).Ok? && ReadEvent(t, id).value.Some? ==>
      FindEvent(t.events, id) < |t.events| && t.events[FindEvent(t.events, id)].payload == Json(ReadEvent(t, id).value.value)
  {
  }
}
