/** The append-only stage table of the decision ledger: occurrence identities,
    repeatable and non-repeatable recording, and the backfill of a committed fact. */
module StageHistory {
  import opened Outcomes
  import opened StageResults
  import opened Identities

  /** Everything the occurrence count compares: the owner columns and the payload. */
  datatype StageKey = StageKey(business: string, run: string, event: Option<EventId>, result: StageResult)

  /** SHA-256 stage identities as injective constructors. The ledger hashes an
      occurrence number or null; the 0004 migration hashes no occurrence at all. */
  datatype StageEventId =
    | Generated(key: StageKey, occurrence: Option<nat>)
    | Migrated(key: StageKey)
    | Supplied(text: string)

  datatype StageRow = StageRow(id: StageEventId, key: StageKey, recordedAt: int)

  type History = seq<StageRow>

  /** How many rows carry the key. */
  function Count(h: History, key: StageKey): nat {
    if h == [] then 0
    else Count(h[..|h| - 1], key) + if h[|h| - 1].key == key then 1 else 0
  }

  predicate HasId(h: History, id: StageEventId) {
    exists i :: 0 <= i < |h| && h[i].id == id
  }

  ghost predicate UniqueIds(h: History) {
    forall i, j :: 0 <= i < j < |h| ==> h[i].id != h[j].id
  }

  /** A content-addressed row carries the content its id was made from, and a numbered
      row's occurrence is exactly its rank among the rows of its key. */
  ghost predicate RowBound(h: History, i: nat)
    requires i < |h|
  {
    match h[i].id
    case Generated(key, occurrence) =>
      && key == h[i].key
      && Count(h[..i + 1], key) == (if occurrence.Some? then occurrence.value else 1)
    case Migrated(key) => key == h[i].key
    case Supplied(_) => true
  }

  ghost predicate Bound(h: History) {
    && UniqueIds(h)
    && forall i :: 0 <= i < |h| ==> RowBound(h, i)
  }

  // ---- counting -------------------------------------------------------------

  lemma {:induction false} CountAppend(h: History, row: StageRow, key: StageKey)
    ensures Count(h + [row], key) == Count(h, key) + if row.key == key then 1 else 0
  {
  }

  lemma {:induction false} CountGrows(h: History, tail: History, key: StageKey)
    ensures Count(h, key) <= Count(h + tail, key)
    decreases |tail|
  {
    if tail == [] {
      assert h + tail == h;
    } else {
      var init := tail[..|tail| - 1];
      CountGrows(h, init, key);
      assert h + tail == (h + init) + [tail[|tail| - 1]];
      CountAppend(h + init, tail[|tail| - 1], key);
    }
  }

  lemma {:induction false} CountPrefix(h: History, k: nat, key: StageKey)
    requires k <= |h|
    ensures Count(h[..k], key) <= Count(h, key)
  {
    assert h == h[..k] + h[k..];
    CountGrows(h[..k], h[k..], key);
  }

  lemma {:induction false} CountWitness(h: History, key: StageKey)
    ensures Count(h, key) > 0 <==> exists i :: 0 <= i < |h| && h[i].key == key
  {
    if h != [] {
      CountWitness(h[..|h| - 1], key);
      assert forall i :: 0 <= i < |h| - 1 ==> h[..|h| - 1][i] == h[i];
      if Count(h, key) > 0 && h[|h| - 1].key != key {
        var i :| 0 <= i < |h| - 1 && h[..|h| - 1][i].key == key;
        assert h[i].key == key;
      }
    }
  }

  // ---- recording ------------------------------------------------------------

  datatype StageError = IdentityMapsToDifferentResults

  /** `_insert_or_validate_stage_result`: insert a new identity, or check an old one. */
  function InsertOrValidate(h: History, id: StageEventId, key: StageKey, at: int): Result<History, StageError> {
    if !HasId(h, id) then
      Ok(h + [StageRow(id, key, at)])
    else if exists i :: 0 <= i < |h| && h[i].id == id && h[i].key != key then
      Err(IdentityMapsToDifferentResults)
    else
      Ok(h)
  }

  function NextId(h: History, key: StageKey, repeated: bool): StageEventId {
    Generated(key, if repeated then Some(Count(h, key) + 1) else None)
  }

  /** `record_stage_result` with a generated id. */
  function Record(h: History, key: StageKey, repeated: bool, at: int): Result<History, StageError> {
    if Count(h, key) > 0 && !repeated then Ok(h)
    else InsertOrValidate(h, NextId(h, key, repeated), key, at)
  }

  /** One call of `record_stage_result`. */
  datatype StageCall =
    | Append(key: StageKey, repeated: bool, at: int)
    | AppendAs(text: string, key: StageKey, at: int)

  function Call(h: History, call: StageCall): Result<History, StageError> {
    match call
    case Append(key, repeated, at) => Record(h, key, repeated, at)
    case AppendAs(text, key, at) => InsertOrValidate(h, Supplied(text), key, at)
  }

  /** A refused call raises and leaves the table as it was. */
  function Settle(h: History, r: Result<History, StageError>): History {
    if r.Ok? then r.value else h
  }

  function Calls(h: History, calls: seq<StageCall>): History
    decreases |calls|
  {
    if calls == [] then h
    else Calls(Settle(h, Call(h, calls[0])), calls[1..])
  }

  /** The generated identity is never already in a bound table. */
  lemma {:induction false} GeneratedIdIsFresh(h: History, key: StageKey, repeated: bool)
    requires Bound(h)
    requires repeated || Count(h, key) == 0
    ensures !HasId(h, NextId(h, key, repeated))
  {
    forall i | 0 <= i < |h|
      ensures h[i].id != NextId(h, key, repeated)
    {
      assert RowBound(h, i);
      CountPrefix(h, i + 1, key);
    }
  }

  lemma {:induction false} BoundAppend(h: History, row: StageRow)
    requires Bound(h)
    requires !HasId(h, row.id)
    requires row.id.Generated? ==>
      row.id.key == row.key
      && Count(h, row.key) + 1 == (if row.id.occurrence.Some? then row.id.occurrence.value else 1)
    requires row.id.Migrated? ==> row.id.key == row.key
    ensures Bound(h + [row])
  {
    var g := h + [row];
    forall i | 0 <= i < |g|
      ensures RowBound(g, i)
    {
      if i < |h| {
        assert RowBound(h, i);
        assert g[..i + 1] == h[..i + 1];
      } else {
        assert g[..i + 1] == g;
        CountAppend(h, row, row.key);
      }
    }
  }

  /** What one call does to a bound table: a repeat appends exactly one row, a non-repeat
      appends one exactly when its key is absent, neither ever fails, and nothing but the
      end of the table changes. */
  lemma {:induction false} CallEffect(h: History, call: StageCall)
    requires Bound(h)
    ensures var g := Settle(h, Call(h, call));
      && Bound(g)
      && h <= g
      && |g| <= |h| + 1
      && (call.Append? ==>
           && Call(h, call).Ok?
           && (|g| == |h| + 1 <==> call.repeated || Count(h, call.key) == 0)
           && Count(g, call.key) > 0)
      && (|g| == |h| + 1 ==> g[|h|].key == call.key && g[|h|].recordedAt == call.at)
  {
    match call
    case Append(key, repeated, at) =>
      if repeated || Count(h, key) == 0 {
        GeneratedIdIsFresh(h, key, repeated);
        var row := StageRow(NextId(h, key, repeated), key, at);
        BoundAppend(h, row);
        CountAppend(h, row, key);
      }
    case AppendAs(text, key, at) =>
      if !HasId(h, Supplied(text)) {
        BoundAppend(h, StageRow(Supplied(text), key, at));
      }
  }

  /** Over every sequence of calls the table stays bound and is only extended at its end. */
  lemma {:induction false} CallsExtend(h: History, calls: seq<StageCall>)
    requires Bound(h)
    ensures Bound(Calls(h, calls))
    ensures h <= Calls(h, calls)
    decreases |calls|
  {
    if calls != [] {
      CallEffect(h, calls[0]);
      CallsExtend(Settle(h, Call(h, calls[0])), calls[1..]);
    }
  }

  /** A supplied identity is accepted again with the same content and refused with any other. */
  lemma {:induction false} SuppliedIdentityIsPinned(h: History, text: string, key: StageKey, other: StageKey, at: int, later: int)
    requires Bound(h)
    requires InsertOrValidate(h, Supplied(text), key, at).Ok?
    ensures var g := InsertOrValidate(h, Supplied(text), key, at).value;
      && InsertOrValidate(g, Supplied(text), key, later) == Ok(g)
      && (other != key ==> InsertOrValidate(g, Supplied(text), other, later).Err?)
  {
    var g := InsertOrValidate(h, Supplied(text), key, at).value;
    if !HasId(h, Supplied(text)) {
      assert g[|h|].id == Supplied(text) && g[|h|].key == key;
    } else {
      var i :| 0 <= i < |h| && h[i].id == Supplied(text);
      assert g == h && g[i].key == key;
    }
  }

  // ---- backfill of a committed fact -----------------------------------------

  /** `ensure_event_stage_results` walks these keys with non-repeated recording. */
  function Backfill(h: History, keys: seq<StageKey>, at: int): History {
    if keys == [] then h
    else
      var init := Backfill(h, keys[..|keys| - 1], at);
      Settle(init, Record(init, keys[|keys| - 1], false, at))
  }

  /** A row without its clock: what a resumed backfill must reproduce. */
  function Erase(h: History): seq<(StageEventId, StageKey)> {
    seq(|h|, i requires 0 <= i < |h| => (h[i].id, h[i].key))
  }

  lemma {:induction false} CountErased(a: History, b: History, key: StageKey)
    requires Erase(a) == Erase(b)
    ensures Count(a, key) == Count(b, key)
  {
    assert |a| == |Erase(a)| && |b| == |Erase(b)|;
    if a != [] {
      var a', b' := a[..|a| - 1], b[..|b| - 1];
      assert Erase(a') == Erase(a)[..|a'|] && Erase(b') == Erase(b)[..|b'|];
      CountErased(a', b', key);
      assert Erase(a)[|a'|] == Erase(b)[|b'|];
    }
  }

  /** The backfill keeps the table bound, only extends it, and covers every key. */
  lemma {:induction false} BackfillCovers(h: History, keys: seq<StageKey>, at: int)
    requires Bound(h)
    ensures var g := Backfill(h, keys, at);
      && Bound(g) && h <= g
      && (forall key :: key in keys ==> Count(g, key) > 0)
      && (forall i :: |h| <= i < |g| ==> g[i].key in keys)
  {
    if keys != [] {
      var init, last := keys[..|keys| - 1], keys[|keys| - 1];
      BackfillCovers(h, init, at);
      var mid := Backfill(h, init, at);
      CallEffect(mid, Append(last, false, at));
      var g := Backfill(h, keys, at);
      forall key | key in keys
        ensures Count(g, key) > 0
      {
        assert keys == init + [last];
        if key in init {
          assert g == mid + g[|mid|..];
          CountGrows(mid, g[|mid|..], key);
        }
      }
    }
  }

  lemma {:induction false} BackfillConcat(h: History, a: seq<StageKey>, b: seq<StageKey>, at: int)
    ensures Backfill(h, a + b, at) == Backfill(Backfill(h, a, at), b, at)
    decreases |b|
  {
    if b == [] {
      assert a + b == a;
    } else {
      var init := b[..|b| - 1];
      assert (a + b)[..|a + b| - 1] == a + init;
      BackfillConcat(h, a, init, at);
    }
  }

  /** A covered table is left alone, whatever else was recorded in it since. */
  lemma {:induction false} BackfillCoveredIsIdentity(h: History, keys: seq<StageKey>, at: int)
    requires forall key :: key in keys ==> Count(h, key) > 0
    ensures Backfill(h, keys, at) == h
  {
    if keys != [] {
      assert keys[|keys| - 1] in keys;
      BackfillCoveredIsIdentity(h, keys[..|keys| - 1], at);
    }
  }

  lemma {:induction false} BackfillErased(a: History, b: History, keys: seq<StageKey>, t: int, u: int)
    requires Bound(a) && Bound(b)
    requires Erase(a) == Erase(b)
    ensures Erase(Backfill(a, keys, t)) == Erase(Backfill(b, keys, u))
  {
    if keys != [] {
      var init, last := keys[..|keys| - 1], keys[|keys| - 1];
      BackfillErased(a, b, init, t, u);
      BackfillCovers(a, init, t);
      BackfillCovers(b, init, u);
      var a', b' := Backfill(a, init, t), Backfill(b, init, u);
      CountErased(a', b', last);
      if Count(a', last) == 0 {
        GeneratedIdIsFresh(a', last, false);
        GeneratedIdIsFresh(b', last, false);
        assert Erase(Backfill(a, keys, t)) == Erase(a') + [(Generated(last, None), last)];
        assert Erase(Backfill(b, keys, u)) == Erase(b') + [(Generated(last, None), last)];
      }
    }
  }

  /** Interrupting the backfill after any prefix and running it again from the start, at any
      later time, yields the rows of one uninterrupted run. */
  lemma {:induction false} BackfillResumes(h: History, keys: seq<StageKey>, k: nat, t: int, u: int)
    requires Bound(h)
    requires k <= |keys|
    ensures Erase(Backfill(Backfill(h, keys[..k], t), keys, u)) == Erase(Backfill(h, keys, t))
  {
    var a, b := keys[..k], keys[k..];
    assert keys == a + b;
    var mid := Backfill(h, a, t);
    BackfillCovers(h, a, t);
    BackfillConcat(mid, a, b, u);
    BackfillCoveredIsIdentity(mid, a, u);
    BackfillErased(mid, mid, b, u, t);
    BackfillConcat(h, a, b, t);
  }

  /** A completed backfill, however much was recorded after it, is never repeated. */
  lemma {:induction false} BackfillIsDoneForever(h: History, keys: seq<StageKey>, t: int, u: int, later: seq<StageCall>)
    requires Bound(h)
    ensures var done := Calls(Backfill(h, keys, t), later); Backfill(done, keys, u) == done
  {
    hide Backfill, Calls, Count, Bound;
    BackfillCovers(h, keys, t);
    var full := Backfill(h, keys, t);
    CallsExtend(full, later);
    var done := Calls(full, later);
    forall key | key in keys
      ensures Count(done, key) > 0
    {
      assert done == full + done[|full|..];
      CountGrows(full, done[|full|..], key);
    }
    BackfillCoveredIsIdentity(done, keys, u);
  }

  // ---- the commit gate ------------------------------------------------------

  /** `_has_confirmed_business_commit`: a bound successful host commit was saved. */
  predicate HasConfirmedCommit(h: History, event: EventId) {
    exists i :: 0 <= i < |h| && h[i].key.event == Some(event) && IsSuccess(h[i].key.result, BusinessCommit)
  }

  /** `_has_confirmed_report_visibility`: published, or closed by a recognized failure. */
  predicate HasVisibility(h: History, event: EventId) {
    exists i :: 0 <= i < |h| && h[i].key.event == Some(event)
      && (IsSuccess(h[i].key.result, Publication) || IsClosureFailure(h[i].key.result))
  }

  /** Position of the last business-commit stage, if there is one. */
  function LatestCommit(stages: seq<StageResult>): (r: Option<nat>)
    ensures r.Some? ==> r.value < |stages| && stages[r.value].phase == BusinessCommit
    ensures r.Some? ==> forall j :: r.value < j < |stages| ==> stages[j].phase != BusinessCommit
    ensures r.None? ==> forall j :: 0 <= j < |stages| ==> stages[j].phase != BusinessCommit
  {
    if stages == [] then None
    else if stages[|stages| - 1].phase == BusinessCommit then Some(|stages| - 1)
    else LatestCommit(stages[..|stages| - 1])
  }

  /** The key under which a fact's i-th stage is saved: corrections and the last commit are
      bound to the event, every other stage belongs to the run alone. */
  function FactKey(business: string, run: string, event: EventId, stages: seq<StageResult>, i: nat): StageKey
    requires i < |stages|
  {
    StageKey(business, run,
             if stages[i].phase == Correction || Some(i) == LatestCommit(stages) then Some(event) else None,
             stages[i])
  }

  function FactKeys(business: string, run: string, event: EventId, stages: seq<StageResult>): seq<StageKey> {
    seq(|stages|, i requires 0 <= i < |stages| => FactKey(business, run, event, stages, i))
  }

  /** The key of a stage is bound to its event as a commit only for the last one. */
  lemma {:induction false} OnlyLatestOpens(business: string, run: string, event: EventId, stages: seq<StageResult>, key: StageKey)
    requires key in FactKeys(business, run, event, stages)
    requires key.event == Some(event) && IsSuccess(key.result, BusinessCommit)
    ensures LatestCommit(stages).Some? && stages[LatestCommit(stages).value] == key.result
  {
    var keys := FactKeys(business, run, event, stages);
    var j :| 0 <= j < |keys| && keys[j] == key;
  }

  /** The backfill records the last commit under the event. */
  lemma {:induction false} LatestIsRecorded(h: History, business: string, run: string, event: EventId,
                                            stages: seq<StageResult>, at: int)
    requires Bound(h)
    requires LatestCommit(stages).Some? && stages[LatestCommit(stages).value].status == Succeeded
    ensures HasConfirmedCommit(Backfill(h, FactKeys(business, run, event, stages), at), event)
  {
    hide Bound, Backfill;
    var keys := FactKeys(business, run, event, stages);
    var g, key := Backfill(h, keys, at), keys[LatestCommit(stages).value];
    assert key in keys;
    BackfillCovers(h, keys, at);
    CountWitness(g, key);
    var i :| 0 <= i < |g| && g[i].key == key;
  }

  /** The backfill opens the commit gate exactly when it was open or the fact's last
      business-commit stage succeeded. */
  lemma {:induction false} BackfillOpensGate(h: History, business: string, run: string, event: EventId,
                          stages: seq<StageResult>, at: int)
    requires Bound(h)
    ensures var keys := FactKeys(business, run, event, stages);
      HasConfirmedCommit(Backfill(h, keys, at), event) <==>
      HasConfirmedCommit(h, event)
      || (LatestCommit(stages).Some? && stages[LatestCommit(stages).value].status == Succeeded)
  {
    hide Bound, Backfill, FactKeys, LatestCommit;
    var keys := FactKeys(business, run, event, stages);
    BackfillCovers(h, keys, at);
    var g := Backfill(h, keys, at);
    if HasConfirmedCommit(h, event) {
      var i :| 0 <= i < |h| && h[i].key.event == Some(event) && IsSuccess(h[i].key.result, BusinessCommit);
      assert g[i] == h[i];
    }
    if LatestCommit(stages).Some? && stages[LatestCommit(stages).value].status == Succeeded {
      LatestIsRecorded(h, business, run, event, stages, at);
    }
    if HasConfirmedCommit(g, event) && !HasConfirmedCommit(h, event) {
      var i :| 0 <= i < |g| && g[i].key.event == Some(event) && IsSuccess(g[i].key.result, BusinessCommit);
      assert forall k :: 0 <= k < |h| ==> g[k] == h[k];
      OnlyLatestOpens(business, run, event, stages, g[i].key);
    }
  }

  /** After the backfill of a fact, each of its corrections and its last commit are recorded under
      the event, and each of its other stages under the Run alone. */
  lemma {:induction false} BackfillBinds(h: History, business: string, run: string, event: EventId,
                                         stages: seq<StageResult>, at: int, i: nat)
    requires Bound(h) && i < |stages|
    ensures var g := Backfill(h, FactKeys(business, run, event, stages), at);
      var bound := stages[i].phase == Correction
        || (stages[i].phase == BusinessCommit && forall j :: i < j < |stages| ==> stages[j].phase != BusinessCommit);
      exists k :: 0 <= k < |g| && g[k].key == StageKey(business, run, if bound then Some(event) else None, stages[i])
  {
    hide Bound, Backfill;
    var keys := FactKeys(business, run, event, stages);
    assert keys[i] in keys;
    BackfillCovers(h, keys, at);
    CountWitness(Backfill(h, keys, at), keys[i]);
  }

  // ---- the stage table as one connection sees it ------------------------------

  class StageTable {
    var rows: History

    constructor (saved: History)
      ensures rows == saved
    {
      rows := saved;
    }

    method InsertOrValidateStage(id: StageEventId, key: StageKey, at: int) returns (r: Result<(), StageError>)
      modifies this
      ensures rows == Settle(old(rows), InsertOrValidate(old(rows), id, key, at))
      ensures r.Ok? <==> InsertOrValidate(old(rows), id, key, at).Ok?
    {
      var i := 0;
      while i < |rows| && rows[i].id != id
        invariant 0 <= i <= |rows|
        invariant forall j :: 0 <= j < i ==> rows[j].id != id
        decreases |rows| - i
      {
        i := i + 1;
      }
      if i == |rows| {
        rows := rows + [StageRow(id, key, at)];
        return Ok(());
      }
      if exists j :: 0 <= j < |rows| && rows[j].id == id && rows[j].key != key {
        return Err(IdentityMapsToDifferentResults);
      }
      return Ok(());
    }

    method RecordStageResult(key: StageKey, repeated: bool, at: int) returns (writtenAt: Option<int>)
      requires Bound(rows)
      modifies this
      ensures Bound(rows)
      ensures rows == Settle(old(rows), Record(old(rows), key, repeated, at))
      ensures writtenAt == if |rows| == |old(rows)| + 1 then Some(at) else None
    {
      var occurrences, saved := 0, rows;
      for i := 0 to |saved|
        invariant rows == saved
        invariant occurrences == Count(saved[..i], key)
      {
        CountAppend(saved[..i], saved[i], key);
        assert saved[..i + 1] == saved[..i] + [saved[i]];
        if saved[i].key == key {
          occurrences := occurrences + 1;
        }
      }
      assert saved[..|saved|] == saved;
      CallEffect(rows, Append(key, repeated, at));
      if occurrences > 0 && !repeated {
        return None;
      }
      var id := Generated(key, if repeated then Some(occurrences + 1) else None);
      var _ := InsertOrValidateStage(id, key, at);
      return Some(at);
    }

    method EnsureEventStageResults(business: string, run: string, event: EventId, stages: seq<StageResult>, at: int)
      requires Bound(rows)
      modifies this
      ensures Bound(rows)
      ensures rows == Backfill(old(rows), FactKeys(business, run, event, stages), at)
    {
      ghost var keys := FactKeys(business, run, event, stages);
      var latest := LatestCommit(stages);
      for i := 0 to |stages|
        invariant Bound(rows)
        invariant rows == Backfill(old(rows), keys[..i], at)
      {
        var bound := stages[i].phase == Correction || latest == Some(i);
        var _ := RecordStageResult(
          StageKey(business, run, if bound then Some(event) else None, stages[i]), false, at);
        assert keys[..i + 1][..i] == keys[..i];
      }
      assert keys[..|stages|] == keys;
    }
  }
}
