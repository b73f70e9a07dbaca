/** Migration 0007: number the events that predate commit sequences in insertion order, so that
    the ledger can go on numbering from the maximum. The loop can stop after any update. */
module Migration0007 {
  import opened Outcomes
  import opened Identities
  import opened LedgerTables
  import opened CommitProtocol

  /** `COALESCE(MAX(event_sequence), 0)`. */
  function Base(rows: seq<EventRow>): int {
    var m := MaxSequence(rows);
    if m.Some? then m.value else 0
  }

  /** The unnumbered events in rowid order. */
  function Unnumbered(rows: seq<EventRow>): seq<EventId> {
    if rows == [] then []
    else Unnumbered(rows[..|rows| - 1])
         + if rows[|rows| - 1].sequence.None? then [rows[|rows| - 1].id] else []
  }

  /** The first k unnumbered rows get the numbers after `from`, in rowid order. */
  function Assign(rows: seq<EventRow>, from: int, k: nat): seq<EventRow> {
    if rows == [] then []
    else
      var init, last := rows[..|rows| - 1], rows[|rows| - 1];
      var n := |Unnumbered(init)|;
      Assign(init, from, k)
      + [if last.sequence.None? && n < k then last.(sequence := Some(from + n + 1)) else last]
  }

  /** What one uninterrupted run leaves. */
  function Backfilled(rows: seq<EventRow>): seq<EventRow> {
    Assign(rows, Base(rows), |Unnumbered(rows)|)
  }

  /** `UPDATE decision_events SET event_sequence = … WHERE decision_event_id = …`. */
  function Update(rows: seq<EventRow>, id: EventId, number: int): seq<EventRow> {
    seq(|rows|, i requires 0 <= i < |rows| =>
      if rows[i].id == id then rows[i].(sequence := Some(number)) else rows[i])
  }

  // ---- the assignment, row by row -----------------------------------------------------

  /** Row i keeps everything but a missing number, and a missing number is the base plus the
      row's rank among the unnumbered rows. */
  lemma {:induction false} AssignAt(rows: seq<EventRow>, from: int, k: nat, i: nat)
    requires i < |rows|
    ensures |Assign(rows, from, k)| == |rows|
    ensures Assign(rows, from, k)[i] ==
      if rows[i].sequence.None? && |Unnumbered(rows[..i])| < k
      then rows[i].(sequence := Some(from + |Unnumbered(rows[..i])| + 1)) else rows[i]
  {
    var init := rows[..|rows| - 1];
    if i < |init| {
      AssignAt(init, from, k, i);
      assert init[..i] == rows[..i];
    } else if init != [] {
      AssignAt(init, from, k, 0);
    }
  }

  lemma {:induction false} AssignLength(rows: seq<EventRow>, from: int, k: nat)
    ensures |Assign(rows, from, k)| == |rows|
  {
    if rows != [] {
      AssignAt(rows, from, k, 0);
    }
  }

  lemma {:induction false} UnnumberedGrows(rows: seq<EventRow>, i: nat, j: nat)
    requires i <= j <= |rows|
    ensures |Unnumbered(rows[..i])| <= |Unnumbered(rows[..j])|
    ensures i < j && rows[i].sequence.None? ==> |Unnumbered(rows[..i])| < |Unnumbered(rows[..j])|
    decreases j
  {
    if i < j {
      assert rows[..j][..j - 1] == rows[..j - 1];
      UnnumberedGrows(rows, i, j - 1);
    }
  }

  /** Numbering k rows leaves the later unnumbered rows, in order. */
  lemma {:induction false} UnnumberedAfter(rows: seq<EventRow>, from: int, k: nat)
    ensures |Unnumbered(Assign(rows, from, k))|
         == if k < |Unnumbered(rows)| then |Unnumbered(rows)| - k else 0
  {
    if rows != [] {
      var init, r := rows[..|rows| - 1], Assign(rows, from, k);
      AssignLength(init, from, k);
      assert r[..|r| - 1] == Assign(init, from, k);
      UnnumberedAfter(init, from, k);
    }
  }

  lemma {:induction false} AssignNothing(rows: seq<EventRow>, from: int)
    ensures Assign(rows, from, 0) == rows
  {
    AssignLength(rows, from, 0);
    forall i | 0 <= i < |rows|
      ensures Assign(rows, from, 0)[i] == rows[i]
    {
      AssignAt(rows, from, 0, i);
    }
  }

  /** The unnumbered row with the given rank. */
  lemma {:induction false} RankedRow(rows: seq<EventRow>, rank: nat) returns (i: nat)
    requires rank < |Unnumbered(rows)|
    ensures i < |rows| && rows[i].sequence.None?
    ensures |Unnumbered(rows[..i])| == rank && Unnumbered(rows)[rank] == rows[i].id
  {
    var init := rows[..|rows| - 1];
    if rank < |Unnumbered(init)| {
      i := RankedRow(init, rank);
      assert init[..i] == rows[..i];
    } else {
      i := |rows| - 1;
    }
  }

  /** No number that k updates leave behind exceeds the base by more than k. */
  lemma {:induction false} NumbersStayBelow(rows: seq<EventRow>, from: int, k: nat, i: nat)
    requires from == Base(rows) && i < |rows|
    ensures i < |Assign(rows, from, k)|
    ensures Assign(rows, from, k)[i].sequence.Some? ==> Assign(rows, from, k)[i].sequence.value <= from + k
  {
    hide Assign, MaxSequence;
    AssignAt(rows, from, k, i);
    MaxIsReached(rows);
  }

  /** After k of the updates the maximum has moved up by exactly their number. */
  lemma {:induction false} BaseAfter(rows: seq<EventRow>, from: int, k: nat)
    requires from == Base(rows)
    requires k <= |Unnumbered(rows)|
    ensures Base(Assign(rows, from, k)) == from + k
  {
    hide Assign, MaxSequence, Unnumbered;
    var r := Assign(rows, from, k);
    AssignLength(rows, from, k);
    if k == 0 {
      AssignNothing(rows, from);
    } else {
      MaxIsReached(r);
      forall i | 0 <= i < |r|
        ensures r[i].sequence.Some? ==> r[i].sequence.value <= from + k
      {
        NumbersStayBelow(rows, from, k, i);
      }
      var i := RankedRow(rows, k - 1);
      AssignAt(rows, from, k, i);
      assert r[i].sequence == Some(from + k);
    }
  }

  /** Stopping after any k updates and running again gives the assignment of one uninterrupted run. */
  lemma {:induction false} BackfillResumes(rows: seq<EventRow>, k: nat)
    requires k <= |Unnumbered(rows)|
    ensures Backfilled(Assign(rows, Base(rows), k)) == Backfilled(rows)
  {
    hide Assign, Unnumbered, Base;
    var from := Base(rows);
    var mid := Assign(rows, from, k);
    var n := |Unnumbered(rows)|;
    BaseAfter(rows, from, k);
    UnnumberedAfter(rows, from, k);
    AssignLength(rows, from, k);
    AssignLength(rows, from, n);
    AssignLength(mid, from + k, n - k);
    var resumed, once := Assign(mid, from + k, n - k), Assign(rows, from, n);
    forall i | 0 <= i < |rows|
      ensures resumed[i] == once[i]
    {
      ResumedAt(rows, from, k, i);
    }
    assert resumed == once;
  }

  lemma {:induction false} ResumedAt(rows: seq<EventRow>, from: int, k: nat, i: nat)
    requires k <= |Unnumbered(rows)| && i < |rows|
    ensures i < |Assign(Assign(rows, from, k), from + k, |Unnumbered(rows)| - k)|
    ensures i < |Assign(rows, from, |Unnumbered(rows)|)|
    ensures Assign(Assign(rows, from, k), from + k, |Unnumbered(rows)| - k)[i]
         == Assign(rows, from, |Unnumbered(rows)|)[i]
  {
    hide Assign, Unnumbered;
    var n, mid := |Unnumbered(rows)|, Assign(rows, from, k);
    AssignAt(rows, from, k, i);
    AssignAt(rows, from, n, i);
    AssignAt(mid, from + k, n - k, i);
    PrefixOfAssign(rows, from, k, i);
    UnnumberedAfter(rows[..i], from, k);
    UnnumberedGrows(rows, i, |rows|);
    assert rows[..|rows|] == rows;
  }

  lemma {:induction false} PrefixOfAssign(rows: seq<EventRow>, from: int, k: nat, i: nat)
    requires i <= |rows|
    ensures i <= |Assign(rows, from, k)|
    ensures Assign(rows, from, k)[..i] == Assign(rows[..i], from, k)
  {
    AssignLength(rows, from, k);
    if i < |rows| {
      var init := rows[..|rows| - 1];
      PrefixOfAssign(init, from, k, i);
      AssignLength(init, from, k);
      assert init[..i] == rows[..i];
    } else {
      assert rows[..i] == rows;
    }
  }

  /** Updates made by interrupted runs, each starting over from the table it finds. */
  function AfterStops(rows: seq<EventRow>, stops: seq<nat>): seq<EventRow>
    decreases |stops|
  {
    if stops == [] then rows
    else
      var n := |Unnumbered(rows)|;
      AfterStops(Assign(rows, Base(rows), if stops[0] < n then stops[0] else n), stops[1..])
  }

  /** Any number of interrupted runs followed by a completed one equals one uninterrupted run. */
  lemma {:induction false} StopsDoNotMatter(rows: seq<EventRow>, stops: seq<nat>)
    ensures Backfilled(AfterStops(rows, stops)) == Backfilled(rows)
    decreases |stops|
  {
    if stops != [] {
      var n := |Unnumbered(rows)|;
      var k := if stops[0] < n then stops[0] else n;
      BackfillResumes(rows, k);
      StopsDoNotMatter(Assign(rows, Base(rows), k), stops[1..]);
    }
  }

  ghost predicate DistinctNumbers(rows: seq<EventRow>) {
    forall i, j :: 0 <= i < j < |rows| && rows[i].sequence.Some? ==> rows[i].sequence != rows[j].sequence
  }

  /** What the completed backfill leaves in row i. */
  lemma {:induction false} BackfilledAt(rows: seq<EventRow>, i: nat)
    requires i < |rows|
    ensures |Backfilled(rows)| == |rows|
    ensures Backfilled(rows)[i] == if rows[i].sequence.None?
      then rows[i].(sequence := Some(Base(rows) + |Unnumbered(rows[..i])| + 1)) else rows[i]
    ensures rows[i].sequence.Some? ==> rows[i].sequence.value <= Base(rows)
  {
    hide Assign, MaxSequence, Unnumbered;
    assert rows[..|rows|] == rows;
    AssignAt(rows, Base(rows), |Unnumbered(rows)|, i);
    UnnumberedGrows(rows, i, |rows|);
    MaxIsReached(rows);
  }

  /** The completed backfill meets the ledger's numbering invariant: no row without a number, no
      number twice. Existing numbers stay, and the new ones exceed the old maximum and increase
      with the rowid. */
  lemma {:induction false} BackfillNumbersAll(rows: seq<EventRow>)
    requires DistinctNumbers(rows)
    ensures var r := Backfilled(rows);
      && |r| == |rows|
      && Numbered(r)
      && (forall i :: 0 <= i < |rows| ==> r[i].(sequence := None) == rows[i].(sequence := None))
      && (forall i :: 0 <= i < |rows| && rows[i].sequence.Some? ==> r[i] == rows[i])
      && (forall i :: 0 <= i < |rows| && rows[i].sequence.None? ==> r[i].sequence.value > Base(rows))
      && (forall i, j :: 0 <= i < j < |rows| && rows[i].sequence.None? && rows[j].sequence.None? ==>
            r[i].sequence.value < r[j].sequence.value)
  {
    hide Backfilled, Base, Unnumbered;
    var r := Backfilled(rows);
    assert |r| == |rows| by { BackfillKeepsLength(rows); }
    forall i | 0 <= i < |rows|
      ensures r[i] == if rows[i].sequence.None?
        then rows[i].(sequence := Some(Base(rows) + |Unnumbered(rows[..i])| + 1)) else rows[i]
    {
      BackfilledAt(rows, i);
    }
    forall i, j | 0 <= i < j < |rows|
      ensures r[i].sequence != r[j].sequence
      ensures rows[i].sequence.None? && rows[j].sequence.None? ==> r[i].sequence.value < r[j].sequence.value
    {
      BackfilledAt(rows, i);
      BackfilledAt(rows, j);
      UnnumberedGrows(rows, i, j);
    }
  }

  lemma {:induction false} BackfillKeepsLength(rows: seq<EventRow>)
    ensures |Backfilled(rows)| == |rows|
  {
    AssignLength(rows, Base(rows), |Unnumbered(rows)|);
  }

  // ---- the loop ------------------------------------------------------------------------------

  lemma {:induction false} UpdateIsNextAssignment(rows: seq<EventRow>, from: int, k: nat)
    requires UniqueEvents(rows)
    requires k < |Unnumbered(rows)|
    ensures Update(Assign(rows, from, k), Unnumbered(rows)[k], from + k + 1) == Assign(rows, from, k + 1)
  {
    var p := RankedRow(rows, k);
    AssignLength(rows, from, k);
    AssignLength(rows, from, k + 1);
    var updated, goal := Update(Assign(rows, from, k), rows[p].id, from + k + 1), Assign(rows, from, k + 1);
    forall i | 0 <= i < |rows|
      ensures updated[i] == goal[i]
    {
      AssignAt(rows, from, k, i);
      AssignAt(rows, from, k + 1, i);
      if i < p {
        UnnumberedGrows(rows, i, p);
      } else if p < i {
        UnnumberedGrows(rows, p, i);
      }
    }
  }

  class EventTable {
    var rows: seq<EventRow>

    constructor (saved: seq<EventRow>)
      ensures rows == saved
    {
      rows := saved;
    }

    /** `_backfill_event_sequences`, stopped after at most `limit` updates. */
    method BackfillEventSequences(limit: nat)
      requires UniqueEvents(rows)
      modifies this
      ensures var n := |Unnumbered(old(rows))|;
        rows == Assign(old(rows), Base(old(rows)), if limit < n then limit else n)
      ensures limit >= |Unnumbered(old(rows))| ==> rows == Backfilled(old(rows))
    {
      hide Assign, Unnumbered, Update, Base;
      var base, ids := Base(rows), Unnumbered(rows);
      var next, done := base, 0;
      AssignNothing(rows, base);
      while done < |ids| && done < limit
        invariant 0 <= done <= |ids| && done <= limit
        invariant next == base + done
        invariant rows == Assign(old(rows), base, done)
      {
        next := next + 1;
        UpdateIsNextAssignment(old(rows), base, done);
        rows := Update(rows, ids[done], next);
        done := done + 1;
      }
    }
  }

  // ---- downgrade and renumbering ---------------------------------------------------------------

  /** A downgrade drops the column; a later upgrade starts from unnumbered rows. */
  function Stripped(rows: seq<EventRow>): seq<EventRow> {
    seq(|rows|, i requires 0 <= i < |rows| => rows[i].(sequence := None))
  }

  lemma {:induction false} StrippedUnnumbered(rows: seq<EventRow>, i: nat)
    requires i <= |rows|
    ensures |Unnumbered(Stripped(rows)[..i])| == i
  {
    if i > 0 {
      assert Stripped(rows)[..i][..i - 1] == Stripped(rows)[..i - 1];
      StrippedUnnumbered(rows, i - 1);
    }
  }

  /** After a downgrade and an upgrade the numbers are the row positions. */
  lemma {:induction false} RenumberedByPosition(rows: seq<EventRow>, i: nat)
    requires i < |rows|
    ensures |Backfilled(Stripped(rows))| == |rows|
    ensures Backfilled(Stripped(rows))[i] == rows[i].(sequence := Some(i + 1))
  {
    var s := Stripped(rows);
    MaxIsReached(s);
    assert s[..|s|] == s;
    StrippedUnnumbered(rows, |rows|);
    StrippedUnnumbered(rows, i);
    AssignAt(s, Base(s), |s|, i);
  }

  ghost predicate Increasing(rows: seq<EventRow>) {
    forall i, j :: 0 <= i < j < |rows| ==> Outranks(rows, i, j)
  }

  /** Downgrading and upgrading again keeps the order in which events are read exactly when the
      numbers increased with the row position, which every ledger run keeps. */
  lemma {:induction false} RenumberingKeepsOrderIff(rows: seq<EventRow>)
    requires Numbered(rows)
    ensures var r := Backfilled(Stripped(rows));
      && |r| == |rows|
      && ((forall i, j :: 0 <= i < |rows| && 0 <= j < |rows| ==> (Outranks(rows, i, j) <==> Outranks(r, i, j)))
          <==> Increasing(rows))
  {
    var r := Backfilled(Stripped(rows));
    if rows != [] {
      RenumberedByPosition(rows, 0);
    } else {
      AssignLength(Stripped(rows), Base(Stripped(rows)), |Unnumbered(Stripped(rows))|);
    }
    forall i | 0 <= i < |rows|
      ensures r[i].sequence == Some(i + 1)
    {
      RenumberedByPosition(rows, i);
    }
    if Increasing(rows) {
      forall i, j | 0 <= i < |rows| && 0 <= j < |rows|
        ensures Outranks(rows, i, j) <==> Outranks(r, i, j)
      {
        if j < i {
          assert Outranks(rows, j, i);
        }
      }
    }
    if forall i, j :: 0 <= i < |rows| && 0 <= j < |rows| ==> (Outranks(rows, i, j) <==> Outranks(r, i, j)) {
      forall i, j | 0 <= i < j < |rows|
        ensures Outranks(rows, i, j)
      {
        assert Outranks(r, i, j);
      }
    }
  }

  /** Two events, the first without a number although the second has one. */
  function LateNumber(first: EventRow, second: EventRow): seq<EventRow> {
    [first.(sequence := None), second.(sequence := Some(1))]
  }

  /** The order can change: such a table is backfilled against its row order, and undoing and
      repeating the migration turns the two events round. */
  lemma {:induction false} RenumberingChangesOrder(first: EventRow, second: EventRow)
    ensures var rows := Backfilled(LateNumber(first, second)); var again := Backfilled(Stripped(rows));
      && |rows| == |again| == 2 && Numbered(rows)
      && Outranks(rows, 1, 0) && Outranks(again, 0, 1)
  {
    hide Backfilled;
    var late := LateNumber(first, second);
    BackfillNumbersAll(late);
    MaxIsReached(late);
    var rows := Backfilled(late);
    assert rows[1] == late[1] && rows[0].sequence.value > Base(late);
    RenumberedByPosition(rows, 0);
    RenumberedByPosition(rows, 1);
  }

  lemma {:induction false} RunsKeepNumbersIncreasing(s: Store, actions: seq<Action>)
    requires Inv(s) && Increasing(s.durable.events)
    ensures Increasing(Run(s, actions).durable.events)
  {
    RunKeepsLedger(s, actions);
    var a, b := s.durable.events, Run(s, actions).durable.events;
    forall i, j | 0 <= i < j < |b|
      ensures Outranks(b, i, j)
    {
      if j < |a| {
        assert Outranks(a, i, j);
        assert b[i] == a[i] && b[j] == a[j];
      }
    }
  }

  // ---- an interrupted downgrade -------------------------------------------------------------------

  datatype Numbers = Numbers(column: bool, index: bool, rows: seq<EventRow>)

  datatype Files = Files(events: Option<Numbers>, replacement: Option<seq<EventRow>>)

  /** A table without the column holds no numbers, and one of the two tables exists. */
  ghost predicate WellFormed(d: Files) {
    && (d.events.Some? && !d.events.value.column ==>
          !d.events.value.index && Stripped(d.events.value.rows) == d.events.value.rows)
    && (d.events.None? ==> d.replacement.Some? && Stripped(d.replacement.value) == d.replacement.value)
  }

  /** Every durable state of one downgrade: repair, then drop the index, create the replacement,
      copy, drop, rename. */
  function DowngradeStates(d: Files): (states: seq<Files>)
    ensures states != [] && states[0] == d
  {
    if d.events.None? then
      [d] + if d.replacement.Some? then [Files(Some(Numbers(false, false, d.replacement.value)), None)] else []
    else
      var t := d.events.value;
      var kept := Some(t.(index := false));
      [d] + (if d.replacement.Some? then [Files(d.events, None)] else [])
      + if !t.column then []
        else (if t.index then [Files(kept, None)] else [])
             + [Files(kept, Some([])), Files(kept, Some(Stripped(t.rows))),
                Files(None, Some(Stripped(t.rows))), Files(Some(Numbers(false, false, Stripped(t.rows))), None)]
  }

  /** What a completed downgrade leaves, said without its steps. */
  function Downgraded(d: Files): Files
    requires d.events.Some? || d.replacement.Some?
  {
    Files(Some(Numbers(false, false, Stripped(if d.events.Some? then d.events.value.rows else d.replacement.value))), None)
  }

  lemma {:induction false} StrippedTwice(rows: seq<EventRow>)
    ensures Stripped(Stripped(rows)) == Stripped(rows) && |Stripped(rows)| == |rows|
  {
  }

  /** The rows of the table that a repair would go on with. */
  function SavedRows(d: Files): seq<EventRow> {
    if d.events.Some? then d.events.value.rows else if d.replacement.Some? then d.replacement.value else []
  }

  /** A downgraded database has one table, without the column, and every event in it. */
  lemma {:induction false} DowngradedIs(d: Files)
    requires d.events.Some? || d.replacement.Some?
    ensures var e := Downgraded(d);
      && e.replacement.None? && e.events.Some? && !e.events.value.column && !e.events.value.index
      && |SavedRows(e)| == |SavedRows(d)|
      && forall k :: 0 <= k < |SavedRows(d)| ==> SavedRows(e)[k] == SavedRows(d)[k].(sequence := None)
  {
  }

  /** From every durable state of a downgrade, the next one ends as the uninterrupted one would,
      and no event is lost on the way. */
  lemma {:induction false} DowngradeResumes(d: Files, i: nat)
    requires WellFormed(d)
    requires i < |DowngradeStates(d)|
    ensures var e := DowngradeStates(d)[i]; WellFormed(e) && Downgraded(e) == Downgraded(d)
    ensures var e := DowngradeStates(d)[i];
      && |SavedRows(e)| == |SavedRows(d)|
      && forall k :: 0 <= k < |SavedRows(d)| ==> SavedRows(e)[k].(sequence := None) == SavedRows(d)[k].(sequence := None)
    ensures var states := DowngradeStates(d); states[|states| - 1] == Downgraded(d)
  {
    assert forall rows: seq<EventRow>, k :: 0 <= k < |rows| ==> Stripped(rows)[k] == rows[k].(sequence := None);
    hide Stripped;
    assert forall rows :: Stripped(Stripped(rows)) == Stripped(rows) && |Stripped(rows)| == |rows| by {
      forall rows { StrippedTwice(rows); }
    }
  }

  function AfterDowngrades(d: Files, stops: seq<nat>): Files
    decreases |stops|
  {
    if stops == [] then d
    else
      var states := DowngradeStates(d);
      AfterDowngrades(states[if stops[0] < |states| then stops[0] else |states| - 1], stops[1..])
  }

  /** With a crash after any durable step, any number of times, a later completed downgrade ends
      in the database of an uninterrupted one. */
  lemma {:induction false} DowngradeCrashesDoNotMatter(d: Files, stops: seq<nat>)
    requires WellFormed(d)
    ensures var e := AfterDowngrades(d, stops); var states := DowngradeStates(e);
      WellFormed(e) && states[|states| - 1] == Downgraded(d)
    decreases |stops|
  {
    hide DowngradeStates, Downgraded;
    var states := DowngradeStates(d);
    var k := if stops != [] && stops[0] < |states| then stops[0] else |states| - 1;
    DowngradeResumes(d, k);
    if stops != [] {
      DowngradeCrashesDoNotMatter(states[k], stops[1..]);
    }
  }
}
