/**
 * The transactional outbox: one table of rows and the statements that move
 * them between statuses. A table is the sequence of its rows in insertion
 * order, so a row's position is its id and the claim order is ascending.
 * Each statement is a function from table to table; the class at the end runs
 * them in place.
 */
module Outbox {
  import opened Wrappers
  import opened PipelineEvents

  datatype Status = Pending | Processing | Processed | Dead

  datatype Row = Row(
    event: Event,
    status: Status,
    attempts: nat,
    availableAt: int,
    claimedAt: Option<int>,
    processedAt: Option<int>,
    lastError: Option<string>)

  type Table = seq<Row>

  /** A live row absorbs an enqueue: somebody will still run it. */
  predicate Live(row: Row) {
    row.status.Pending? || row.status.Processing?
  }

  // ------------------------------------------------------------------------
  // What every statement keeps
  // ------------------------------------------------------------------------

  /** The unique index on the event id. */
  ghost predicate UniqueIds(table: Table) {
    forall i, j | 0 <= i < j < |table| :: table[i].event.id != table[j].event.id
  }

  /** A waiting row has no claim time; a claimed one has, so it can go stale. */
  ghost predicate ClaimTimesFit(table: Table) {
    forall i | 0 <= i < |table| ::
      && (table[i].status.Pending? ==> table[i].claimedAt.None?)
      && (table[i].status.Processing? ==> table[i].claimedAt.Some?)
  }

  ghost predicate Valid(table: Table) {
    UniqueIds(table) && ClaimTimesFit(table)
  }

  /** Rows are never removed and never change the event id they stand for. */
  ghost predicate Extends(table: Table, later: Table) {
    && |table| <= |later|
    && forall i | 0 <= i < |table| :: later[i].event.id == table[i].event.id
  }

  // ------------------------------------------------------------------------
  // Enqueue or revive
  // ------------------------------------------------------------------------

  function IndexOf(table: Table, id: EventId): (found: Option<nat>)
    ensures found.Some? ==> found.value < |table| && table[found.value].event.id == id
    ensures found.None? ==> forall i | 0 <= i < |table| :: table[i].event.id != id
  {
    if table == [] then None
    else if table[|table| - 1].event.id == id then Some(|table| - 1)
    else IndexOf(table[..|table| - 1], id)
  }

  function Inserted(e: Event, now: int): Row {
    Row(e, Pending, 0, now, None, None, None)
  }

  function Revived(row: Row, e: Event, now: int): Row {
    row.(event := e, status := Pending, attempts := 0, availableAt := now, claimedAt := None, lastError := None)
  }

  function EnqueueOne(table: Table, e: Event, now: int): Table {
    match IndexOf(table, e.id)
    case None => table + [Inserted(e, now)]
    case Some(i) => if Live(table[i]) then table else table[i := Revived(table[i], e, now)]
  }

  function EnqueueAll(table: Table, events: seq<Event>, now: int): Table {
    if events == [] then table
    else EnqueueOne(EnqueueAll(table, events[..|events| - 1], now), events[|events| - 1], now)
  }

  predicate AllWellFormed(events: seq<Event>) {
    forall e | e in events :: e.wellFormed
  }

  /** How many leading events the protocol schema accepts. */
  function WellFormedPrefix(events: seq<Event>): (n: nat)
    ensures n <= |events|
    ensures AllWellFormed(events[..n])
    ensures n < |events| ==> !events[n].wellFormed
  {
    if events == [] || !events[0].wellFormed then 0
    else
      var n := 1 + WellFormedPrefix(events[1..]);
      assert events[..n] == [events[0]] + events[1..][..n - 1];
      n
  }

  // ------------------------------------------------------------------------
  // Claim
  // ------------------------------------------------------------------------

  predicate Due(row: Row, now: int) {
    row.status.Pending? && row.availableAt <= now
  }

  /** The ids of the due rows, oldest first. */
  function DueIds(table: Table, now: int): seq<nat> {
    if table == [] then []
    else
      var n := |table| - 1;
      DueIds(table[..n], now) + (if Due(table[n], now) then [n] else [])
  }

  /** The rows one claim takes: the oldest due ones, at most `batchSize`. */
  function Batch(table: Table, batchSize: nat, now: int): seq<nat> {
    var due := DueIds(table, now);
    if |due| <= batchSize then due else due[..batchSize]
  }

  function ClaimedRow(row: Row, now: int): Row {
    row.(status := Processing, claimedAt := Some(now))
  }

  /** The claim statement, for any choice of due rows. */
  function ClaimRows(table: Table, ids: set<nat>, now: int): Table {
    seq(|table|, (i: nat) requires i < |table| =>
      if i in ids && Due(table[i], now) then ClaimedRow(table[i], now) else table[i])
  }

  // ------------------------------------------------------------------------
  // Outcomes
  // ------------------------------------------------------------------------

  datatype Outcome = Accepted | Discarded | RolledBack

  predicate InProcessing(table: Table, id: nat) {
    id < |table| && table[id].status.Processing?
  }

  function ProcessedRow(row: Row, now: int): Row {
    row.(status := Processed, processedAt := Some(now), lastError := None)
  }

  /** One transaction: the guarded status change, then the follow-ups. */
  function Complete(table: Table, id: nat, followUps: seq<Event>, now: int): (Table, Outcome) {
    if !InProcessing(table, id) then (table, Discarded)
    else if !AllWellFormed(followUps) then (table, RolledBack)
    else (EnqueueAll(table[id := ProcessedRow(table[id], now)], followUps, now), Accepted)
  }

  const MAX_ERROR_LENGTH: nat := 4000

  function Truncate(error: string): string {
    if |error| <= MAX_ERROR_LENGTH then error else error[..MAX_ERROR_LENGTH]
  }

  function FailedRow(row: Row, error: string, retryAt: Option<int>): Row {
    match retryAt
    case None =>
      row.(status := Dead, attempts := row.attempts + 1, lastError := Some(Truncate(error)))
    case Some(at) =>
      row.(status := Pending, attempts := row.attempts + 1, availableAt := at, claimedAt := None,
        lastError := Some(Truncate(error)))
  }

  function Fail(table: Table, id: nat, error: string, retryAt: Option<int>): Table {
    if InProcessing(table, id) then table[id := FailedRow(table[id], error, retryAt)] else table
  }

  // ------------------------------------------------------------------------
  // Reclaim and replay
  // ------------------------------------------------------------------------

  const RECLAIM_EXHAUSTED: string := "reclaimed after stale claim; attempts exhausted"

  predicate Stale(row: Row, before: int) {
    row.status.Processing? && row.claimedAt.Some? && row.claimedAt.value < before
  }

  function ReclaimedRow(row: Row, maxAttempts: nat): Row {
    if row.attempts + 1 >= maxAttempts then
      row.(status := Dead, attempts := row.attempts + 1, lastError := Some(RECLAIM_EXHAUSTED), claimedAt := None)
    else
      row.(status := Pending, attempts := row.attempts + 1, claimedAt := None)
  }

  function Reclaim(table: Table, before: int, maxAttempts: nat): Table {
    seq(|table|, (i: nat) requires i < |table| =>
      if Stale(table[i], before) then ReclaimedRow(table[i], maxAttempts) else table[i])
  }

  function ReplayedRow(row: Row, now: int): Row {
    row.(status := Pending, availableAt := now, claimedAt := None)
  }

  function Replay(table: Table, id: EventId, now: int): Table {
    match IndexOf(table, id)
    case None => table
    case Some(i) => if table[i].status.Pending? then table else table[i := ReplayedRow(table[i], now)]
  }

  // ------------------------------------------------------------------------
  // Invariants of the statements
  // ------------------------------------------------------------------------

  lemma IndexOfIsUnique(table: Table, i: nat)
    requires UniqueIds(table) && i < |table|
    ensures IndexOf(table, table[i].event.id) == Some(i)
  {
    var found := IndexOf(table, table[i].event.id).value;
    assert table[found].event.id == table[i].event.id;
  }

  lemma EnqueueOneKeeps(table: Table, e: Event, now: int)
    requires Valid(table)
    ensures Valid(EnqueueOne(table, e, now)) && Extends(table, EnqueueOne(table, e, now))
    ensures IndexOf(EnqueueOne(table, e, now), e.id).Some?
    ensures Live(EnqueueOne(table, e, now)[IndexOf(EnqueueOne(table, e, now), e.id).value])
    ensures forall i | 0 <= i < |table| ::
      Live(table[i]) || table[i].event.id != e.id ==> EnqueueOne(table, e, now)[i] == table[i]
  {
    var later := EnqueueOne(table, e, now);
    var at := if IndexOf(table, e.id).Some? then IndexOf(table, e.id).value else |table|;
    assert UniqueIds(later);
    IndexOfIsUnique(later, at);
  }

  /** Some live row stands for the event id. */
  ghost predicate LiveFor(table: Table, id: EventId) {
    exists i | 0 <= i < |table| :: table[i].event.id == id && Live(table[i])
  }

  /**
   * Enqueueing keeps the table valid, touches no live row, touches no row it
   * does not name, and adds only pending rows.
   */
  lemma {:induction false} EnqueueAllKeeps(table: Table, events: seq<Event>, now: int)
    requires Valid(table)
    ensures Valid(EnqueueAll(table, events, now)) && Extends(table, EnqueueAll(table, events, now))
    ensures forall i | 0 <= i < |table| && Live(table[i]) :: EnqueueAll(table, events, now)[i] == table[i]
    ensures forall i | 0 <= i < |table| && (forall e | e in events :: e.id != table[i].event.id) ::
      EnqueueAll(table, events, now)[i] == table[i]
  {
    hide EnqueueOne;
    if events == [] {
    } else {
      var front, e := events[..|events| - 1], events[|events| - 1];
      EnqueueAllKeeps(table, front, now);
      EnqueueOneKeeps(EnqueueAll(table, front, now), e, now);
      assert e in events && forall f | f in front :: f in events;
    }
  }

  /** Whatever state its row was in, every event enqueued ends up with a live row. */
  lemma {:induction false} EnqueueAllRevives(table: Table, events: seq<Event>, now: int)
    requires Valid(table)
    ensures forall e | e in events :: LiveFor(EnqueueAll(table, events, now), e.id)
  {
    if events == [] {
    } else {
      var front, e := events[..|events| - 1], events[|events| - 1];
      var mid := EnqueueAll(table, front, now);
      EnqueueAllKeeps(table, front, now);
      EnqueueAllRevives(table, front, now);
      EnqueueOneKeeps(mid, e, now);
      forall f | f in events
        ensures LiveFor(EnqueueOne(mid, e, now), f.id)
      {
        if f.id != e.id {
          assert f in front;
          var i :| 0 <= i < |mid| && mid[i].event.id == f.id && Live(mid[i]);
          assert EnqueueOne(mid, e, now)[i] == mid[i];
        }
      }
    }
  }

  /** The row an enqueue leaves behind when it inserts or revives: this event, due at once, nothing spent. */
  predicate FreshFor(row: Row, e: Event, now: int) {
    && row.event == e && row.status == Pending && row.attempts == 0 && row.availableAt == now
    && row.claimedAt == None && row.lastError == None
  }

  /** Row `i` after one enqueue of `e`: taken over by `e` if it stood for it and was done, else as it was. */
  ghost predicate RowAfter(table: Table, e: Event, now: int, i: nat, row: Row)
    requires i < |table|
  {
    if table[i].event.id == e.id && (table[i].status.Processed? || table[i].status.Dead?)
    then FreshFor(row, e, now) && row.processedAt == table[i].processedAt
    else row == table[i]
  }

  /** Enqueueing one event changes the row that stands for it if it is done, adds one if there is none, and no more. */
  lemma EnqueueOneRows(table: Table, e: Event, now: int)
    requires Valid(table)
    ensures
      var later := EnqueueOne(table, e, now);
      && |table| <= |later|
      && (forall i | 0 <= i < |table| :: RowAfter(table, e, now, i, later[i]))
      && (if exists i :: 0 <= i < |table| && table[i].event.id == e.id then |later| == |table|
          else |later| == |table| + 1 && FreshFor(later[|table|], e, now) && later[|table|].processedAt == None)
  {
    assert forall i | 0 <= i < |table| && table[i].event.id == e.id :: IndexOf(table, e.id).Some?;
  }

  /** Event `k` of the list is the first one for its id. */
  ghost predicate FirstFor(events: seq<Event>, k: nat) {
    k < |events| && forall j | 0 <= j < k :: events[j].id != events[k].id
  }

  /** Row `i` of `later` holds the first event of the list for its id. */
  ghost predicate TakenOver(later: Table, events: seq<Event>, now: int, i: nat) {
    i < |later| && exists k: nat :: FirstFor(events, k) && FreshFor(later[i], events[k], now)
  }

  ghost predicate Named(events: seq<Event>, id: EventId) {
    exists k :: 0 <= k < |events| && events[k].id == id
  }

  /**
   * What a list of enqueues does to every row: a live row and a row nobody
   * names stay; every other row, and every new one, holds the first event of
   * the list for its id, pending, due at once and with a fresh budget.
   */
  lemma {:induction false} EnqueueAllRows(table: Table, events: seq<Event>, now: int)
    requires Valid(table)
    ensures
      var later := EnqueueAll(table, events, now);
      && |table| <= |later|
      && forall i | 0 <= i < |later| ::
        if i < |table| && (Live(table[i]) || !Named(events, table[i].event.id)) then later[i] == table[i]
        else TakenOver(later, events, now, i)
  {
    hide EnqueueOne;
    if events != [] {
      var n := |events| - 1;
      var front, e := events[..n], events[n];
      var mid, later := EnqueueAll(table, front, now), EnqueueAll(table, events, now);
      EnqueueAllRows(table, front, now);
      EnqueueAllKeeps(table, front, now);
      EnqueueAllRevives(table, front, now);
      EnqueueOneRows(mid, e, now);
      assert events == front + [e];
      assert forall j | 0 <= j < |front| :: LiveFor(mid, front[j].id);
      forall i | 0 <= i < |later|
        ensures if i < |table| && (Live(table[i]) || !Named(events, table[i].event.id)) then later[i] == table[i]
          else TakenOver(later, events, now, i)
      {
        if i < |mid| {
          EnqueueAllRowsStep(table, mid, later, front, e, now, i);
        } else {
          assert FirstFor(events, n);
        }
      }
    }
  }

  lemma TakenOverStays(mid: Table, later: Table, front: seq<Event>, e: Event, now: int, i: nat)
    requires i < |mid| <= |later| && RowAfter(mid, e, now, i, later[i]) && TakenOver(mid, front, now, i)
    ensures later[i] == mid[i] && TakenOver(later, front + [e], now, i)
  {
    var k: nat :| FirstFor(front, k) && FreshFor(mid[i], front[k], now);
    assert FirstFor(front + [e], k);
  }

  lemma EnqueueAllRowsStep(
      table: Table, mid: Table, later: Table, front: seq<Event>, e: Event, now: int, i: nat)
    requires |table| <= |mid| <= |later| && i < |mid|
    requires RowAfter(mid, e, now, i, later[i])
    requires
      if i < |table| && (Live(table[i]) || !Named(front, table[i].event.id)) then mid[i] == table[i]
      else TakenOver(mid, front, now, i)
    ensures
      if i < |table| && (Live(table[i]) || !Named(front + [e], table[i].event.id)) then later[i] == table[i]
      else TakenOver(later, front + [e], now, i)
  {
    var all := front + [e];
    assert all[..|front|] == front && all[|front|] == e;
    if i < |table| && (Live(table[i]) || !Named(front, table[i].event.id)) {
      if !Live(table[i]) && table[i].event.id == e.id {
        assert FirstFor(all, |front|);
      }
    } else {
      TakenOverStays(mid, later, front, e, now, i);
      if i < |table| {
        var j :| 0 <= j < |front| && front[j].id == table[i].event.id;
        assert all[j].id == table[i].event.id;
      }
    }
  }

  lemma ClaimKeeps(table: Table, ids: set<nat>, now: int)
    requires Valid(table)
    ensures Valid(ClaimRows(table, ids, now)) && Extends(table, ClaimRows(table, ids, now))
  {
  }

  lemma CompleteKeeps(table: Table, id: nat, followUps: seq<Event>, now: int)
    requires Valid(table)
    ensures Valid(Complete(table, id, followUps, now).0) && Extends(table, Complete(table, id, followUps, now).0)
    ensures Complete(table, id, followUps, now).1 != Accepted ==> Complete(table, id, followUps, now).0 == table
  {
    if Complete(table, id, followUps, now).1 == Accepted {
      EnqueueAllKeeps(table[id := ProcessedRow(table[id], now)], followUps, now);
    }
  }

  lemma ReclaimKeeps(table: Table, before: int, maxAttempts: nat)
    requires Valid(table)
    ensures Valid(Reclaim(table, before, maxAttempts)) && Extends(table, Reclaim(table, before, maxAttempts))
  {
  }

  /** The due ids are exactly the positions of the due rows, in ascending order. */
  lemma {:induction false} DueIdsAreTheDueRows(table: Table, now: int)
    ensures forall i: nat :: i in DueIds(table, now) <==> i < |table| && Due(table[i], now)
    ensures forall a, b | 0 <= a < b < |DueIds(table, now)| :: DueIds(table, now)[a] < DueIds(table, now)[b]
  {
    if table == [] {
    } else {
      var n := |table| - 1;
      DueIdsAreTheDueRows(table[..n], now);
      assert forall a | 0 <= a < |DueIds(table[..n], now)| :: DueIds(table[..n], now)[a] in DueIds(table[..n], now);
    }
  }

  /**
   * A claim takes due rows only, oldest first: a due row it leaves behind is
   * younger than every row it takes, and then the batch is full.
   */
  lemma BatchTakesTheOldest(table: Table, batchSize: nat, now: int)
    ensures |Batch(table, batchSize, now)| <= batchSize
    ensures forall i | i in Batch(table, batchSize, now) :: i < |table| && Due(table[i], now)
    ensures forall i: nat | i < |table| && Due(table[i], now) && i !in Batch(table, batchSize, now) ::
      && |Batch(table, batchSize, now)| == batchSize
      && forall j | j in Batch(table, batchSize, now) :: j < i
  {
    var due, batch := DueIds(table, now), Batch(table, batchSize, now);
    DueIdsAreTheDueRows(table, now);
    assert forall i | i in batch :: i in due;
    assert forall j | 0 <= j < |batch| :: due[j] in batch;
    forall i: nat | i < |table| && Due(table[i], now) && i !in batch
      ensures |batch| == batchSize && forall j | j in batch :: j < i
    {
      assert i in due;
      var k :| 0 <= k < |due| && due[k] == i;
    }
  }
}
