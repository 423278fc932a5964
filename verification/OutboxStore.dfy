/**
 * The outbox store: the statements of module Outbox, run in place on the
 * table, with the row loops the store itself performs.
 */
module OutboxStore {
  import opened Wrappers
  import opened PipelineEvents
  import opened Outbox

  datatype ClaimedEvent = ClaimedEvent(outboxId: nat, event: Event, attemptCount: nat)

  function ClaimedFrom(table: Table, id: nat): ClaimedEvent
    requires id < |table|
  {
    ClaimedEvent(id, table[id].event, table[id].attempts)
  }

  const VALIDATION_ERROR: string := "outbox payload failed protocol validation"

  /** What a claim leaves in a selected row: a malformed one is dead-lettered at once. */
  function TakenRow(row: Row, now: int): Row {
    ParsedRow(ClaimedRow(row, now))
  }

  function ParsedRow(row: Row): Row {
    if row.event.wellFormed then row else FailedRow(row, VALIDATION_ERROR, None)
  }

  /** The well-formed rows among `ids`, as the claimant sees them. */
  function ClaimedAmong(table: Table, ids: seq<nat>): seq<ClaimedEvent>
    requires forall k | 0 <= k < |ids| :: ids[k] < |table|
  {
    if ids == [] then []
    else
      var front, id := ids[..|ids| - 1], ids[|ids| - 1];
      ClaimedAmong(table, front) + (if table[id].event.wellFormed then [ClaimedFrom(table, id)] else [])
  }

  lemma NoneClaimed(table: Table)
    ensures ClaimedAmong(table, []) == []
  {
  }

  lemma ClaimedAmongOneMore(table: Table, ids: seq<nat>, id: nat)
    requires id < |table| && forall k | 0 <= k < |ids| :: ids[k] < |table|
    ensures ClaimedAmong(table, ids + [id])
         == ClaimedAmong(table, ids) + (if table[id].event.wellFormed then [ClaimedFrom(table, id)] else [])
  {
    assert (ids + [id])[..|ids|] == ids;
  }

  lemma {:induction false} ClaimKeepsWhatTheClaimantSees(table: Table, later: Table, ids: seq<nat>)
    requires |table| == |later|
    requires forall k | 0 <= k < |ids| :: ids[k] < |table|
    requires forall i | 0 <= i < |table| ::
      table[i].event == later[i].event && table[i].attempts == later[i].attempts
    ensures ClaimedAmong(table, ids) == ClaimedAmong(later, ids)
  {
    if ids != [] {
      ClaimKeepsWhatTheClaimantSees(table, later, ids[..|ids| - 1]);
    }
  }

  /** What the claimant gets: the rows among `ids` that parse, each with its event and attempts. */
  lemma {:induction false} ClaimedAmongAre(table: Table, ids: seq<nat>)
    requires forall k | 0 <= k < |ids| :: ids[k] < |table|
    ensures forall c | c in ClaimedAmong(table, ids) ::
      && c.outboxId in ids && c.outboxId < |table|
      && c.event == table[c.outboxId].event && c.event.wellFormed && c.attemptCount == table[c.outboxId].attempts
    ensures forall k | 0 <= k < |ids| && table[ids[k]].event.wellFormed ::
      ClaimedEvent(ids[k], table[ids[k]].event, table[ids[k]].attempts) in ClaimedAmong(table, ids)
  {
    if ids != [] {
      var n := |ids| - 1;
      ClaimedAmongAre(table, ids[..n]);
      assert ids == ids[..n] + [ids[n]];
    }
  }

  /**
   * Enqueued again, an event whose row was dead for good is handed to the next
   * claimant that takes enough rows, as it is now and with a fresh budget.
   */
  lemma EnqueuedIsHandedOver(table: Table, e: Event, now: int, at: int, batchSize: nat)
    requires Outbox.Valid(table) && e.wellFormed && now <= at
    requires !LiveFor(table, e.id)
    requires |EnqueueOne(table, e, now)| <= batchSize
    ensures
      var later := EnqueueOne(table, e, now);
      && (forall k | 0 <= k < |Batch(later, batchSize, at)| :: Batch(later, batchSize, at)[k] < |later|)
      && exists c :: c in ClaimedAmong(later, Batch(later, batchSize, at)) && c.event == e && c.attemptCount == 0
  {
    var later := EnqueueOne(table, e, now);
    EnqueueOneRows(table, e, now);
    var i := if IndexOf(table, e.id).Some? then IndexOf(table, e.id).value else |table|;
    assert i < |table| ==> !Live(table[i]);
    assert FreshFor(later[i], e, now);
    DueIdsAreTheDueRows(later, at);
    DueIdsAreFew(later, at);
    BatchTakesTheOldest(later, batchSize, at);
    var ids := Batch(later, batchSize, at);
    assert forall k | 0 <= k < |ids| :: ids[k] in ids;
    assert Due(later[i], at) && i in ids;
    ClaimedAmongAre(later, ids);
    assert ClaimedEvent(i, e, 0) in ClaimedAmong(later, ids);
  }

  lemma {:induction false} DueIdsAreFew(table: Table, now: int)
    ensures |DueIds(table, now)| <= |table|
  {
    if table != [] {
      DueIdsAreFew(table[..|table| - 1], now);
    }
  }

  lemma TakingKeepsValidity(table: Table, later: Table, ids: seq<nat>, now: int)
    requires Outbox.Valid(table) && |table| == |later|
    requires forall i | 0 <= i < |table| :: later[i] == if i in ids then TakenRow(table[i], now) else table[i]
    ensures Outbox.Valid(later) && Extends(table, later)
  {
    assert forall i | 0 <= i < |table| :: later[i].event == table[i].event;
  }

  lemma BatchAscends(table: Table, batchSize: nat, now: int)
    ensures forall a, b | 0 <= a < b < |Batch(table, batchSize, now)| ::
      Batch(table, batchSize, now)[a] < Batch(table, batchSize, now)[b]
  {
    DueIdsAreTheDueRows(table, now);
  }

  lemma BatchGrows(table: Table, i: nat, batchSize: nat, now: int)
    requires i < |table|
    ensures Batch(table[..i + 1], batchSize, now) ==
      Batch(table[..i], batchSize, now)
      + (if |Batch(table[..i], batchSize, now)| < batchSize && Due(table[i], now) then [i] else [])
    ensures forall k | 0 <= k < |Batch(table[..i], batchSize, now)| :: Batch(table[..i], batchSize, now)[k] < i
  {
    assert table[..i + 1][..i] == table[..i];
    DueIdsAreTheDueRows(table[..i], now);
    var due := DueIds(table[..i], now);
    assert forall k | 0 <= k < |due| :: due[k] in due;
  }

  /** The number of leading rows that satisfy a status test, as SQL counts them. */
  function CountRows(table: Table, test: Row -> bool): nat {
    if table == [] then 0
    else CountRows(table[..|table| - 1], test) + (if test(table[|table| - 1]) then 1 else 0)
  }

  /** The rows a reclaim kills, reported with the attempts before the one that failed. */
  function ReclaimDeaths(table: Table, before: int, maxAttempts: nat): seq<ClaimedEvent> {
    if table == [] then []
    else
      var n := |table| - 1;
      ReclaimDeaths(table[..n], before, maxAttempts)
      + (if Stale(table[n], before) && table[n].attempts + 1 >= maxAttempts && table[n].event.wellFormed
         then [ClaimedFrom(table, n)] else [])
  }

  /** How a row looks after its handling succeeded. */
  predicate IsDone(before: Row, after: Row, now: int) {
    && after.status == Processed && after.processedAt == Some(now) && after.lastError == None
    && after.event == before.event && after.attempts == before.attempts
    && after.availableAt == before.availableAt && after.claimedAt == before.claimedAt
  }

  /**
   * What an accepted success leaves: its row is done unless a follow-up stands
   * for the same event, and every other row is as enqueueing the follow-ups
   * leaves it.
   */
  ghost predicate CompletedRows(table: Table, later: Table, id: nat, followUps: seq<Event>, now: int) {
    && id < |table| <= |later|
    && (!Named(followUps, table[id].event.id) ==> IsDone(table[id], later[id], now))
    && forall i | 0 <= i < |later| && i != id ::
      if i < |table| && (Live(table[i]) || !Named(followUps, table[i].event.id)) then later[i] == table[i]
      else TakenOver(later, followUps, now, i)
  }

  lemma CompleteRows(table: Table, id: nat, followUps: seq<Event>, now: int)
    requires Outbox.Valid(table)
    ensures Complete(table, id, followUps, now).1 == Accepted ==>
      CompletedRows(table, Complete(table, id, followUps, now).0, id, followUps, now)
  {
    if Complete(table, id, followUps, now).1 == Accepted {
      var done := table[id := ProcessedRow(table[id], now)];
      EnqueueAllRows(done, followUps, now);
    }
  }

  /** How a row looks after it was claimed: with its claimant, or dead if it does not parse. */
  predicate IsTaken(before: Row, after: Row, now: int) {
    && after.event == before.event && after.processedAt == before.processedAt
    && after.availableAt == before.availableAt && after.claimedAt == Some(now)
    && (before.event.wellFormed ==>
          after.status == Processing && after.attempts == before.attempts && after.lastError == before.lastError)
    && (!before.event.wellFormed ==>
          && after.status == Dead && after.attempts == before.attempts + 1
          && after.lastError == Some(VALIDATION_ERROR))
  }

  lemma TakingTakes(table: Table, later: Table, ids: seq<nat>, now: int)
    requires |table| == |later|
    requires forall i | i in ids :: i < |table| && Due(table[i], now)
    requires forall i | 0 <= i < |table| :: later[i] == if i in ids then TakenRow(table[i], now) else table[i]
    ensures forall i | 0 <= i < |table| ::
      later[i] == table[i] || (Due(table[i], now) && IsTaken(table[i], later[i], now))
  {
  }

  /** How a row looks after its handling failed: due again exactly at `retryAt`, or dead. */
  predicate IsFailed(before: Row, after: Row, error: string, retryAt: Option<int>) {
    && after.event == before.event && after.processedAt == before.processedAt
    && after.attempts == before.attempts + 1
    && after.lastError == Some(if |error| > 4000 then error[..4000] else error)
    && (if retryAt.Some?
        then after.status == Pending && after.availableAt == retryAt.value && after.claimedAt == None
        else after.status == Dead && after.availableAt == before.availableAt && after.claimedAt == before.claimedAt)
  }

  /** How a row looks after its claim was taken back. */
  predicate IsReclaimed(before: Row, after: Row, maxAttempts: nat) {
    && after.event == before.event && after.processedAt == before.processedAt
    && after.availableAt == before.availableAt && after.claimedAt == None
    && after.attempts == before.attempts + 1
    && (if after.attempts >= maxAttempts
        then after.status == Dead && after.lastError == Some(RECLAIM_EXHAUSTED)
        else after.status == Pending && after.lastError == before.lastError)
  }

  /** What a reclaim reports is what it kills: stale rows that parse and have one attempt left, with the attempts before it. */
  lemma {:induction false} ReclaimDeathsAre(table: Table, before: int, maxAttempts: nat)
    ensures forall c | c in ReclaimDeaths(table, before, maxAttempts) ::
      && c.outboxId < |table| && c.event == table[c.outboxId].event && c.attemptCount == table[c.outboxId].attempts
      && IsKilled(table[c.outboxId], before, maxAttempts)
    ensures forall i | 0 <= i < |table| && IsKilled(table[i], before, maxAttempts) ::
      ClaimedEvent(i, table[i].event, table[i].attempts) in ReclaimDeaths(table, before, maxAttempts)
  {
    if table != [] {
      ReclaimDeathsAre(table[..|table| - 1], before, maxAttempts);
    }
  }

  predicate IsKilled(row: Row, before: int, maxAttempts: nat) {
    && row.status == Processing && row.claimedAt.Some? && row.claimedAt.value < before
    && row.attempts + 1 >= maxAttempts && row.event.wellFormed
  }

  /** The places of the rows that pass the test. */
  function Places(table: Table, test: Row -> bool): set<nat> {
    set i: nat | i < |table| && test(table[i])
  }

  lemma PlacesGrow(table: Table, test: Row -> bool)
    requires table != []
    ensures
      var n := |table| - 1;
      Places(table, test) == Places(table[..n], test) + (if test(table[n]) then {n} else {})
  {
  }

  /** Counting rows counts their places. */
  lemma {:induction false} CountRowsCounts(table: Table, test: Row -> bool)
    ensures CountRows(table, test) == |Places(table, test)|
  {
    if table != [] {
      var n := |table| - 1;
      CountRowsCounts(table[..n], test);
      PlacesGrow(table, test);
      assert n !in Places(table[..n], test);
      hide Places;
    }
  }

  lemma ReclaimedRows(table: Table, before: int, maxAttempts: nat)
    requires Outbox.Valid(table)
    ensures forall i | 0 <= i < |table| ::
      if table[i].status == Processing && table[i].claimedAt.value < before
      then IsReclaimed(table[i], Reclaim(table, before, maxAttempts)[i], maxAttempts)
      else Reclaim(table, before, maxAttempts)[i] == table[i]
  {
  }

  class Store {
    var rows: Table

    ghost predicate Valid()
      reads this
    {
      Outbox.Valid(rows)
    }

    constructor ()
      ensures Valid() && rows == []
    {
      rows := [];
    }

    /**
     * Enqueue outside a transaction: rows before the first malformed event
     * stay, and the call fails there.
     */
    method Enqueue(events: seq<Event>, now: int) returns (ok: bool)
      requires Valid()
      modifies this
      ensures Valid() && Extends(old(rows), rows)
      ensures rows == EnqueueAll(old(rows), events[..WellFormedPrefix(events)], now)
      ensures ok <==> AllWellFormed(events)
      ensures forall i | 0 <= i < |rows| ::
        if i < |old(rows)| && (Live(old(rows)[i]) || !Named(events[..WellFormedPrefix(events)], old(rows)[i].event.id))
        then rows[i] == old(rows)[i]
        else TakenOver(rows, events[..WellFormedPrefix(events)], now, i)
    {
      var n := WellFormedPrefix(events);
      EnqueueAllRows(rows, events[..n], now);
      var i := 0;
      while i < |events|
        invariant i <= n
        invariant rows == EnqueueAll(old(rows), events[..i], now)
      {
        if !events[i].wellFormed {
          assert events[i] in events && i == n;
          EnqueueAllKeeps(old(rows), events[..n], now);
          return false;
        }
        assert events[..i + 1][..i] == events[..i];
        Upsert(events[i], now);
        i := i + 1;
      }
      assert events[..n] == events;
      EnqueueAllKeeps(old(rows), events, now);
      ok := true;
    }

    /** The insert statement with its conflict clause. */
    method Upsert(e: Event, now: int)
      modifies this
      ensures rows == EnqueueOne(old(rows), e, now)
      ensures old(Valid()) ==>
        && |old(rows)| <= |rows|
        && (forall i | 0 <= i < |old(rows)| :: RowAfter(old(rows), e, now, i, rows[i]))
        && (if exists i :: 0 <= i < |old(rows)| && old(rows)[i].event.id == e.id then |rows| == |old(rows)|
            else |rows| == |old(rows)| + 1 && FreshFor(rows[|old(rows)|], e, now))
    {
      if Valid() {
        EnqueueOneRows(rows, e, now);
      }
      var found := IndexOf(rows, e.id);
      if found.None? {
        rows := rows + [Inserted(e, now)];
      } else if rows[found.value].status.Processed? || rows[found.value].status.Dead? {
        rows := rows[found.value := Revived(rows[found.value], e, now)];
      }
    }

    /**
     * Claim a batch. The rows selected are the oldest due ones; those whose
     * payload no longer parses never reach the claimant but go dead.
     */
    method ClaimBatch(batchSize: nat, now: int) returns (claimed: seq<ClaimedEvent>)
      requires Valid()
      modifies this
      ensures Valid() && Extends(old(rows), rows)
      ensures |rows| == |old(rows)|
      ensures forall i | 0 <= i < |rows| ::
        rows[i] == if i in Batch(old(rows), batchSize, now) then TakenRow(old(rows)[i], now) else old(rows)[i]
      ensures forall k | 0 <= k < |Batch(old(rows), batchSize, now)| ::
        Batch(old(rows), batchSize, now)[k] < |old(rows)|
      ensures claimed == ClaimedAmong(old(rows), Batch(old(rows), batchSize, now))
      ensures forall i | 0 <= i < |rows| ::
        rows[i] == old(rows)[i] || (Due(old(rows)[i], now) && IsTaken(old(rows)[i], rows[i], now))
    {
      hide IsTaken;
      BatchTakesTheOldest(rows, batchSize, now);
      BatchAscends(rows, batchSize, now);
      var selected := Select(batchSize, now);
      assert forall j | 0 <= j < |selected| :: selected[j] in selected;
      ghost var marked := rows;
      ClaimKeepsWhatTheClaimantSees(old(rows), marked, selected);
      claimed := ParseClaimed(selected);
      TakingKeepsValidity(old(rows), rows, selected, now);
      TakingTakes(old(rows), rows, selected, now);
    }

    /** Parse what the claim statement returned; a payload that fails goes dead. */
    method ParseClaimed(selected: seq<nat>) returns (claimed: seq<ClaimedEvent>)
      requires forall a, b | 0 <= a < b < |selected| :: selected[a] < selected[b]
      requires forall j | 0 <= j < |selected| :: selected[j] < |rows| && rows[selected[j]].status.Processing?
      modifies this
      ensures |rows| == |old(rows)|
      ensures forall i | 0 <= i < |rows| ::
        rows[i] == if i in selected then ParsedRow(old(rows)[i]) else old(rows)[i]
      ensures claimed == ClaimedAmong(old(rows), selected)
    {
      hide ClaimedAmong;
      claimed := [];
      var k := 0;
      NoneClaimed(old(rows));
      while k < |selected|
        invariant 0 <= k <= |selected| && |rows| == |old(rows)|
        invariant forall i | 0 <= i < |rows| ::
          rows[i] == if i in selected[..k] then ParsedRow(old(rows)[i]) else old(rows)[i]
        invariant claimed == ClaimedAmong(old(rows), selected[..k])
      {
        var id := selected[k];
        assert id !in selected[..k];
        assert selected[..k + 1] == selected[..k] + [id];
        ClaimedAmongOneMore(old(rows), selected[..k], id);
        if !rows[id].event.wellFormed {
          rows := Fail(rows, id, VALIDATION_ERROR, None);
        } else {
          claimed := claimed + [ClaimedFrom(rows, id)];
        }
        k := k + 1;
      }
      assert selected[..k] == selected;
    }

    /** The claim statement: walk the rows in order and take due ones until the limit. */
    method Select(batchSize: nat, now: int) returns (selected: seq<nat>)
      modifies this
      ensures selected == Batch(old(rows), batchSize, now)
      ensures |rows| == |old(rows)|
      ensures forall i | 0 <= i < |rows| ::
        rows[i] == if i in selected then ClaimedRow(old(rows)[i], now) else old(rows)[i]
    {
      selected := [];
      var i := 0;
      while i < |rows|
        invariant 0 <= i <= |rows| == |old(rows)|
        invariant selected == Batch(old(rows)[..i], batchSize, now)
        invariant forall k | 0 <= k < |selected| :: selected[k] < i
        invariant forall j | 0 <= j < i ::
          rows[j] == if j in selected then ClaimedRow(old(rows)[j], now) else old(rows)[j]
        invariant forall j | i <= j < |rows| :: rows[j] == old(rows)[j]
      {
        BatchGrows(old(rows), i, batchSize, now);
        if |selected| < batchSize && Due(rows[i], now) {
          rows := rows[i := ClaimedRow(rows[i], now)];
          selected := selected + [i];
        }
        i := i + 1;
      }
      assert old(rows)[..i] == old(rows);
    }

    /**
     * Report success. The status change and the follow-ups are one
     * transaction: a malformed follow-up rolls both back.
     */
    method MarkProcessed(outboxId: nat, followUps: seq<Event>, now: int) returns (outcome: Outcome)
      requires Valid()
      modifies this
      ensures Valid() && Extends(old(rows), rows)
      ensures (rows, outcome) == Complete(old(rows), outboxId, followUps, now)
      ensures outcome == Discarded <==> !InProcessing(old(rows), outboxId)
      ensures outcome != Accepted ==> rows == old(rows)
      ensures outcome == Accepted ==> forall e | e in followUps :: LiveFor(rows, e.id)
      ensures outcome == Accepted ==> CompletedRows(old(rows), rows, outboxId, followUps, now)
    {
      CompleteKeeps(rows, outboxId, followUps, now);
      CompleteRows(rows, outboxId, followUps, now);
      hide RowAfter, CompletedRows;
      if !(outboxId < |rows| && rows[outboxId].status.Processing?) {
        return Discarded;
      }
      var before := rows;
      rows := rows[outboxId := ProcessedRow(rows[outboxId], now)];
      EnqueueAllRevives(rows, followUps, now);
      var ok := Enqueue(followUps, now);
      if ok {
        assert forall k | 0 <= k < |followUps| :: followUps[k] in followUps;
        assert followUps[..WellFormedPrefix(followUps)] == followUps;
        outcome := Accepted;
      } else {
        rows := before;
        outcome := RolledBack;
      }
    }

    method MarkFailed(outboxId: nat, error: string, retryAt: Option<int>) returns (outcome: Outcome)
      requires Valid()
      modifies this
      ensures Valid() && Extends(old(rows), rows)
      ensures rows == Fail(old(rows), outboxId, error, retryAt)
      ensures outcome == (if InProcessing(old(rows), outboxId) then Accepted else Discarded)
      ensures |rows| == |old(rows)| && forall i | 0 <= i < |rows| ::
        if i == outboxId && old(rows)[i].status == Processing then IsFailed(old(rows)[i], rows[i], error, retryAt)
        else rows[i] == old(rows)[i]
    {
      if !(outboxId < |rows| && rows[outboxId].status.Processing?) {
        return Discarded;
      }
      var row := rows[outboxId];
      var message := if |error| <= MAX_ERROR_LENGTH then error else error[..MAX_ERROR_LENGTH];
      if retryAt.None? {
        rows := rows[outboxId :=
          row.(status := Dead, attempts := row.attempts + 1, lastError := Some(message))];
      } else {
        rows := rows[outboxId :=
          row.(status := Pending, attempts := row.attempts + 1, availableAt := retryAt.value, claimedAt := None,
            lastError := Some(message))];
      }
      outcome := Accepted;
    }

    /** Return stale claims, and report those whose attempts ran out. */
    method ReclaimStale(before: int, maxAttempts: nat) returns (count: nat, dead: seq<ClaimedEvent>)
      requires Valid()
      modifies this
      ensures Valid() && Extends(old(rows), rows)
      ensures rows == Reclaim(old(rows), before, maxAttempts)
      ensures count == CountRows(old(rows), (row: Row) => Stale(row, before))
      ensures dead == ReclaimDeaths(old(rows), before, maxAttempts)
      ensures |rows| == |old(rows)| && forall i | 0 <= i < |rows| ::
        if old(rows)[i].status == Processing && old(rows)[i].claimedAt.value < before
        then IsReclaimed(old(rows)[i], rows[i], maxAttempts)
        else rows[i] == old(rows)[i]
    {
      ReclaimKeeps(rows, before, maxAttempts);
      ReclaimedRows(rows, before, maxAttempts);
      hide IsReclaimed;
      count, dead := 0, [];
      var i := 0;
      while i < |rows|
        invariant 0 <= i <= |rows| == |old(rows)|
        invariant forall j | 0 <= j < i :: rows[j] == Reclaim(old(rows), before, maxAttempts)[j]
        invariant forall j | i <= j < |rows| :: rows[j] == old(rows)[j]
        invariant count == CountRows(old(rows)[..i], (row: Row) => Stale(row, before))
        invariant dead == ReclaimDeaths(old(rows)[..i], before, maxAttempts)
      {
        assert old(rows)[..i + 1][..i] == old(rows)[..i];
        var row := rows[i];
        if row.status.Processing? && row.claimedAt.Some? && row.claimedAt.value < before {
          count := count + 1;
          rows := rows[i := ReclaimedRow(row, maxAttempts)];
          if rows[i].status.Dead? && rows[i].event.wellFormed {
            dead := dead + [ClaimedEvent(i, rows[i].event, rows[i].attempts - 1)];
          }
        }
        i := i + 1;
      }
      assert old(rows)[..i] == old(rows);
    }

    method CountDead() returns (count: nat)
      ensures count == CountRows(rows, (row: Row) => row.status.Dead?)
    {
      count := 0;
      for i := 0 to |rows|
        invariant count == CountRows(rows[..i], (row: Row) => row.status.Dead?)
      {
        assert rows[..i + 1][..i] == rows[..i];
        if rows[i].status.Dead? {
          count := count + 1;
        }
      }
      assert rows[..|rows|] == rows;
    }

    /** Operator replay: back to pending, keeping the attempts already spent. */
    method ReplayEvent(id: EventId, now: int) returns (moved: bool)
      requires Valid()
      modifies this
      ensures Valid() && Extends(old(rows), rows)
      ensures rows == Replay(old(rows), id, now)
      ensures moved <==> exists i | 0 <= i < |old(rows)| ::
        old(rows)[i].event.id == id && !old(rows)[i].status.Pending?
      ensures |rows| == |old(rows)| && forall i | 0 <= i < |rows| ::
        if old(rows)[i].event.id == id && old(rows)[i].status != Pending
        then rows[i] == old(rows)[i].(status := Pending, availableAt := now, claimedAt := None)
        else rows[i] == old(rows)[i]
    {
      var found := IndexOf(rows, id);
      if found.None? || rows[found.value].status.Pending? {
        return false;
      }
      rows := rows[found.value := ReplayedRow(rows[found.value], now)];
      moved := true;
    }
  }
}
