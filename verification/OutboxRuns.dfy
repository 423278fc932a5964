/**
 * Runs of the outbox: any interleaving of committed statements, by any number
 * of workers, producers and operators. The history of one row, and the cascade
 * that a replay sets off.
 */
module OutboxRuns {
  import opened Wrappers
  import opened PipelineEvents
  import opened Outbox

  datatype Statement =
    | DoEnqueue(events: seq<Event>)
    | DoClaim(ids: set<nat>)
    | DoComplete(id: nat, followUps: seq<Event>)
    | DoFail(failed: nat, error: string, retryAt: Option<int>)
    | DoReclaim(before: int, maxAttempts: nat)
    | DoReplay(eventId: EventId)

  datatype Commit = Commit(statement: Statement, now: int)

  function Apply(table: Table, c: Commit): Table {
    match c.statement
    case DoEnqueue(events) => EnqueueAll(table, events[..WellFormedPrefix(events)], c.now)
    case DoClaim(ids) => ClaimRows(table, ids, c.now)
    case DoComplete(id, followUps) => Complete(table, id, followUps, c.now).0
    case DoFail(id, error, retryAt) => Fail(table, id, error, retryAt)
    case DoReclaim(before, maxAttempts) => Reclaim(table, before, maxAttempts)
    case DoReplay(eventId) => Replay(table, eventId, c.now)
  }

  function Run(table: Table, commits: seq<Commit>): Table {
    if commits == [] then table
    else Apply(Run(table, commits[..|commits| - 1]), commits[|commits| - 1])
  }

  lemma ApplyKeeps(table: Table, c: Commit)
    requires Valid(table)
    ensures Valid(Apply(table, c)) && Extends(table, Apply(table, c))
  {
    match c.statement
    case DoEnqueue(events) => EnqueueAllKeeps(table, events[..WellFormedPrefix(events)], c.now);
    case DoClaim(ids) => ClaimKeeps(table, ids, c.now);
    case DoComplete(id, followUps) => CompleteKeeps(table, id, followUps, c.now);
    case DoFail(id, error, retryAt) =>
    case DoReclaim(before, maxAttempts) => ReclaimKeeps(table, before, maxAttempts);
    case DoReplay(eventId) =>
  }

  /** In every run ids stay unique, claim times fit the statuses, and no row is lost. */
  lemma {:induction false} RunKeeps(table: Table, commits: seq<Commit>)
    requires Valid(table)
    ensures Valid(Run(table, commits)) && Extends(table, Run(table, commits))
  {
    if commits != [] {
      RunKeeps(table, commits[..|commits| - 1]);
      ApplyKeeps(Run(table, commits[..|commits| - 1]), commits[|commits| - 1]);
    }
  }

  // ------------------------------------------------------------------------
  // One row's history
  // ------------------------------------------------------------------------

  datatype Exit = ByOutcome | ByReclaim | ByReplay

  datatype RowEvent = Claimed | Left(how: Exit)

  /** What a commit does to the claim on row `i`, if anything. */
  function EventOf(table: Table, c: Commit, i: nat): Option<RowEvent>
    requires i < |table|
  {
    match c.statement
    case DoEnqueue(_) => None
    case DoClaim(ids) => if i in ids && Due(table[i], c.now) then Some(Claimed) else None
    case DoComplete(id, followUps) =>
      if id == i && InProcessing(table, i) && AllWellFormed(followUps) then Some(Left(ByOutcome)) else None
    case DoFail(id, _, _) => if id == i && InProcessing(table, i) then Some(Left(ByOutcome)) else None
    case DoReclaim(before, _) => if Stale(table[i], before) then Some(Left(ByReclaim)) else None
    case DoReplay(eventId) =>
      if table[i].event.id == eventId && InProcessing(table, i) then Some(Left(ByReplay)) else None
  }

  function History(table: Table, commits: seq<Commit>, i: nat): seq<RowEvent> {
    if commits == [] then []
    else
      var front, c := commits[..|commits| - 1], commits[|commits| - 1];
      History(table, front, i) + EventsOf(Run(table, front), c, i)
  }

  /** A row enters and leaves `processing` exactly at the events of its history. */
  lemma EventsMoveTheRow(table: Table, c: Commit, i: nat)
    requires Valid(table) && i < |table|
    ensures |table| <= |Apply(table, c)|
    ensures EventOf(table, c, i) == Some(Claimed) ==>
      !InProcessing(table, i) && InProcessing(Apply(table, c), i)
    ensures EventOf(table, c, i).Some? && EventOf(table, c, i).value.Left? ==>
      InProcessing(table, i) && !InProcessing(Apply(table, c), i)
    ensures EventOf(table, c, i).None? ==> (InProcessing(table, i) <==> InProcessing(Apply(table, c), i))
  {
    ApplyKeeps(table, c);
    match c.statement
    case DoEnqueue(events) =>
      EnqueueLeavesProcessing(table, events[..WellFormedPrefix(events)], c.now, i);
    case DoComplete(id, followUps) =>
      if Complete(table, id, followUps, c.now).1 == Accepted {
        EnqueueLeavesProcessing(table[id := ProcessedRow(table[id], c.now)], followUps, c.now, i);
      }
    case DoReplay(eventId) => IndexOfIsUnique(table, i);
    case _ =>
  }

  lemma {:induction false} EnqueueLeavesProcessing(table: Table, events: seq<Event>, now: int, i: nat)
    requires Valid(table) && i < |table|
    ensures |table| <= |EnqueueAll(table, events, now)|
    ensures InProcessing(EnqueueAll(table, events, now), i) <==> InProcessing(table, i)
  {
    if events != [] {
      var front := events[..|events| - 1];
      EnqueueAllKeeps(table, front, now);
      EnqueueLeavesProcessing(table, front, now, i);
      EnqueueOneKeeps(EnqueueAll(table, front, now), events[|events| - 1], now);
    }
  }

  lemma {:induction false} EnqueueAddsNoClaim(table: Table, events: seq<Event>, now: int)
    ensures |table| <= |EnqueueAll(table, events, now)|
    ensures forall i | |table| <= i < |EnqueueAll(table, events, now)| ::
      EnqueueAll(table, events, now)[i].status.Pending? && EnqueueAll(table, events, now)[i].attempts == 0
  {
    if events != [] {
      EnqueueAddsNoClaim(table, events[..|events| - 1], now);
    }
  }

  lemma NewRowsAreUnclaimed(table: Table, c: Commit, i: nat)
    requires Valid(table) && |table| <= i
    ensures !InProcessing(Apply(table, c), i)
  {
    match c.statement
    case DoEnqueue(events) => EnqueueAddsNoClaim(table, events[..WellFormedPrefix(events)], c.now);
    case DoComplete(id, followUps) =>
      if Complete(table, id, followUps, c.now).1 == Accepted {
        EnqueueAddsNoClaim(table[id := ProcessedRow(table[id], c.now)], followUps, c.now);
      }
    case _ =>
  }

  predicate Alternates(h: seq<RowEvent>) {
    forall k | 0 <= k < |h| :: h[k].Claimed? <==> k % 2 == 0
  }

  function EventsOf(table: Table, c: Commit, i: nat): seq<RowEvent> {
    if i < |table| && EventOf(table, c, i).Some? then [EventOf(table, c, i).value] else []
  }

  lemma AlternationContinues(table: Table, c: Commit, i: nat, h: seq<RowEvent>)
    requires Valid(table) && Alternates(h)
    requires InProcessing(table, i) <==> |h| % 2 == 1
    ensures Alternates(h + EventsOf(table, c, i))
    ensures InProcessing(Apply(table, c), i) <==> |h + EventsOf(table, c, i)| % 2 == 1
  {
    if i < |table| {
      EventsMoveTheRow(table, c, i);
    } else {
      NewRowsAreUnclaimed(table, c, i);
    }
  }

  /**
   * In every run claims and exits of a row alternate, starting with a claim,
   * and each exit is one accepted outcome, one reclaim or one replay. The row
   * is in processing exactly when its last event is a claim.
   */
  lemma {:induction false} HistoryAlternates(table: Table, commits: seq<Commit>, i: nat)
    requires Valid(table) && !InProcessing(table, i)
    ensures Alternates(History(table, commits, i))
    ensures InProcessing(Run(table, commits), i) <==> |History(table, commits, i)| % 2 == 1
  {
    if commits != [] {
      var front, c := commits[..|commits| - 1], commits[|commits| - 1];
      HistoryAlternates(table, front, i);
      RunKeeps(table, front);
      AlternationContinues(Run(table, front), c, i, History(table, front, i));
    }
  }

  /** Enqueueing changes a row only to return a finished one to `pending`. */
  lemma {:induction false} EnqueueReturnsOrKeeps(table: Table, events: seq<Event>, now: int, i: nat)
    requires Valid(table) && i < |table|
    ensures |table| <= |EnqueueAll(table, events, now)|
    ensures EnqueueAll(table, events, now)[i] == table[i]
      || (!Live(table[i]) && EnqueueAll(table, events, now)[i].status.Pending?
          && EnqueueAll(table, events, now)[i].attempts == 0)
  {
    if events != [] {
      var front := events[..|events| - 1];
      EnqueueAllKeeps(table, front, now);
      EnqueueReturnsOrKeeps(table, front, now, i);
      EnqueueOneKeeps(EnqueueAll(table, front, now), events[|events| - 1], now);
    }
  }

  // ------------------------------------------------------------------------
  // Cascade replay
  // ------------------------------------------------------------------------

  predicate AcceptedCompletion(table: Table, c: Commit) {
    c.statement.DoComplete? && InProcessing(table, c.statement.id) && AllWellFormed(c.statement.followUps)
  }

  /** The events processed by some commit of the run, as their rows held them. */
  function Done(table: Table, commits: seq<Commit>): set<Event> {
    if commits == [] then {}
    else
      var front, c := commits[..|commits| - 1], commits[|commits| - 1];
      Done(table, front) + DoneBy(Run(table, front), c)
  }

  function DoneBy(table: Table, c: Commit): set<Event> {
    if AcceptedCompletion(table, c) then {table[c.statement.id].event} else {}
  }

  ghost predicate IsDone(done: set<Event>, id: EventId) {
    exists e | e in done :: e.id == id
  }

  /** Every success enqueues at least the follow-ups its event calls for. */
  ghost predicate FollowsChain(table: Table, commits: seq<Commit>, next: Event -> set<EventId>) {
    forall k | 0 <= k < |commits| :: ChainStep(Run(table, commits[..k]), commits[k], next)
  }

  ghost predicate ChainStep(table: Table, c: Commit, next: Event -> set<EventId>) {
    AcceptedCompletion(table, c) ==>
      forall id | id in next(table[c.statement.id].event) ::
        exists f | f in c.statement.followUps :: f.id == id
  }

  /** The event has a row, and if that row is processed then by this run. */
  ghost predicate Renewed(table: Table, done: set<Event>, id: EventId) {
    exists i | 0 <= i < |table| :: table[i].event.id == id && (table[i].status.Processed? ==> IsDone(done, id))
  }

  predicate Quiescent(table: Table) {
    forall i | 0 <= i < |table| :: !Live(table[i])
  }

  predicate DeadFor(table: Table, id: EventId) {
    exists i | 0 <= i < |table| :: table[i].event.id == id && table[i].status.Dead?
  }

  /** Only an accepted outcome of its own turns a row processed. */
  lemma ProcessedOnlyByOutcome(table: Table, c: Commit, i: nat)
    requires Valid(table) && i < |table|
    ensures |table| <= |Apply(table, c)|
    ensures Apply(table, c)[i].status.Processed? ==>
      table[i].status.Processed? || (AcceptedCompletion(table, c) && c.statement.id == i)
  {
    ApplyKeeps(table, c);
    match c.statement
    case DoEnqueue(events) =>
      EnqueueReturnsOrKeeps(table, events[..WellFormedPrefix(events)], c.now, i);
    case DoComplete(id, followUps) =>
      if Complete(table, id, followUps, c.now).1 == Accepted {
        var mid := table[id := ProcessedRow(table[id], c.now)];
        EnqueueAllKeeps(mid, followUps, c.now);
        EnqueueReturnsOrKeeps(mid, followUps, c.now, i);
      }
    case _ =>
  }

  lemma RenewedStays(table: Table, c: Commit, done: set<Event>, id: EventId)
    requires Valid(table) && Renewed(table, done, id)
    ensures Renewed(Apply(table, c), done + DoneBy(table, c), id)
  {
    var i :| 0 <= i < |table| && table[i].event.id == id && (table[i].status.Processed? ==> IsDone(done, id));
    ApplyKeeps(table, c);
    ProcessedOnlyByOutcome(table, c, i);
    assert Apply(table, c)[i].event.id == id;
    if IsDone(done, id) {
      var e :| e in done && e.id == id;
      assert e in done + DoneBy(table, c);
    } else if AcceptedCompletion(table, c) && c.statement.id == i {
      assert table[i].event in done + DoneBy(table, c);
    }
  }

  lemma FollowUpsAreRenewed(table: Table, c: Commit, next: Event -> set<EventId>, done: set<Event>)
    requires Valid(table) && AcceptedCompletion(table, c) && ChainStep(table, c, next)
    ensures forall id | id in next(table[c.statement.id].event) :: Renewed(Apply(table, c), done, id)
  {
    var n := c.statement.id;
    var mid := table[n := ProcessedRow(table[n], c.now)];
    EnqueueAllRevives(mid, c.statement.followUps, c.now);
    forall id | id in next(table[n].event)
      ensures Renewed(Apply(table, c), done, id)
    {
      var f :| f in c.statement.followUps && f.id == id;
      assert LiveFor(Apply(table, c), f.id);
      var i :| 0 <= i < |Apply(table, c)| && Apply(table, c)[i].event.id == id && Live(Apply(table, c)[i]);
    }
  }

  /** Every event the run has processed has passed the renewal on to its follow-ups. */
  lemma {:induction false} CascadeInvariant(
      table: Table, commits: seq<Commit>, next: Event -> set<EventId>, root: EventId)
    requires Valid(table) && LiveFor(table, root)
    requires FollowsChain(table, commits, next)
    ensures Renewed(Run(table, commits), Done(table, commits), root)
    ensures forall e, f | e in Done(table, commits) && f in next(e) ::
      Renewed(Run(table, commits), Done(table, commits), f)
  {
    if commits == [] {
      var i :| 0 <= i < |table| && table[i].event.id == root && Live(table[i]);
    } else {
      var front, c := commits[..|commits| - 1], commits[|commits| - 1];
      assert FollowsChain(table, front, next) by {
        forall k | 0 <= k < |front|
          ensures ChainStep(Run(table, front[..k]), front[k], next)
        {
          assert front[..k] == commits[..k] && front[k] == commits[k];
        }
      }
      CascadeInvariant(table, front, next, root);
      RunKeeps(table, front);
      var before, done := Run(table, front), Done(table, front);
      assert ChainStep(before, c, next);
      RenewedStays(before, c, done, root);
      forall e, f | e in Done(table, commits) && f in next(e)
        ensures Renewed(Run(table, commits), Done(table, commits), f)
      {
        if e in done {
          RenewedStays(before, c, done, f);
        } else {
          FollowUpsAreRenewed(before, c, next, Done(table, commits));
        }
      }
    }
  }

  lemma RenewedIsDone(table: Table, done: set<Event>, id: EventId)
    requires Renewed(table, done, id) && Quiescent(table)
    ensures DeadFor(table, id) || IsDone(done, id)
  {
  }

  /**
   * After an operator replays an event and the outbox runs dry, that event has
   * been processed again at a commit later than the replay, and with every
   * event so processed all its follow-ups have, except those whose rows are
   * dead. It does not matter what state the rows were in, or what else was
   * enqueued, claimed, failed, reclaimed or replayed meanwhile.
   */
  lemma ReplayCascades(table: Table, root: EventId, now: int, commits: seq<Commit>, next: Event -> set<EventId>)
    requires Valid(table) && IndexOf(table, root).Some?
    requires FollowsChain(Replay(table, root, now), commits, next)
    requires Quiescent(Run(Replay(table, root, now), commits))
    ensures
      var replayed := Replay(table, root, now);
      var end, done := Run(replayed, commits), Done(replayed, commits);
      && (DeadFor(end, root) || IsDone(done, root))
      && forall e, f | e in done && f in next(e) :: DeadFor(end, f) || IsDone(done, f)
  {
    ApplyKeeps(table, Commit(DoReplay(root), now));
    var replayed, i := Replay(table, root, now), IndexOf(table, root).value;
    assert replayed[i].event.id == root && Live(replayed[i]);
    CascadeInvariant(replayed, commits, next, root);
    var end, done := Run(replayed, commits), Done(replayed, commits);
    RenewedIsDone(end, done, root);
    forall e, f | e in done && f in next(e)
      ensures DeadFor(end, f) || IsDone(done, f)
    {
      RenewedIsDone(end, done, f);
    }
  }

  // ------------------------------------------------------------------------
  // The pipeline's own chain
  // ------------------------------------------------------------------------

  /** What the dispatch table enqueues after an event; `expands` says which sources are archives. */
  function NextInPipeline(expands: Event -> bool): Event -> set<EventId> {
    (e: Event) => set f | f in Process(e, expands(e)) :: f.id
  }

  /** Every success reports what the dispatch table gives for its row's event. */
  ghost predicate ReportsDispatch(table: Table, commits: seq<Commit>, expands: Event -> bool) {
    forall k | 0 <= k < |commits| :: DispatchStep(Run(table, commits[..k]), commits[k], expands)
  }

  predicate DispatchStep(table: Table, c: Commit, expands: Event -> bool) {
    AcceptedCompletion(table, c) ==>
      var e := table[c.statement.id].event;
      c.statement.followUps == Process(e, expands(e))
  }

  /** `path` goes from one processed event to the next stage, until there is none. */
  ghost predicate IsPipelineRun(path: seq<Event>, done: set<Event>, expands: Event -> bool) {
    && path != []
    && (forall k | 0 <= k < |path| :: path[k] in done)
    && (forall k | 0 <= k < |path| - 1 :: IsNextStage(path[k], path[k + 1], expands))
    && Process(path[|path| - 1], expands(path[|path| - 1])) == []
  }

  predicate IsNextStage(e: Event, f: Event, expands: Event -> bool) {
    var followUps := Process(e, expands(e));
    followUps != [] && followUps[0].id == f.id
  }

  /** From any processed event on, the processed events reach the end of the pipeline. */
  lemma {:induction false} PipelineRunsOn(done: set<Event>, expands: Event -> bool, e: Event) returns (path: seq<Event>)
    requires e in done
    requires forall d, f | d in done && f in NextInPipeline(expands)(d) :: IsDone(done, f)
    ensures IsPipelineRun(path, done, expands) && path[0] == e
    decreases STAGES - Rank(e.id.kind)
  {
    var followUps := Process(e, expands(e));
    if followUps == [] {
      path := [e];
    } else {
      assert followUps[0].id in NextInPipeline(expands)(e);
      assert IsDone(done, followUps[0].id);
      var f :| f in done && f.id == followUps[0].id;
      var rest := PipelineRunsOn(done, expands, f);
      path := [e] + rest;
      assert IsNextStage(e, rest[0], expands);
      assert forall k | 1 <= k < |path| - 1 :: path[k] == rest[k - 1] && path[k + 1] == rest[k];
    }
  }

  /**
   * With the real dispatch table: after a replay and a run to quiescence that
   * leaves nothing dead, the replayed event and every stage after it, to the
   * end of the pipeline, have been processed later than the replay.
   */
  lemma ReplayRunsThePipeline(table: Table, root: EventId, now: int, commits: seq<Commit>, expands: Event -> bool)
    returns (path: seq<Event>)
    requires Valid(table) && IndexOf(table, root).Some?
    requires ReportsDispatch(Replay(table, root, now), commits, expands)
    requires Quiescent(Run(Replay(table, root, now), commits))
    requires forall id :: !DeadFor(Run(Replay(table, root, now), commits), id)
    ensures IsPipelineRun(path, Done(Replay(table, root, now), commits), expands) && path[0].id == root
  {
    var replayed, next := Replay(table, root, now), NextInPipeline(expands);
    forall k | 0 <= k < |commits|
      ensures ChainStep(Run(replayed, commits[..k]), commits[k], next)
    {
      assert DispatchStep(Run(replayed, commits[..k]), commits[k], expands);
    }
    ReplayCascades(table, root, now, commits, next);
    var done := Done(replayed, commits);
    assert IsDone(done, root);
    var e :| e in done && e.id == root;
    path := PipelineRunsOn(done, expands, e);
  }
}
