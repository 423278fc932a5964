/**
 * Why the outbox runs dry. Workers claim due rows, report each claim at most
 * once (however late) under the retry policy of the polling tick, or die and
 * never report; stale claims are reclaimed. Follow-ups go to later stages
 * only, but completing a stage revives finished rows downstream with a fresh
 * attempt budget, so no single counter decreases: the measure is one number
 * per stage, compared from the first stage on.
 */
module OutboxTermination {
  import opened Wrappers
  import opened PipelineEvents
  import opened Outbox

  /**
   * The table, and for every row the attempt counts that its claimants read
   * when they claimed it and have not reported on yet. Claimants whose claim
   * was reclaimed are still in there.
   */
  datatype System = System(table: Table, held: seq<seq<nat>>)

  ghost predicate WellFormed(s: System) {
    Outbox.Valid(s.table) && |s.held| == |s.table|
  }

  datatype Action =
    | Claim(ids: set<nat>)
    | ReportSuccess(id: nat, claimant: nat, followUps: seq<Event>)
    | ReportFailure(failed: nat, claimant: nat, error: string, nonRetryable: bool, retryAt: int)
    | ReclaimClaims(before: int)

  /** The tick's decision, from the attempt count its claimant read. */
  function RetryAt(attemptCount: nat, nonRetryable: bool, at: int, maxAttempts: nat): Option<int> {
    if nonRetryable || attemptCount + 1 >= maxAttempts then None else Some(at)
  }

  /** Only steps that do something: idle polls change nothing and are not steps. */
  ghost predicate Enabled(s: System, a: Action, now: int) {
    match a
    case Claim(ids) => exists i | 0 <= i < |s.table| :: i in ids && Due(s.table[i], now)
    case ReportSuccess(id, claimant, followUps) =>
      && id < |s.held| == |s.table| && claimant < |s.held[id]|
      && AllWellFormed(followUps)
      && forall f | f in followUps :: Rank(s.table[id].event.id.kind) < Rank(f.id.kind)
    case ReportFailure(id, claimant, _, _, _) => id < |s.held| && claimant < |s.held[id]|
    case ReclaimClaims(before) => exists i | 0 <= i < |s.table| :: Stale(s.table[i], before)
  }

  function Drop(held: seq<nat>, claimant: nat): seq<nat>
    requires claimant < |held|
  {
    held[..claimant] + held[claimant + 1..]
  }

  /** Claim lists for a table that grew: nobody holds a new row. */
  function Padded(held: seq<seq<nat>>, n: nat): (padded: seq<seq<nat>>)
    ensures |held| <= n ==> |padded| == n
    ensures forall i | 0 <= i < |held| && i < |padded| :: padded[i] == held[i]
    ensures forall i | |held| <= i < |padded| :: padded[i] == []
  {
    if |held| <= n then held + seq(n - |held|, _ => []) else held
  }

  ghost function Next(s: System, a: Action, now: int, maxAttempts: nat): System
    requires WellFormed(s) && Enabled(s, a, now)
  {
    match a
    case Claim(ids) =>
      System(ClaimRows(s.table, ids, now),
        seq(|s.held|, (i: nat) requires i < |s.table| && i < |s.held| =>
          if i in ids && Due(s.table[i], now) then s.held[i] + [s.table[i].attempts] else s.held[i]))
    case ReportSuccess(id, claimant, followUps) =>
      var later := Complete(s.table, id, followUps, now).0;
      System(later, Padded(s.held[id := Drop(s.held[id], claimant)], |later|))
    case ReportFailure(id, claimant, error, nonRetryable, at) =>
      System(
        Fail(s.table, id, error, RetryAt(s.held[id][claimant], nonRetryable, at, maxAttempts)),
        s.held[id := Drop(s.held[id], claimant)])
    case ReclaimClaims(before) => System(Reclaim(s.table, before, maxAttempts), s.held)
  }

  /**
   * A failure is final if it says so or if it was the last attempt by its
   * claimant's count; otherwise the row is due again at the time given. It
   * moves only a row that is processing, and always ends the claim.
   */
  lemma FailureIsRetriedOrFinal(s: System, a: Action, now: int, maxAttempts: nat)
    requires WellFormed(s) && a.ReportFailure? && Enabled(s, a, now)
    ensures
      var later := Next(s, a, now, maxAttempts);
      var final := a.nonRetryable || s.held[a.failed][a.claimant] + 1 >= maxAttempts;
      && |later.table| == |s.table| && |later.held[a.failed]| == |s.held[a.failed]| - 1
      && (forall i | 0 <= i < |s.table| && (i != a.failed || s.table[i].status != Processing) ::
            later.table[i] == s.table[i])
      && (s.table[a.failed].status == Processing ==>
            && later.table[a.failed].attempts == s.table[a.failed].attempts + 1
            && (final <==> later.table[a.failed].status == Dead)
            && (!final ==> later.table[a.failed].status == Pending && later.table[a.failed].availableAt == a.retryAt))
  {
  }

  ghost predicate Step(s: System, t: System, maxAttempts: nat) {
    && WellFormed(s)
    && exists a, now :: Enabled(s, a, now) && t == Next(s, a, now, maxAttempts)
  }

  // ------------------------------------------------------------------------
  // The measure
  // ------------------------------------------------------------------------

  /** Attempts a row may still fail and be retried. */
  function Budget(row: Row, maxAttempts: nat): nat {
    if row.attempts + 1 >= maxAttempts then 0 else maxAttempts - 1 - row.attempts
  }

  function RowWeight(row: Row, maxAttempts: nat): nat {
    match row.status
    case Pending => 12 * Budget(row, maxAttempts) + 4
    case Processing =>
      if Budget(row, maxAttempts) > 0 then 12 * Budget(row, maxAttempts) - 4 else 2
    case _ => 0
  }

  /** A claimant that would still retry weighs more than one that will not. */
  function ClaimWeight(attemptCount: nat, maxAttempts: nat): nat {
    if attemptCount + 1 < maxAttempts then 5 else 1
  }

  function HeldWeight(held: seq<nat>, maxAttempts: nat): nat {
    if held == [] then 0
    else HeldWeight(held[..|held| - 1], maxAttempts) + ClaimWeight(held[|held| - 1], maxAttempts)
  }

  function Weight(row: Row, held: seq<nat>, maxAttempts: nat): nat {
    RowWeight(row, maxAttempts) + HeldWeight(held, maxAttempts)
  }

  /** The weight of all rows of one stage. */
  function StageWeight(table: Table, held: seq<seq<nat>>, stage: nat, maxAttempts: nat): nat
    requires |table| == |held|
  {
    if table == [] then 0
    else
      var n := |table| - 1;
      StageWeight(table[..n], held[..n], stage, maxAttempts)
      + (if Rank(table[n].event.id.kind) == stage then Weight(table[n], held[n], maxAttempts) else 0)
  }

  lemma {:induction false} DropWeight(held: seq<nat>, claimant: nat, maxAttempts: nat)
    requires claimant < |held|
    ensures HeldWeight(Drop(held, claimant), maxAttempts) + ClaimWeight(held[claimant], maxAttempts)
         == HeldWeight(held, maxAttempts)
  {
    var n := |held| - 1;
    if claimant == n {
      assert Drop(held, claimant) == held[..n];
    } else {
      DropWeight(held[..n], claimant, maxAttempts);
      assert Drop(held, claimant)[..n - 1] == Drop(held[..n], claimant);
    }
  }

  /**
   * Row by row: if no row of a stage got heavier and new rows belong to other
   * stages, the stage got no heavier, and it got lighter if one of its rows did.
   */
  lemma {:induction false} StageWeightShrinks(
      table: Table, held: seq<seq<nat>>, table': Table, held': seq<seq<nat>>, stage: nat, maxAttempts: nat)
    requires |table| == |held| && |table'| == |held'| && Extends(table, table')
    requires forall i | 0 <= i < |table| && Rank(table[i].event.id.kind) == stage ::
      Weight(table'[i], held'[i], maxAttempts) <= Weight(table[i], held[i], maxAttempts)
    requires forall i | |table| <= i < |table'| :: Rank(table'[i].event.id.kind) != stage
    ensures StageWeight(table', held', stage, maxAttempts) <= StageWeight(table, held, stage, maxAttempts)
    ensures (exists i | 0 <= i < |table| :: Rank(table[i].event.id.kind) == stage
              && Weight(table'[i], held'[i], maxAttempts) < Weight(table[i], held[i], maxAttempts))
      ==> StageWeight(table', held', stage, maxAttempts) < StageWeight(table, held, stage, maxAttempts)
    decreases |table'|
  {
    if table' == [] {
    } else if |table| < |table'| {
      var n := |table'| - 1;
      StageWeightShrinks(table, held, table'[..n], held'[..n], stage, maxAttempts);
    } else {
      var n := |table| - 1;
      StageWeightShrinks(table[..n], held[..n], table'[..n], held'[..n], stage, maxAttempts);
    }
  }

  // ------------------------------------------------------------------------
  // Every step decreases it
  // ------------------------------------------------------------------------

  function Total(s: System, stage: nat, maxAttempts: nat): nat {
    if |s.table| == |s.held| then StageWeight(s.table, s.held, stage, maxAttempts) else 0
  }

  /** `a` is below `b` at some stage and above it at none before. */
  ghost predicate Below(a: seq<nat>, b: seq<nat>) {
    |a| == |b| && exists k | 0 <= k < |a| :: BelowAt(a, b, k)
  }

  ghost predicate BelowAt(a: seq<nat>, b: seq<nat>, k: nat)
    requires k < |a| == |b|
  {
    a[k] < b[k] && forall j | 0 <= j < k :: a[j] <= b[j]
  }

  /** One number per stage, the first stage first. */
  function Measure(s: System, maxAttempts: nat): (m: seq<nat>)
    ensures |m| == STAGES
  {
    seq(STAGES, (stage: nat) => Total(s, stage, maxAttempts))
  }

  lemma ClaimDecreases(s: System, ids: set<nat>, now: int, maxAttempts: nat)
    requires WellFormed(s) && Enabled(s, Claim(ids), now)
    ensures WellFormed(Next(s, Claim(ids), now, maxAttempts))
    ensures Below(Measure(Next(s, Claim(ids), now, maxAttempts), maxAttempts), Measure(s, maxAttempts))
  {
    var t := Next(s, Claim(ids), now, maxAttempts);
    ClaimKeeps(s.table, ids, now);
    forall i | 0 <= i < |s.table|
      ensures i in ids && Due(s.table[i], now) ==>
        Weight(t.table[i], t.held[i], maxAttempts) < Weight(s.table[i], s.held[i], maxAttempts)
      ensures Weight(t.table[i], t.held[i], maxAttempts) <= Weight(s.table[i], s.held[i], maxAttempts)
    {
      if i in ids && Due(s.table[i], now) {
        assert t.held[i][..|t.held[i]| - 1] == s.held[i];
      }
    }
    var i :| 0 <= i < |s.table| && i in ids && Due(s.table[i], now);
    PointwiseDecrease(s, t, i, maxAttempts);
  }

  lemma ReclaimDecreases(s: System, before: int, now: int, maxAttempts: nat)
    requires WellFormed(s) && Enabled(s, ReclaimClaims(before), now)
    ensures WellFormed(Next(s, ReclaimClaims(before), now, maxAttempts))
    ensures Below(Measure(Next(s, ReclaimClaims(before), now, maxAttempts), maxAttempts), Measure(s, maxAttempts))
  {
    hide StageWeight, HeldWeight;
    var t := Next(s, ReclaimClaims(before), now, maxAttempts);
    ReclaimKeeps(s.table, before, maxAttempts);
    var i :| 0 <= i < |s.table| && Stale(s.table[i], before);
    PointwiseDecrease(s, t, i, maxAttempts);
  }

  /** No row got heavier and row `i` got lighter. */
  lemma PointwiseDecrease(s: System, t: System, i: nat, maxAttempts: nat)
    requires |s.table| == |s.held| == |t.table| == |t.held| && Extends(s.table, t.table)
    requires i < |s.table|
    requires forall k | 0 <= k < |s.table| ::
      Weight(t.table[k], t.held[k], maxAttempts) <= Weight(s.table[k], s.held[k], maxAttempts)
    requires Weight(t.table[i], t.held[i], maxAttempts) < Weight(s.table[i], s.held[i], maxAttempts)
    ensures Below(Measure(t, maxAttempts), Measure(s, maxAttempts))
  {
    forall stage: nat
      ensures Total(t, stage, maxAttempts) <= Total(s, stage, maxAttempts)
      ensures stage == Rank(s.table[i].event.id.kind) ==> Total(t, stage, maxAttempts) < Total(s, stage, maxAttempts)
    {
      StageWeightShrinks(s.table, s.held, t.table, t.held, stage, maxAttempts);
    }
    assert BelowAt(Measure(t, maxAttempts), Measure(s, maxAttempts), Rank(s.table[i].event.id.kind));
  }

  lemma FailureDecreases(s: System, id: nat, claimant: nat, error: string, nonRetryable: bool, at: int, now: int,
                         maxAttempts: nat)
    requires WellFormed(s) && Enabled(s, ReportFailure(id, claimant, error, nonRetryable, at), now)
    ensures WellFormed(Next(s, ReportFailure(id, claimant, error, nonRetryable, at), now, maxAttempts))
    ensures Below(Measure(Next(s, ReportFailure(id, claimant, error, nonRetryable, at), now, maxAttempts), maxAttempts), Measure(s, maxAttempts))
  {
    hide StageWeight, HeldWeight;
    var t := Next(s, ReportFailure(id, claimant, error, nonRetryable, at), now, maxAttempts);
    DropWeight(s.held[id], claimant, maxAttempts);
    PointwiseDecrease(s, t, id, maxAttempts);
  }

  /** Follow-ups belong to later stages, so they neither change nor add rows up to this one. */
  lemma SuccessDecreases(s: System, id: nat, claimant: nat, followUps: seq<Event>, now: int, maxAttempts: nat)
    requires WellFormed(s) && Enabled(s, ReportSuccess(id, claimant, followUps), now)
    ensures WellFormed(Next(s, ReportSuccess(id, claimant, followUps), now, maxAttempts))
    ensures Below(Measure(Next(s, ReportSuccess(id, claimant, followUps), now, maxAttempts), maxAttempts), Measure(s, maxAttempts))
  {
    hide StageWeight, HeldWeight;
    var t := Next(s, ReportSuccess(id, claimant, followUps), now, maxAttempts);
    var rank := Rank(s.table[id].event.id.kind);
    CompleteKeeps(s.table, id, followUps, now);
    DropWeight(s.held[id], claimant, maxAttempts);
    if InProcessing(s.table, id) {
      var mid := s.table[id := ProcessedRow(s.table[id], now)];
      EnqueueAllKeeps(mid, followUps, now);
      NewRowsAreNamed(mid, followUps, now);
      assert t.table[id] == mid[id];
    }
    forall stage: nat | stage <= rank
      ensures Total(t, stage, maxAttempts) <= Total(s, stage, maxAttempts)
      ensures stage == rank ==> Total(t, stage, maxAttempts) < Total(s, stage, maxAttempts)
    {
      forall i | 0 <= i < |s.table| && Rank(s.table[i].event.id.kind) == stage
        ensures Weight(t.table[i], t.held[i], maxAttempts) <= Weight(s.table[i], s.held[i], maxAttempts)
      {
        assert i != id ==> t.table[i] == s.table[i] && t.held[i] == s.held[i];
      }
      StageWeightShrinks(s.table, s.held, t.table, t.held, stage, maxAttempts);
    }
    assert BelowAt(Measure(t, maxAttempts), Measure(s, maxAttempts), rank);
  }

  lemma {:induction false} NewRowsAreNamed(table: Table, events: seq<Event>, now: int)
    requires Outbox.Valid(table)
    ensures |table| <= |EnqueueAll(table, events, now)|
    ensures forall i | |table| <= i < |EnqueueAll(table, events, now)| ::
      exists e | e in events :: e.id == EnqueueAll(table, events, now)[i].event.id
  {
    if events != [] {
      var front, e := events[..|events| - 1], events[|events| - 1];
      EnqueueAllKeeps(table, front, now);
      NewRowsAreNamed(table, front, now);
      EnqueueOneKeeps(EnqueueAll(table, front, now), e, now);
      assert e in events && forall f | f in front :: f in events;
    }
  }

  lemma StepDecreases(s: System, t: System, maxAttempts: nat)
    requires Step(s, t, maxAttempts)
    ensures WellFormed(t) && Below(Measure(t, maxAttempts), Measure(s, maxAttempts))
  {
    var a, now :| Enabled(s, a, now) && t == Next(s, a, now, maxAttempts);
    match a
    case Claim(ids) => ClaimDecreases(s, ids, now, maxAttempts);
    case ReportSuccess(id, claimant, followUps) => SuccessDecreases(s, id, claimant, followUps, now, maxAttempts);
    case ReportFailure(id, claimant, error, nonRetryable, at) =>
      FailureDecreases(s, id, claimant, error, nonRetryable, at, now, maxAttempts);
    case ReclaimClaims(before) => ReclaimDecreases(s, before, now, maxAttempts);
  }

  lemma BelowIsLexicographic(a: seq<nat>, b: seq<nat>)
    requires Below(a, b) && |b| == STAGES
    ensures |a| == STAGES
    ensures a[0] < b[0] || (a[0] == b[0] && (a[1] < b[1] || (a[1] == b[1] && (a[2] < b[2] || (a[2] == b[2]
      && (a[3] < b[3] || (a[3] == b[3] && (a[4] < b[4] || (a[4] == b[4] && a[5] < b[5])))))))))
  {
    var k :| 0 <= k < |a| && BelowAt(a, b, k);
  }

  /** The order on measures has no infinite descent. */
  lemma {:induction false} DescentEnds(m: nat -> seq<nat>, from: nat)
    requires forall k: nat :: |m(k)| == STAGES
    ensures exists k: nat :: from <= k && !Below(m(k + 1), m(k))
    decreases m(from)[0], m(from)[1], m(from)[2], m(from)[3], m(from)[4], m(from)[5]
  {
    if Below(m(from + 1), m(from)) {
      BelowIsLexicographic(m(from + 1), m(from));
      DescentEnds(m, from + 1);
    }
  }

  /**
   * Without outside enqueues and replays every run is finite: in any sequence
   * of systems some position is not followed by a working step.
   */
  lemma EveryRunEnds(run: nat -> System, maxAttempts: nat)
    ensures exists k: nat :: !Step(run(k), run(k + 1), maxAttempts)
  {
    var m := (k: nat) => Measure(run(k), maxAttempts);
    assert forall k: nat :: m(k) == Measure(run(k), maxAttempts);
    DescentEnds(m, 0);
    var k: nat :| !Below(m(k + 1), m(k));
    if Step(run(k), run(k + 1), maxAttempts) {
      StepDecreases(run(k), run(k + 1), maxAttempts);
    }
  }

  // ------------------------------------------------------------------------
  // The dispatch table
  // ------------------------------------------------------------------------

  predicate IsDispatched(id: EventId, e: Event, expanded: bool, followUps: seq<Event>) {
    e.id == id && e.wellFormed && followUps == Process(e, expanded)
  }

  /** What workers may do: a success reports what the dispatch table gives for the event that was read. */
  ghost predicate Possible(s: System, a: Action, now: int) {
    match a
    case ReportSuccess(id, claimant, followUps) =>
      && id < |s.held| == |s.table| && claimant < |s.held[id]|
      && exists e, expanded :: IsDispatched(s.table[id].event.id, e, expanded, followUps)
    case _ => Enabled(s, a, now)
  }

  /** The dispatch table moves on to later stages only, so nothing workers may do is ruled out. */
  lemma PossibleIsEnabled(s: System, a: Action, now: int)
    requires Possible(s, a, now)
    ensures Enabled(s, a, now)
  {
    match a
    case ReportSuccess(id, _, followUps) =>
      var e, expanded :| IsDispatched(s.table[id].event.id, e, expanded, followUps);
      assert forall f | f in Process(e, expanded) :: Rank(e.id.kind) < Rank(f.id.kind) && f.wellFormed;
    case _ =>
  }

  ghost predicate PipelineStep(s: System, t: System, maxAttempts: nat) {
    WellFormed(s) && exists a, now :: IsPipelineMove(s, a, now, t, maxAttempts)
  }

  ghost predicate IsPipelineMove(s: System, a: Action, now: int, t: System, maxAttempts: nat)
    requires WellFormed(s)
  {
    Possible(s, a, now) && (Enabled(s, a, now) ==> t == Next(s, a, now, maxAttempts))
  }

  /** The workers of the repository, with its dispatch table and retry policy, come to an end. */
  lemma EveryPipelineRunEnds(run: nat -> System, maxAttempts: nat)
    ensures exists k: nat :: !PipelineStep(run(k), run(k + 1), maxAttempts)
  {
    EveryRunEnds(run, maxAttempts);
    var k: nat :| !Step(run(k), run(k + 1), maxAttempts);
    if PipelineStep(run(k), run(k + 1), maxAttempts) {
      var a, now :| IsPipelineMove(run(k), a, now, run(k + 1), maxAttempts);
      PossibleIsEnabled(run(k), a, now);
      assert Step(run(k), run(k + 1), maxAttempts);
    }
  }
}
