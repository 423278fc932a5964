/**
 * How often a row can be claimed on one attempt budget: an exact account of
 * the claims of every run, when the limit is overstepped, and that it is not
 * when claimants report before their claims are reclaimed.
 */
module OutboxBudget {
  import opened Wrappers
  import opened PipelineEvents
  import opened Outbox
  import opened OutboxRuns
  import opened OutboxTermination

  // ------------------------------------------------------------------------
  // The account of one row
  // ------------------------------------------------------------------------

  /**
   * What happened to a row since it was inserted or last revived: claims,
   * replays that found it claimed or processed, replays that found it dead,
   * whether it was rescheduled with its attempts spent, and whether it was
   * claimed after that.
   */
  datatype Account = Account(claims: nat, replays: nat, resurrections: nat, lateRetry: bool, claimedLate: bool)

  const NEW_ACCOUNT := Account(0, 0, 0, false, false)

  /** Row `i` got a fresh budget: it was inserted, or an enqueue revived it. */
  predicate Refreshed(table: Table, c: Commit, i: nat) {
    var later := Apply(table, c);
    && i < |later|
    && (i >= |table|
        || ((c.statement.DoEnqueue? || c.statement.DoComplete?) && later[i].status.Pending?
            && (!Live(table[i]) || (AcceptedCompletion(table, c) && c.statement.id == i))))
  }

  predicate Hits(table: Table, c: Commit, i: nat)
    requires i < |table|
  {
    c.statement.DoReplay? && table[i].event.id == c.statement.eventId
  }

  /** A failure that reschedules row `i` although this was its last attempt. */
  predicate IsLateRetry(table: Table, c: Commit, i: nat, maxAttempts: nat)
    requires i < |table|
  {
    && c.statement.DoFail? && c.statement.failed == i && InProcessing(table, i) && c.statement.retryAt.Some?
    && table[i].attempts + 1 >= maxAttempts
  }

  function Booked(account: Account, table: Table, c: Commit, i: nat, maxAttempts: nat): Account
    requires i < |table|
  {
    if Refreshed(table, c, i) then NEW_ACCOUNT
    else
      var row, claimed := table[i], EventOf(table, c, i) == Some(Claimed);
      Account(
        account.claims + (if claimed then 1 else 0),
        account.replays + (if Hits(table, c, i) && (row.status.Processing? || row.status.Processed?) then 1 else 0),
        account.resurrections + (if Hits(table, c, i) && row.status.Dead? then 1 else 0),
        account.lateRetry || IsLateRetry(table, c, i, maxAttempts),
        account.claimedLate || (account.lateRetry && claimed))
  }

  function AccountOf(table: Table, commits: seq<Commit>, i: nat, maxAttempts: nat): Account {
    if commits == [] then NEW_ACCOUNT
    else
      var front, c := commits[..|commits| - 1], commits[|commits| - 1];
      var before := Run(table, front);
      if i >= |before| then NEW_ACCOUNT
      else Booked(AccountOf(table, front, i, maxAttempts), before, c, i, maxAttempts)
  }

  /** A table nothing has been claimed from: what enqueueing into an empty one gives. */
  ghost predicate Unclaimed(table: Table) {
    Valid(table) && forall i | 0 <= i < |table| :: table[i].status.Pending? && table[i].attempts == 0
  }

  /** A claim that is running or ended well has not been counted as an attempt. */
  function OpenClaims(row: Row): nat {
    if row.status.Processing? || row.status.Processed? then 1 else 0
  }

  predicate Balanced(row: Row, account: Account) {
    account.claims == row.attempts + OpenClaims(row) + account.replays
  }

  /** What a commit can make of a row. */
  lemma RowAfter(table: Table, c: Commit, i: nat)
    requires Valid(table) && i < |table|
    ensures |table| <= |Apply(table, c)|
    ensures
      var row, later := table[i], Apply(table, c)[i];
      if Refreshed(table, c, i) then later.status.Pending? && later.attempts == 0
      else match c.statement
        case DoEnqueue(_) => later == row
        case DoClaim(ids) => later == if EventOf(table, c, i) == Some(Claimed) then ClaimedRow(row, c.now) else row
        case DoComplete(id, _) =>
          later == if EventOf(table, c, i).Some? then ProcessedRow(row, c.now) else row
        case DoFail(id, error, retryAt) =>
          later == if id == i && row.status.Processing? then FailedRow(row, error, retryAt) else row
        case DoReclaim(before, limit) => later == if Stale(row, before) then ReclaimedRow(row, limit) else row
        case DoReplay(_) =>
          later == if Hits(table, c, i) && !row.status.Pending? then ReplayedRow(row, c.now) else row
  {
    ApplyKeeps(table, c);
    match c.statement
    case DoEnqueue(events) =>
      EnqueueReturnsOrKeeps(table, events[..WellFormedPrefix(events)], c.now, i);
    case DoComplete(id, followUps) =>
      if Complete(table, id, followUps, c.now).1 == Accepted {
        var mid := table[id := ProcessedRow(table[id], c.now)];
        EnqueueAllKeeps(mid, followUps, c.now);
        EnqueueReturnsOrKeeps(mid, followUps, c.now, i);
      }
    case DoReplay(eventId) => IndexOfIsUnique(table, i);
    case _ =>
  }

  lemma NewRowsAreFresh(table: Table, c: Commit, i: nat)
    requires Valid(table) && |table| <= i < |Apply(table, c)|
    ensures Apply(table, c)[i].status.Pending? && Apply(table, c)[i].attempts == 0
  {
    match c.statement
    case DoEnqueue(events) => EnqueueAddsNoClaim(table, events[..WellFormedPrefix(events)], c.now);
    case DoComplete(id, followUps) =>
      if Complete(table, id, followUps, c.now).1 == Accepted {
        EnqueueAddsNoClaim(table[id := ProcessedRow(table[id], c.now)], followUps, c.now);
      }
    case _ =>
  }

  lemma BalanceIsKept(table: Table, c: Commit, i: nat, account: Account, maxAttempts: nat)
    requires Valid(table) && i < |table| && Balanced(table[i], account)
    ensures |table| <= |Apply(table, c)|
    ensures Balanced(Apply(table, c)[i], Booked(account, table, c, i, maxAttempts))
  {
    RowAfter(table, c, i);
    hide Apply, Refreshed;
  }

  /**
   * In every run, whatever claimants report: the claims of a row since it was
   * inserted or revived are its attempts, one more while the last claim is
   * open or ended well, and one for each replay of a claimed or processed row.
   */
  lemma {:induction false} ClaimsAddUp(table: Table, commits: seq<Commit>, i: nat, maxAttempts: nat)
    requires Unclaimed(table)
    ensures Valid(Run(table, commits))
    ensures i < |Run(table, commits)| ==>
      Balanced(Run(table, commits)[i], AccountOf(table, commits, i, maxAttempts))
  {
    RunKeeps(table, commits);
    if commits != [] {
      var front, c := commits[..|commits| - 1], commits[|commits| - 1];
      var before := Run(table, front);
      ClaimsAddUp(table, front, i, maxAttempts);
      if i < |before| {
        BalanceIsKept(before, c, i, AccountOf(table, front, i, maxAttempts), maxAttempts);
      } else if i < |Run(table, commits)| {
        NewRowsAreFresh(before, c, i);
      }
    }
  }

  // ------------------------------------------------------------------------
  // When the limit is overstepped
  // ------------------------------------------------------------------------

  /** A limit of zero lets a row be claimed once, like a limit of one. */
  function Limit(maxAttempts: nat): nat {
    if maxAttempts == 0 then 1 else maxAttempts
  }

  /** Every reclaim of the run uses the limit. */
  predicate ReclaimsAt(commits: seq<Commit>, maxAttempts: nat) {
    forall c | c in commits :: c.statement.DoReclaim? ==> c.statement.maxAttempts == maxAttempts
  }

  /** Without replays: the row stays within the limit until a retry is granted beyond it. */
  predicate WithinLimit(row: Row, account: Account, maxAttempts: nat) {
    account.replays == 0 && account.resurrections == 0 ==>
      && (!account.lateRetry ==>
            !account.claimedLate && if row.status.Dead? then row.attempts <= Limit(maxAttempts) else row.attempts < Limit(maxAttempts))
      && (account.lateRetry && !account.claimedLate ==> row.status.Pending? && row.attempts == Limit(maxAttempts))
      && (account.claimedLate ==> account.claims > Limit(maxAttempts))
  }

  lemma LimitIsKept(table: Table, c: Commit, i: nat, account: Account, maxAttempts: nat)
    requires Valid(table) && i < |table| && ReclaimsAt([c], maxAttempts)
    requires Balanced(table[i], account) && WithinLimit(table[i], account, maxAttempts)
    ensures |table| <= |Apply(table, c)|
    ensures WithinLimit(Apply(table, c)[i], Booked(account, table, c, i, maxAttempts), maxAttempts)
  {
    RowAfter(table, c, i);
    assert c in [c];
    hide Apply, Refreshed;
  }

  /**
   * Exactly when the limit is overstepped, for a row that was not replayed
   * since its last revival: a failure rescheduled it although its attempts
   * were spent, and it was claimed again after that.
   */
  lemma {:induction false} LimitIsOversteppedByLateRetries(table: Table, commits: seq<Commit>, i: nat, maxAttempts: nat)
    requires Unclaimed(table) && ReclaimsAt(commits, maxAttempts)
    ensures
      var account := AccountOf(table, commits, i, maxAttempts);
      account.replays == 0 && account.resurrections == 0 ==>
        (account.claims > Limit(maxAttempts) <==> account.claimedLate)
    ensures i < |Run(table, commits)| ==>
      WithinLimit(Run(table, commits)[i], AccountOf(table, commits, i, maxAttempts), maxAttempts)
  {
    ClaimsAddUp(table, commits, i, maxAttempts);
    if commits != [] {
      var front, c := commits[..|commits| - 1], commits[|commits| - 1];
      var before := Run(table, front);
      assert commits == front + [c];
      ClaimsAddUp(table, front, i, maxAttempts);
      LimitIsOversteppedByLateRetries(table, front, i, maxAttempts);
      if i < |before| {
        LimitIsKept(before, c, i, AccountOf(table, front, i, maxAttempts), maxAttempts);
      } else if i < |Run(table, commits)| {
        NewRowsAreFresh(before, c, i);
      }
    }
  }

  // ------------------------------------------------------------------------
  // When nobody reschedules a row beyond the limit
  // ------------------------------------------------------------------------

  /** The retry policy is applied to the attempts the row has, and reclaims use its limit. */
  predicate CurrentReport(table: Table, c: Commit, maxAttempts: nat) {
    match c.statement
    case DoFail(id, _, retryAt) =>
      InProcessing(table, id) && retryAt.Some? ==> table[id].attempts + 1 < maxAttempts
    case DoReclaim(_, limit) => limit == maxAttempts
    case _ => true
  }

  ghost predicate CurrentReports(table: Table, commits: seq<Commit>, maxAttempts: nat) {
    forall k | 0 <= k < |commits| :: CurrentReport(Run(table, commits[..k]), commits[k], maxAttempts)
  }

  /** Every replay of a dead row is worth one claim more. */
  predicate WithinBudget(row: Row, account: Account, maxAttempts: nat) {
    if row.status.Dead? then row.attempts <= Limit(maxAttempts) + account.resurrections
    else row.attempts < Limit(maxAttempts) + account.resurrections
  }

  lemma BudgetIsKept(table: Table, c: Commit, i: nat, account: Account, maxAttempts: nat)
    requires Valid(table) && i < |table| && CurrentReport(table, c, maxAttempts)
    requires WithinBudget(table[i], account, maxAttempts)
    ensures |table| <= |Apply(table, c)|
    ensures WithinBudget(Apply(table, c)[i], Booked(account, table, c, i, maxAttempts), maxAttempts)
  {
    RowAfter(table, c, i);
    hide Apply, Refreshed;
  }

  /**
   * If reports come from current claimants, a row is claimed at most
   * `maxAttempts` times on one budget, and once more for every replay.
   */
  lemma {:induction false} ClaimsAreBounded(table: Table, commits: seq<Commit>, i: nat, maxAttempts: nat)
    requires Unclaimed(table) && CurrentReports(table, commits, maxAttempts)
    ensures
      var account := AccountOf(table, commits, i, maxAttempts);
      account.claims <= Limit(maxAttempts) + account.replays + account.resurrections
    ensures i < |Run(table, commits)| ==>
      WithinBudget(Run(table, commits)[i], AccountOf(table, commits, i, maxAttempts), maxAttempts)
  {
    ClaimsAddUp(table, commits, i, maxAttempts);
    if commits != [] {
      var front, c := commits[..|commits| - 1], commits[|commits| - 1];
      var before := Run(table, front);
      forall k | 0 <= k < |front|
        ensures CurrentReport(Run(table, front[..k]), front[k], maxAttempts)
      {
        assert front[..k] == commits[..k] && front[k] == commits[k];
      }
      assert CurrentReport(before, c, maxAttempts);
      ClaimsAddUp(table, front, i, maxAttempts);
      ClaimsAreBounded(table, front, i, maxAttempts);
      if i < |before| {
        BudgetIsKept(before, c, i, AccountOf(table, front, i, maxAttempts), maxAttempts);
      } else if i < |Run(table, commits)| {
        NewRowsAreFresh(before, c, i);
      }
    }
  }

  // ------------------------------------------------------------------------
  // Claimants that report before they are reclaimed
  // ------------------------------------------------------------------------

  datatype Move = Move(action: Action, now: int)

  /** Workers' systems one after the other, each by a move of the one before. */
  ghost predicate IsTrace(systems: seq<System>, moves: seq<Move>, maxAttempts: nat) {
    && |systems| == |moves| + 1
    && (forall k | 0 <= k < |systems| :: WellFormed(systems[k]))
    && (forall k | 0 <= k < |moves| :: IsMove(systems[k], moves[k], systems[k + 1], maxAttempts))
  }

  ghost predicate IsMove(s: System, m: Move, t: System, maxAttempts: nat)
    requires WellFormed(s)
  {
    Enabled(s, m.action, m.now) && t == Next(s, m.action, m.now, maxAttempts)
  }

  /** The statement a move commits. A retry is decided on the attempts the claimant has read. */
  ghost function CommitOf(s: System, m: Move, maxAttempts: nat): Commit
    requires WellFormed(s) && Enabled(s, m.action, m.now)
  {
    match m.action
    case Claim(ids) => Commit(DoClaim(ids), m.now)
    case ReportSuccess(id, _, followUps) => Commit(DoComplete(id, followUps), m.now)
    case ReportFailure(id, claimant, error, nonRetryable, at) =>
      Commit(DoFail(id, error, RetryAt(s.held[id][claimant], nonRetryable, at, maxAttempts)), m.now)
    case ReclaimClaims(before) => Commit(DoReclaim(before, maxAttempts), m.now)
  }

  ghost function CommitsOf(systems: seq<System>, moves: seq<Move>, maxAttempts: nat): (commits: seq<Commit>)
    requires IsTrace(systems, moves, maxAttempts)
    ensures |commits| == |moves|
  {
    seq(|moves|, (k: nat) requires k < |moves| =>
      assert IsMove(systems[k], moves[k], systems[k + 1], maxAttempts);
      CommitOf(systems[k], moves[k], maxAttempts))
  }

  /** A claimed row is held by whoever claimed it last, who has read the attempts it still has. */
  ghost predicate LastHolderIsCurrent(s: System) {
    forall i | 0 <= i < |s.table| && i < |s.held| && InProcessing(s.table, i) ::
      s.held[i] != [] && s.held[i][|s.held[i]| - 1] == s.table[i].attempts
  }

  lemma HolderStaysCurrent(s: System, m: Move, t: System, maxAttempts: nat)
    requires WellFormed(s) && IsMove(s, m, t, maxAttempts) && LastHolderIsCurrent(s)
    ensures LastHolderIsCurrent(t)
  {
    match m.action
    case ReportSuccess(id, claimant, followUps) =>
      var c := Commit(DoComplete(id, followUps), m.now);
      forall i | 0 <= i < |t.table| && i < |t.held| && InProcessing(t.table, i)
        ensures t.held[i] != [] && t.held[i][|t.held[i]| - 1] == t.table[i].attempts
      {
        if i < |s.table| {
          RowAfter(s.table, c, i);
        } else {
          NewRowsAreFresh(s.table, c, i);
        }
      }
    case _ =>
  }

  /** A claimant that reports does so on an open claim: it was not reclaimed, so nobody claimed the row since. */
  predicate ReportsInTime(s: System, a: Action) {
    match a
    case ReportSuccess(id, claimant, _) =>
      InProcessing(s.table, id) && id < |s.held| && claimant + 1 == |s.held[id]|
    case ReportFailure(id, claimant, _, _, _) =>
      InProcessing(s.table, id) && id < |s.held| && claimant + 1 == |s.held[id]|
    case _ => true
  }

  ghost predicate AllReportInTime(systems: seq<System>, moves: seq<Move>) {
    |moves| < |systems| && forall k | 0 <= k < |moves| :: ReportsInTime(systems[k], moves[k].action)
  }

  lemma InTimeIsCurrent(s: System, m: Move, t: System, maxAttempts: nat)
    requires WellFormed(s) && IsMove(s, m, t, maxAttempts) && LastHolderIsCurrent(s) && ReportsInTime(s, m.action)
    ensures CurrentReport(s.table, CommitOf(s, m, maxAttempts), maxAttempts)
    ensures Apply(s.table, CommitOf(s, m, maxAttempts)) == t.table
  {
  }

  lemma {:induction false} TraceIsRun(systems: seq<System>, moves: seq<Move>, maxAttempts: nat, n: nat)
    requires IsTrace(systems, moves, maxAttempts) && n <= |moves|
    requires LastHolderIsCurrent(systems[0]) && AllReportInTime(systems, moves)
    ensures LastHolderIsCurrent(systems[n])
    ensures Run(systems[0].table, CommitsOf(systems, moves, maxAttempts)[..n]) == systems[n].table
  {
    if n > 0 {
      hide LastHolderIsCurrent, Next, Enabled, Apply, CommitOf;
      var commits, k := CommitsOf(systems, moves, maxAttempts), n - 1;
      TraceIsRun(systems, moves, maxAttempts, k);
      assert IsMove(systems[k], moves[k], systems[k + 1], maxAttempts);
      HolderStaysCurrent(systems[k], moves[k], systems[n], maxAttempts);
      InTimeIsCurrent(systems[k], moves[k], systems[n], maxAttempts);
      assert commits[..n][..k] == commits[..k] && commits[..n][k] == commits[k];
    }
  }

  /**
   * Workers that report each claim before it is reclaimed, or never, under
   * the tick's policy: no row is claimed more than `maxAttempts` times on one
   * budget.
   */
  lemma TimelyReportsStayWithinLimit(systems: seq<System>, moves: seq<Move>, i: nat, maxAttempts: nat)
    requires IsTrace(systems, moves, maxAttempts) && AllReportInTime(systems, moves)
    requires Unclaimed(systems[0].table)
    ensures CurrentReports(systems[0].table, CommitsOf(systems, moves, maxAttempts), maxAttempts)
    ensures AccountOf(systems[0].table, CommitsOf(systems, moves, maxAttempts), i, maxAttempts).claims <= Limit(maxAttempts)
  {
    var commits, table := CommitsOf(systems, moves, maxAttempts), systems[0].table;
    forall k | 0 <= k < |commits|
      ensures CurrentReport(Run(table, commits[..k]), commits[k], maxAttempts)
    {
      TraceIsRun(systems, moves, maxAttempts, k);
      assert IsMove(systems[k], moves[k], systems[k + 1], maxAttempts);
      InTimeIsCurrent(systems[k], moves[k], systems[k + 1], maxAttempts);
    }
    ClaimsAreBounded(table, commits, i, maxAttempts);
    forall c | c in commits
      ensures !c.statement.DoReplay?
    {
      var k :| 0 <= k < |commits| && commits[k] == c;
      assert IsMove(systems[k], moves[k], systems[k + 1], maxAttempts);
    }
    NoReplaysCounted(table, commits, i, maxAttempts);
  }

  lemma {:induction false} NoReplaysCounted(table: Table, commits: seq<Commit>, i: nat, maxAttempts: nat)
    requires forall c | c in commits :: !c.statement.DoReplay?
    ensures AccountOf(table, commits, i, maxAttempts).replays == 0
    ensures AccountOf(table, commits, i, maxAttempts).resurrections == 0
  {
    if commits != [] {
      var front := commits[..|commits| - 1];
      assert forall c | c in front :: c in commits;
      NoReplaysCounted(table, front, i, maxAttempts);
      assert commits[|commits| - 1] in commits;
    }
  }

  // ------------------------------------------------------------------------
  // A report without a claim token
  // ------------------------------------------------------------------------

  lemma ExtendRun(table: Table, commits: seq<Commit>, c: Commit, i: nat, maxAttempts: nat)
    ensures Run(table, commits + [c]) == Apply(Run(table, commits), c)
    ensures i < |Run(table, commits)| ==>
      AccountOf(table, commits + [c], i, maxAttempts)
      == Booked(AccountOf(table, commits, i, maxAttempts), Run(table, commits), c, i, maxAttempts)
  {
    assert (commits + [c])[..|commits + [c]| - 1] == commits;
  }

  /**
   * Two attempts are allowed. A first claim goes stale and is reclaimed, the
   * row is claimed again, and then the first claimant reports.
   */
  const STALE_RUN: seq<Commit> :=
    [Commit(DoClaim({0}), 0)]
    + [Commit(DoReclaim(1, 2), 1)]
    + [Commit(DoClaim({0}), 2)]
    + [Commit(DoFail(0, "timeout", Some(3)), 3)]
    + [Commit(DoClaim({0}), 3)]

  /**
   * The guard on outcomes looks at the status alone. The first claimant still
   * counts its own first attempt, so it may retry (0 + 1 < 2); the outcome is
   * accepted although the row has spent both attempts, and the row is claimed
   * a third time.
   */
  lemma StaleRetryGrantsAnExtraClaim(e: Event)
    ensures AccountOf([Inserted(e, 0)], STALE_RUN, 0, 2) == Account(3, 0, 0, true, true)
    ensures Run([Inserted(e, 0)], STALE_RUN[..3]) == [ClaimedRow(Inserted(e, 0).(attempts := 1), 2)]
    ensures !CurrentReports([Inserted(e, 0)], STALE_RUN, 2)
  {
    var t0, c1 := [Inserted(e, 0)], [Commit(DoClaim({0}), 0)];
    var c2 := c1 + [Commit(DoReclaim(1, 2), 1)];
    var c3 := c2 + [Commit(DoClaim({0}), 2)];
    var c4 := c3 + [Commit(DoFail(0, "timeout", Some(3)), 3)];
    assert c1 == [] + c1;
    ExtendRun(t0, [], c1[0], 0, 2);
    assert Run(t0, c1) == [ClaimedRow(t0[0], 0)];
    ExtendRun(t0, c1, Commit(DoReclaim(1, 2), 1), 0, 2);
    assert Run(t0, c2) == [t0[0].(attempts := 1)];
    ExtendRun(t0, c2, Commit(DoClaim({0}), 2), 0, 2);
    assert Run(t0, c3) == [ClaimedRow(t0[0].(attempts := 1), 2)];
    ExtendRun(t0, c3, Commit(DoFail(0, "timeout", Some(3)), 3), 0, 2);
    ExtendRun(t0, c4, Commit(DoClaim({0}), 3), 0, 2);
    assert STALE_RUN[..3] == c3;
    assert !CurrentReport(Run(t0, STALE_RUN[..3]), STALE_RUN[3], 2);
  }
}
