/**
 * How meetings end: which calls complete or fail a meeting, what the count of
 * consecutive failures counts, who has the floor, and that nothing happens
 * after the end.
 */
module MeetingOutcomes {
  import opened Wrappers
  import opened Phases
  import opened TurnPolicy
  import opened Meeting
  import opened MeetingRuns

  // ------------------------------------------------------------------------
  // Failures in a row
  // ------------------------------------------------------------------------

  /** The failed turns noted since an agent last spoke. */
  function FailedInARow(log: seq<Message>): nat {
    if log == [] || CountsAsAgentTurn(log[|log| - 1]) then 0
    else FailedInARow(log[..|log| - 1]) + (if log[|log| - 1].note == TurnFailed then 1 else 0)
  }

  lemma FailedInARowPosted(log: seq<Message>, message: Message)
    ensures FailedInARow(log + [message]) ==
      if CountsAsAgentTurn(message) then 0
      else FailedInARow(log) + (if message.note == TurnFailed then 1 else 0)
  {
    assert (log + [message])[..|log|] == log;
  }

  /** The count is the log's, and the meeting has failed for it exactly when it reached the limit. */
  ghost predicate FailuresFit(config: Config, m: Meeting) {
    && m.failures == FailedInARow(m.log)
    && (m.state.status.Failed? && m.state.error == Some(TurnError) <==>
          m.failures > 0 && m.failures >= config.maxConsecutiveFailures)
  }

  /** Apart from failed turns and replies the count stays what it was. */
  lemma PostKeepsFailures(m: Meeting, later: Meeting, message: Message)
    requires later.log == m.log + [message] && !CountsAsAgentTurn(message) && message.note != TurnFailed
    ensures FailedInARow(later.log) == FailedInARow(m.log)
  {
    FailedInARowPosted(m.log, message);
  }

  lemma NoteKeepsFailures(m: Meeting, note: Note)
    requires note != TurnFailed
    ensures FailedInARow(SystemNote(m, note).log) == FailedInARow(m.log)
  {
    PostKeepsFailures(m, SystemNote(m, note), SystemNote(m, note).log[|m.log|]);
  }

  lemma AdvanceKeepsFailures(config: Config, m: Meeting)
    ensures
      var later := ChooseNext(config, AdvancePhase(config, m));
      && FailedInARow(later.log) == FailedInARow(m.log) && later.failures == m.failures
      && later.state.status == m.state.status && later.state.error == m.state.error
  {
    hide FailedInARow, PeekNextSpeaker;
    var position := PhaseAt(config.phases, m.state.turnIndex);
    if position.Some? {
      NoteKeepsFailures(m, PhaseOpened(position.value.index));
    }
  }

  lemma StartKeepsFailures(config: Config, m: Meeting)
    requires FailuresFit(config, m)
    ensures FailuresFit(config, Start(config, m))
  {
    hide FailedInARow, PeekNextSpeaker;
    NoteKeepsFailures(m, Started);
    var opening := PhaseAt(config.phases, m.state.turnIndex);
    if opening.Some? {
      NoteKeepsFailures(SystemNote(m, Started), PhaseOpened(opening.value.index));
    }
  }

  lemma NotedFailureCounts(m: Meeting, noted: Meeting)
    requires noted == SystemNote(m.(failures := m.failures + 1), TurnFailed)
    requires m.failures == FailedInARow(m.log)
    ensures noted.failures == m.failures + 1 == FailedInARow(noted.log) && noted.state == m.state
  {
    FailedInARowPosted(m.log, noted.log[|m.log|]);
  }

  lemma FailedTurnCounts(config: Config, m: Meeting)
    requires FailuresFit(config, m) && !Terminal(m)
    ensures FailuresFit(config, FailTurn(config, m))
    ensures FailTurn(config, m).failures == m.failures + 1
  {
    hide FailedInARow, ChooseNext, AdvancePhase, SystemNote;
    var noted := SystemNote(m.(failures := m.failures + 1), TurnFailed);
    NotedFailureCounts(m, noted);
    AdvanceKeepsFailures(config, TakeTurnIndex(noted));
  }

  lemma TurnCountsFailures(config: Config, m: Meeting, speaker: Persona, outcome: TurnOutcome)
    requires FailuresFit(config, m) && !Terminal(m)
    ensures FailuresFit(config, TakeTurn(config, m, speaker, outcome))
  {
    hide ChooseNext, AdvancePhase;
    match outcome
    case Unserved =>
    case Throws => FailedTurnCounts(config, m);
    case Replies(mentions, words, _) =>
      var spoken := Post(m.(failures := 0), Author(Agent, speaker.id, None), Chat, Plain, mentions, words);
      FailedInARowPosted(m.log, spoken.log[|m.log|]);
      hide FailedInARow;
      NoteKeepsFailures(TakeTurnIndex(spoken), Ended);
      AdvanceKeepsFailures(config, TakeTurnIndex(spoken));
  }

  lemma StepCountsFailures(config: Config, m: Meeting, outcome: TurnOutcome)
    requires FailuresFit(config, m)
    ensures FailuresFit(config, StepStarted(config, m, outcome).0)
  {
    hide FailedInARow, PeekNextSpeaker, TakeTurn;
    NoteKeepsFailures(m, Ended);
    var speaker := PeekNextSpeaker(config, m.log, m.state.turnIndex);
    if speaker.Some? && !Terminal(m) {
      TurnCountsFailures(config, m, speaker.value, outcome);
    }
  }

  lemma PostHumanKeepsFailures(
      config: Config, m: Meeting, humanId: string, seat: Option<string>, mentions: seq<string>, words: set<string>)
    requires FailuresFit(config, m) && !Terminal(m)
    ensures FailuresFit(config, PostHumanMessage(config, m, humanId, seat, mentions, words).value)
  {
    hide FailedInARow, PeekNextSpeaker, AdvancePhase;
    var posted := Post(m, Author(Human, humanId, SeatOf(m, seat)), Chat, Plain, mentions, words);
    PostKeepsFailures(m, posted, posted.log[|m.log|]);
    AdvanceKeepsFailures(config, TakeTurnIndex(posted));
  }

  lemma OpCountsFailures(config: Config, m: Meeting, op: Op)
    requires FailuresFit(config, m)
    ensures FailuresFit(config, Do(config, m, op))
  {
    hide FailedInARow;
    match op
    case DoStart => StartKeepsFailures(config, m);
    case DoStep(outcome) =>
      StartKeepsFailures(config, m);
      StepCountsFailures(config, Start(config, m), outcome);
    case DoPostHuman(humanId, seat, mentions, words) =>
      if !Terminal(m) {
        PostHumanKeepsFailures(config, m, humanId, seat, mentions, words);
      }
    case _ => NoteKeepsFailures(m, NoteOf(op));
  }

  /**
   * In every run the count of consecutive failures is the number of failed
   * turns in the log since an agent last spoke, whatever pauses, takeovers and
   * human messages lie between; and a meeting has failed for failed turns
   * exactly if that number reached the limit. So a meeting that goes on is
   * below it, or has no failure behind it.
   */
  lemma {:induction false} FailuresAreCounted(config: Config, ops: seq<Op>)
    ensures FailuresFit(config, RunOps(config, ops))
  {
    if ops != [] {
      FailuresAreCounted(config, ops[..|ops| - 1]);
      OpCountsFailures(config, RunOps(config, ops[..|ops| - 1]), ops[|ops| - 1]);
    }
  }

  // ------------------------------------------------------------------------
  // How a meeting ends
  // ------------------------------------------------------------------------

  /** The step will hand the turn to somebody, or find that nobody can take one. */
  predicate StepActs(m: Meeting, op: Op) {
    op.DoStep? && (m.state.status == Scheduled || m.state.status == Running)
  }

  predicate TurnIsTaken(config: Config, m: Meeting, op: Op) {
    StepActs(m, op) && m.state.turnIndex < config.maxTurns && config.participants != []
  }

  /** The calls that complete a meeting. */
  predicate Completes(config: Config, m: Meeting, op: Op) {
    || op.DoComplete?
    || (StepActs(m, op) && !TurnIsTaken(config, m, op))
    || (TurnIsTaken(config, m, op) && op.outcome.Replies?
        && (op.outcome.proposesCompletion || m.state.turnIndex + 1 == config.maxTurns))
  }

  /** The calls that fail a meeting. */
  predicate Fails(config: Config, m: Meeting, op: Op) {
    && TurnIsTaken(config, m, op)
    && (op.outcome.Unserved? || (op.outcome.Throws? && m.failures + 1 >= config.maxConsecutiveFailures))
  }

  lemma StartGoesOn(config: Config, m: Meeting)
    requires !Terminal(m)
    ensures
      var later := Start(config, m);
      && later.state.status == (if m.state.status == Scheduled then Running else m.state.status)
      && later.state.turnIndex == m.state.turnIndex && later.failures == m.failures
      && later.state.controller == m.state.controller && later.state.error == m.state.error
  {
    hide PeekNextSpeaker;
  }

  /** When a turn completes or fails the meeting, and that otherwise it just goes on. */
  lemma TurnEnds(config: Config, m: Meeting, speaker: Persona, outcome: TurnOutcome)
    requires m.state.status == Running && m.state.turnIndex < config.maxTurns
    ensures
      var after := TakeTurn(config, m, speaker, outcome).state;
      && (after.status == Completed <==>
            outcome.Replies? && (outcome.proposesCompletion || m.state.turnIndex + 1 == config.maxTurns))
      && (after.status == Failed <==>
            outcome.Unserved? || (outcome.Throws? && m.failures + 1 >= config.maxConsecutiveFailures))
      && (after.status == Running || after.status == Completed || after.status == Failed)
      && after.controller == (if after.status == Completed then None else m.state.controller)
      && (after.status == Failed ==> after.error.Some?)
      && (after.status != Failed ==> after.error == m.state.error)
  {
    hide PeekNextSpeaker;
  }

  /**
   * A live meeting is completed exactly by closing it, by a step that finds
   * the turns used up or nobody taking part, and by a reply that proposes
   * completion or uses the last turn; it fails exactly if nobody serves the
   * speaker or one failure too many follows another.
   */
  lemma EndsExactlyWhen(config: Config, m: Meeting, op: Op)
    requires !Terminal(m)
    ensures Do(config, m, op).state.status == Completed <==> Completes(config, m, op)
    ensures Do(config, m, op).state.status == Failed <==> Fails(config, m, op)
  {
    hide PeekNextSpeaker, TakeTurn, Start;
    StartGoesOn(config, m);
    if StepActs(m, op) {
      var started := Start(config, m);
      SomebodyCanSpeak(config, started);
      var speaker := PeekNextSpeaker(config, started.log, started.state.turnIndex);
      if speaker.Some? && m.state.turnIndex < config.maxTurns {
        TurnEnds(config, started, speaker.value, op.outcome);
      }
    }
  }

  /** Nothing happens after the end. */
  lemma {:induction false} EndedStaysEnded(config: Config, m: Meeting, ops: seq<Op>)
    requires Terminal(m)
    ensures After(config, m, ops) == m
  {
    hide PeekNextSpeaker, AdvancePhase;
    if ops != [] {
      EndedStaysEnded(config, m, ops[..|ops| - 1]);
    }
  }

  /** Somebody has the floor exactly under human control, and there is an error exactly after a failure. */
  predicate FloorFits(m: Meeting) {
    && (m.state.controller.Some? <==> m.state.status == HumanControl)
    && (m.state.error.Some? <==> m.state.status == Failed)
  }

  lemma OpKeepsFloor(config: Config, m: Meeting, op: Op)
    requires FloorFits(m)
    ensures FloorFits(Do(config, m, op))
  {
    hide PeekNextSpeaker, TakeTurn, Start;
    if !Terminal(m) {
      StartGoesOn(config, m);
      if StepActs(m, op) {
        var started := Start(config, m);
        var speaker := PeekNextSpeaker(config, started.log, started.state.turnIndex);
        if speaker.Some? && m.state.turnIndex < config.maxTurns {
          TurnEnds(config, started, speaker.value, op.outcome);
        }
      }
    } else {
      EndedStaysEnded(config, m, [op]);
    }
  }

  lemma {:induction false} FloorIsKnown(config: Config, ops: seq<Op>)
    ensures FloorFits(RunOps(config, ops))
  {
    if ops != [] {
      FloorIsKnown(config, ops[..|ops| - 1]);
      OpKeepsFloor(config, RunOps(config, ops[..|ops| - 1]), ops[|ops| - 1]);
    }
  }

  // ------------------------------------------------------------------------
  // What calls put into the log
  // ------------------------------------------------------------------------

  /** The log goes on after what it held. */
  predicate LogGrows(log: seq<Message>, later: seq<Message>) {
    |log| <= |later| && later[..|log|] == log
  }

  lemma AdvanceOnlyAdds(config: Config, m: Meeting)
    ensures
      var later := ChooseNext(config, AdvancePhase(config, m));
      && LogGrows(m.log, later.log)
      && later.state.turnIndex == m.state.turnIndex && later.state.controller == m.state.controller
      && later.state.status == m.state.status && later.failures == m.failures
      && forall i | |m.log| <= i < |later.log| :: later.log[i].kind == System
  {
    hide PeekNextSpeaker;
  }

  /**
   * A human message goes out under the seat it names, or else under the seat
   * its author's side holds, if any; it uses up that seat's turn, exactly one,
   * and without a seat none. It is refused exactly when the meeting is over.
   */
  lemma HumansSpeakThroughTheirSeat(
      config: Config, m: Meeting, humanId: string, asPersonaId: Option<string>, mentions: seq<string>,
      words: set<string>)
    ensures PostHumanMessage(config, m, humanId, asPersonaId, mentions, words).Failure? <==> Terminal(m)
    ensures !Terminal(m) ==>
      HumanSpoke(m, PostHumanMessage(config, m, humanId, asPersonaId, mentions, words).value, humanId, asPersonaId,
        mentions, words)
  {
    hide PeekNextSpeaker;
    if !Terminal(m) {
      var posted := Post(m, Author(Human, humanId, SeatOf(m, asPersonaId)), Chat, Plain, mentions, words);
      AdvanceOnlyAdds(config, TakeTurnIndex(posted));
    }
  }

  predicate HumanSpoke(
      m: Meeting, later: Meeting, humanId: string, asPersonaId: Option<string>, mentions: seq<string>,
      words: set<string>)
  {
    && |later.log| > |m.log| && LogGrows(m.log, later.log)
    && later.state.status == m.state.status && later.state.controller == m.state.controller
    && later.failures == m.failures
    && var said := later.log[|m.log|];
       && said.seqNo == |m.log| + 1 && said.kind == Chat && said.note == Plain
       && said.author.kind == Human && said.author.id == humanId
       && said.mentions == mentions && said.words == words
       && (asPersonaId.Some? ==> said.author.seat == asPersonaId)
       && (asPersonaId.None? && m.state.controller.Some? ==>
             said.author.seat == m.state.controller.value.asPersonaId)
       && (asPersonaId.None? && m.state.controller.None? ==> said.author.seat == None)
       && (said.author.seat == None || said.author.seat == Some("") ==> later.state.turnIndex == m.state.turnIndex)
       && (said.author.seat != None && said.author.seat != Some("") ==>
             later.state.turnIndex == m.state.turnIndex + 1)
  }

  /** Whoever took over a seat speaks for its persona, whose turn that was. */
  lemma TakenSeatSpeaks(
      config: Config, m: Meeting, facilitator: string, seat: string, mentions: seq<string>, words: set<string>)
    requires !Terminal(m) && seat != "" && Find(config.participants, seat).Some?
    ensures
      var taken := Do(config, m, DoTakeOver(facilitator, Some(seat)));
      var spoken := Do(config, taken, DoPostHuman(facilitator, None, mentions, words));
      && taken.state.status == HumanControl && taken.state.turnIndex == m.state.turnIndex
      && spoken.state.turnIndex == m.state.turnIndex + 1
      && |taken.log| < |spoken.log| && EffectiveSpeaker(spoken.log[|taken.log|]) == seat
  {
    hide PostHumanMessage;
    var taken := Do(config, m, DoTakeOver(facilitator, Some(seat)));
    HumansSpeakThroughTheirSeat(config, taken, facilitator, None, mentions, words);
  }

  /**
   * A reply is one agent message by the speaker, uses up one turn and clears
   * the failures; a failed turn is one note, counts one failure more, and
   * uses up the turn unless it ends the meeting.
   */
  predicate TurnWasTaken(config: Config, m: Meeting, later: Meeting, speaker: Persona, outcome: TurnOutcome) {
    && LogGrows(m.log, later.log)
    && (forall i | |m.log| < i < |later.log| :: later.log[i].kind == System)
    && match outcome
       case Unserved =>
         && later.log == m.log && later.failures == m.failures && later.state.turnIndex == m.state.turnIndex
         && later.state.status == Failed && later.state.error == Some(NoRuntime(speaker.id))
       case Throws =>
         && |later.log| > |m.log| && later.log[|m.log|].kind == System && later.log[|m.log|].note == TurnFailed
         && later.failures == m.failures + 1
         && (later.failures >= config.maxConsecutiveFailures ==>
               && later.state.status == Failed && later.state.error == Some(TurnError)
               && later.state.turnIndex == m.state.turnIndex)
         && (later.failures < config.maxConsecutiveFailures ==>
               later.state.status == m.state.status && later.state.turnIndex == m.state.turnIndex + 1)
       case Replies(mentions, words, proposesCompletion) =>
         && |later.log| > |m.log| && later.log[|m.log|].kind == Chat
         && later.log[|m.log|].author == Author(Agent, speaker.id, None)
         && later.log[|m.log|].mentions == mentions && later.log[|m.log|].words == words
         && later.failures == 0 && later.state.turnIndex == m.state.turnIndex + 1
         && (proposesCompletion || later.state.turnIndex >= config.maxTurns ==> later.state.status == Completed)
         && (!proposesCompletion && later.state.turnIndex < config.maxTurns ==>
               later.state.status == m.state.status)
  }

  lemma GrowsThrough(log: seq<Message>, message: Message, later: seq<Message>)
    requires LogGrows(log + [message], later)
    ensures LogGrows(log, later) && |later| > |log| && later[|log|] == message
  {
    assert later[..|log|] == later[..|log| + 1][..|log|];
    assert later[|log|] == later[..|log| + 1][|log|];
  }

  lemma TurnsAreTaken(config: Config, m: Meeting, speaker: Persona, outcome: TurnOutcome)
    ensures TurnWasTaken(config, m, TakeTurn(config, m, speaker, outcome), speaker, outcome)
  {
    hide ChooseNext, AdvancePhase;
    match outcome
    case Unserved =>
    case Throws =>
      var noted := SystemNote(m.(failures := m.failures + 1), TurnFailed);
      AdvanceOnlyAdds(config, TakeTurnIndex(noted));
      GrowsThrough(m.log, noted.log[|m.log|], TakeTurn(config, m, speaker, outcome).log);
    case Replies(mentions, words, _) =>
      var spoken := Post(m.(failures := 0), Author(Agent, speaker.id, None), Chat, Plain, mentions, words);
      AdvanceOnlyAdds(config, TakeTurnIndex(spoken));
      GrowsThrough(m.log, spoken.log[|m.log|], TakeTurn(config, m, speaker, outcome).log);
  }

  // ------------------------------------------------------------------------
  // Who speaks in a phase
  // ------------------------------------------------------------------------

  /**
   * The speaker is chosen among those the phase in force names if one of them
   * takes part, and from the turn within that phase.
   */
  lemma SpeakerIsOfThePhase(config: Config, log: seq<Message>, turnIndex: nat, p: Position)
    requires Covers(config.phases, p, turnIndex)
    ensures
      var phase := config.phases[p.index];
      var room := Room(config.participants, Some(phase));
      var speaker := PeekNextSpeaker(config, log, turnIndex);
      && speaker == SelectNextSpeaker(room, log, p.offset, config.policy)
      && ((exists q :: q in config.participants && q.id in phase.speakerIds) ==>
            speaker.Some? && speaker.value in config.participants && speaker.value.id in phase.speakerIds)
  {
    hide SelectNextSpeaker;
    PhaseAtIsThePosition(config.phases, turnIndex);
    var phase := config.phases[p.index];
    RoomIsThePhases(config.participants, Some(phase));
    if q :| q in config.participants && q.id in phase.speakerIds {
      assert InPhase(Some(phase), q.id);
      var allowed := Allowed(config.participants, phase.speakerIds);
      assert q in allowed && allowed != [];
      assert Room(config.participants, Some(phase)) == allowed;
    }
  }
}
