/**
 * Runs of a meeting: any sequence of the orchestrator's public methods, with
 * any turn outcomes. What every transcript satisfies.
 */
module MeetingRuns {
  import opened Wrappers
  import opened Phases
  import opened TurnPolicy
  import opened Meeting
  import opened Evals

  datatype Op =
    | DoStart
    | DoStep(outcome: TurnOutcome)
    | DoPause
    | DoResume
    | DoTakeOver(facilitator: string, seat: Option<string>)
    | DoRelease
    | DoPostHuman(humanId: string, asPersonaId: Option<string>, mentions: seq<string>, words: set<string>)
    | DoComplete

  function OrUnchanged(r: Result<Meeting, string>, m: Meeting): Meeting {
    if r.Success? then r.value else m
  }

  function Do(config: Config, m: Meeting, op: Op): Meeting {
    match op
    case DoStart => Start(config, m)
    case DoStep(outcome) => Step(config, m, outcome).0
    case DoPause => Pause(m)
    case DoResume => Resume(m)
    case DoTakeOver(facilitator, seat) => OrUnchanged(TakeOver(config, m, facilitator, seat), m)
    case DoRelease => Release(m)
    case DoPostHuman(humanId, seat, mentions, words) =>
      OrUnchanged(PostHumanMessage(config, m, humanId, seat, mentions, words), m)
    case DoComplete => Complete(m)
  }

  function RunOps(config: Config, ops: seq<Op>): Meeting {
    if ops == [] then Opening()
    else Do(config, RunOps(config, ops[..|ops| - 1]), ops[|ops| - 1])
  }

  // ------------------------------------------------------------------------
  // Human control
  // ------------------------------------------------------------------------

  /** No agent turn so far during human control, and control in the log means no turn can follow. */
  ghost predicate ControlHolds(m: Meeting) {
    && (forall i | 0 <= i < |m.log| :: !Violates(m.log, i))
    && (UnderHumanControl(m.log) ==> m.state.status.HumanControl? || Terminal(m))
  }

  lemma PostKeepsControl(m: Meeting, later: Meeting, message: Message)
    requires ControlHolds(m) && later.log == m.log + [message]
    requires AgentTurn(message) ==> !UnderHumanControl(m.log)
    requires UnderHumanControl(later.log) ==> later.state.status.HumanControl? || Terminal(later)
    ensures ControlHolds(later)
  {
    forall i | 0 <= i < |later.log|
      ensures !Violates(later.log, i)
    {
      assert later.log[..i] == if i < |m.log| then m.log[..i] else m.log;
      assert i < |m.log| ==> !Violates(m.log, i);
    }
  }

  lemma PostedControl(log: seq<Message>, message: Message)
    ensures UnderHumanControl(log + [message]) ==
      if message.kind == System && message.note == TookOver then true
      else if message.kind == System && (message.note == HandedBack || message.note == Resumed) then false
      else UnderHumanControl(log)
  {
    assert (log + [message])[..|log|] == log;
  }

  lemma NoteKeepsControl(m: Meeting, status: Status, note: Note, later: Meeting)
    requires ControlHolds(m)
    requires later.log == SystemNote(m, note).log && later.state.status == status
    requires note == TookOver ==> status.HumanControl?
    requires note != TookOver && note != HandedBack && note != Resumed && UnderHumanControl(m.log) ==>
      status.HumanControl? || status.Completed? || status.Failed?
    ensures ControlHolds(later)
  {
    var message := later.log[|m.log|];
    PostedControl(m.log, message);
    PostKeepsControl(m, later, message);
  }

  lemma AdvanceKeepsControl(config: Config, m: Meeting)
    requires ControlHolds(m)
    ensures ControlHolds(ChooseNext(config, AdvancePhase(config, m)))
  {
    var later := ChooseNext(config, AdvancePhase(config, m));
    if later.log != m.log {
      var index := PhaseAt(config.phases, m.state.turnIndex).value.index;
      NoteKeepsControl(m, m.state.status, PhaseOpened(index), later);
    }
  }

  lemma StartKeepsControl(config: Config, m: Meeting)
    requires ControlHolds(m)
    ensures ControlHolds(Start(config, m))
  {
    if m.state.status.Scheduled? {
      var started := SystemNote(m, Started);
      NoteKeepsControl(m, m.state.status, Started, started);
      var later := Start(config, m);
      assert !UnderHumanControl(started.log);
      if later.log != started.log {
        NoteKeepsControl(started, Running, PhaseOpened(PhaseAt(config.phases, m.state.turnIndex).value.index), later);
      }
    }
  }

  lemma FinishKeepsControl(m: Meeting)
    requires ControlHolds(m)
    ensures ControlHolds(Finish(m))
  {
    NoteKeepsControl(m, Completed, Ended, Finish(m));
  }

  lemma TurnKeepsControl(config: Config, m: Meeting, speaker: Persona, outcome: TurnOutcome)
    requires ControlHolds(m) && (m.state.status.Scheduled? || m.state.status.Running?)
    ensures ControlHolds(TakeTurn(config, m, speaker, outcome))
  {
    hide UnderHumanControl;
    match outcome
    case Unserved =>
    case Throws =>
      var noted := SystemNote(m.(failures := m.failures + 1), TurnFailed);
      NoteKeepsControl(m, m.state.status, TurnFailed, noted);
      AdvanceKeepsControl(config, TakeTurnIndex(noted));
    case Replies(mentions, words, _) =>
      var spoken := Post(m.(failures := 0), Author(Agent, speaker.id, None), Chat, Plain, mentions, words);
      PostedControl(m.log, spoken.log[|m.log|]);
      PostKeepsControl(m, spoken, spoken.log[|m.log|]);
      FinishKeepsControl(TakeTurnIndex(spoken));
      AdvanceKeepsControl(config, TakeTurnIndex(spoken));
  }

  lemma OpKeepsControl(config: Config, m: Meeting, op: Op)
    requires ControlHolds(m)
    ensures ControlHolds(Do(config, m, op))
  {
    hide UnderHumanControl;
    match op
    case DoStart => StartKeepsControl(config, m);
    case DoStep(outcome) =>
      var started := Start(config, m);
      StartKeepsControl(config, m);
      FinishKeepsControl(started);
      var speaker := PeekNextSpeaker(config, started.log, started.state.turnIndex);
      if speaker.Some? && (started.state.status.Scheduled? || started.state.status.Running?) {
        TurnKeepsControl(config, started, speaker.value, outcome);
      }
    case DoPause => if m.state.status.Running? { NoteKeepsControl(m, OnHold, Paused, Pause(m)); }
    case DoResume => if Resume(m) != m { NoteKeepsControl(m, Running, Resumed, Resume(m)); }
    case DoTakeOver(facilitator, seat) =>
      if Do(config, m, op) != m { NoteKeepsControl(m, HumanControl, TookOver, Do(config, m, op)); }
    case DoRelease => if m.state.status.HumanControl? { NoteKeepsControl(m, Running, HandedBack, Release(m)); }
    case DoPostHuman(humanId, seat, mentions, words) =>
      var posted := Post(m, Author(Human, humanId, SeatOf(m, seat)), Chat, Plain, mentions, words);
      PostedControl(m.log, posted.log[|m.log|]);
      PostKeepsControl(m, posted, posted.log[|m.log|]);
      AdvanceKeepsControl(config, TakeTurnIndex(posted));
    case DoComplete => FinishKeepsControl(m);
  }

  /**
   * Every transcript of every run satisfies the handoff scorer: no agent turn
   * lies between a takeover and the next hand-back or resume.
   */
  lemma {:induction false} HumanControlIsRespected(config: Config, ops: seq<Op>)
    ensures forall i | 0 <= i < |RunOps(config, ops).log| :: !Violates(RunOps(config, ops).log, i)
    ensures ControlHolds(RunOps(config, ops))
  {
    if ops != [] {
      HumanControlIsRespected(config, ops[..|ops| - 1]);
      OpKeepsControl(config, RunOps(config, ops[..|ops| - 1]), ops[|ops| - 1]);
    }
  }

  /** Between a takeover and the next thing an agent says somebody handed back or resumed. */
  lemma HandBackComesFirst(config: Config, ops: seq<Op>, i: nat, k: nat)
    requires i < k < |RunOps(config, ops).log|
    requires IsNote(RunOps(config, ops).log[i], TookOver) && AgentTurn(RunOps(config, ops).log[k])
    ensures exists j ::
      i < j < k && (IsNote(RunOps(config, ops).log[j], HandedBack) || IsNote(RunOps(config, ops).log[j], Resumed))
  {
    hide RunOps, UnderHumanControl;
    HumanControlIsRespected(config, ops);
    var log := RunOps(config, ops).log;
    HeldSinceTakeover(log[..k]);
    assert !Violates(log, k);
    assert !HeldSince(log[..k], i);
  }

  // ------------------------------------------------------------------------
  // Turns are conserved
  // ------------------------------------------------------------------------

  predicate CountsAsAgentTurn(m: Message) {
    m.kind == Chat && m.author.kind == Agent
  }

  predicate CountsAsSeatTurn(m: Message) {
    m.kind == Chat && m.author.kind == Human && NamesSeat(m.author.seat)
  }

  /** How many messages of each kind that advances the index the log holds. */
  datatype Tally = Tally(agents: nat, seats: nat, failures: nat)

  function Count(t: Tally, m: Message): Tally {
    if CountsAsAgentTurn(m) then t.(agents := t.agents + 1)
    else if CountsAsSeatTurn(m) then t.(seats := t.seats + 1)
    else if m.note == TurnFailed then t.(failures := t.failures + 1)
    else t
  }

  function TallyOf(log: seq<Message>): Tally {
    if log == [] then Tally(0, 0, 0) else Count(TallyOf(log[..|log| - 1]), log[|log| - 1])
  }

  lemma CountPosted(log: seq<Message>, message: Message)
    ensures TallyOf(log + [message]) == Count(TallyOf(log), message)
  {
    assert (log + [message])[..|log|] == log;
  }

  function AgentTurns(log: seq<Message>): nat {
    TallyOf(log).agents
  }

  /** Turns taken by the log, of every kind that advances the index. */
  function TurnsLogged(log: seq<Message>): nat {
    var t := TallyOf(log);
    t.agents + t.seats + t.failures
  }

  /** The last failure ended the meeting, so its turn was not burnt. */
  predicate EndedByFailure(m: Meeting) {
    m.state.status.Failed? && m.state.error == Some(TurnError)
  }

  predicate TurnsAddUp(m: Meeting) {
    && m.state.turnIndex + (if EndedByFailure(m) then 1 else 0) == TurnsLogged(m.log)
    && (m.state.error.Some? ==> Terminal(m))
  }

  lemma NoteKeepsCounts(m: Meeting, note: Note)
    requires note != TurnFailed
    ensures AgentTurns(SystemNote(m, note).log) == AgentTurns(m.log)
    ensures TurnsLogged(SystemNote(m, note).log) == TurnsLogged(m.log)
  {
    CountPosted(m.log, SystemNote(m, note).log[|m.log|]);
  }

  lemma AdvanceKeepsCounts(config: Config, m: Meeting)
    ensures var later := ChooseNext(config, AdvancePhase(config, m));
      && AgentTurns(later.log) == AgentTurns(m.log) && TurnsLogged(later.log) == TurnsLogged(m.log)
      && later.state.turnIndex == m.state.turnIndex
      && later.state.status == m.state.status && later.state.error == m.state.error
  {
    hide TallyOf;
    var position := PhaseAt(config.phases, m.state.turnIndex);
    if position.Some? {
      NoteKeepsCounts(m, PhaseOpened(position.value.index));
    }
  }

  lemma StartKeepsCounts(config: Config, m: Meeting)
    requires TurnsAddUp(m)
    ensures TurnsAddUp(Start(config, m)) && Start(config, m).state.turnIndex == m.state.turnIndex
    ensures AgentTurns(Start(config, m).log) == AgentTurns(m.log)
  {
    hide TallyOf;
    NoteKeepsCounts(m, Started);
    var opening := PhaseAt(config.phases, m.state.turnIndex);
    if opening.Some? {
      NoteKeepsCounts(SystemNote(m, Started), PhaseOpened(opening.value.index));
    }
  }

  lemma NotedFailureAddsUp(m: Meeting, noted: Meeting)
    requires TurnsAddUp(m) && !Terminal(m)
    requires noted == SystemNote(m.(failures := m.failures + 1), TurnFailed)
    ensures AgentTurns(noted.log) == AgentTurns(m.log)
    ensures TurnsLogged(noted.log) == m.state.turnIndex + 1
  {
    CountPosted(m.log, noted.log[|m.log|]);
  }

  /** A turn that was taken: `agents` agent messages, and one more on the index unless the meeting ended. */
  predicate TurnCounted(m: Meeting, later: Meeting, agents: nat) {
    && TurnsAddUp(later)
    && AgentTurns(later.log) == AgentTurns(m.log) + agents
    && m.state.turnIndex <= later.state.turnIndex
    && (!Terminal(later) ==> later.state.turnIndex == m.state.turnIndex + 1)
  }

  lemma BurntTurnAddsUp(config: Config, m: Meeting, noted: Meeting)
    requires TurnsAddUp(m) && !Terminal(m) && noted.state == m.state
    requires TurnsLogged(noted.log) == m.state.turnIndex + 1 && AgentTurns(noted.log) == AgentTurns(m.log)
    ensures TurnCounted(m, ChooseNext(config, AdvancePhase(config, TakeTurnIndex(noted))), 0)
  {
    hide TallyOf;
    AdvanceKeepsCounts(config, TakeTurnIndex(noted));
  }

  lemma FailureAddsUp(config: Config, m: Meeting)
    requires TurnsAddUp(m) && !Terminal(m)
    ensures TurnCounted(m, FailTurn(config, m), 0)
  {
    hide TallyOf, ChooseNext, AdvancePhase;
    var noted := SystemNote(m.(failures := m.failures + 1), TurnFailed);
    NotedFailureAddsUp(m, noted);
    BurntTurnAddsUp(config, m, noted);
  }

  lemma ReplyAddsUp(config: Config, m: Meeting, speaker: Persona, outcome: TurnOutcome)
    requires TurnsAddUp(m) && !Terminal(m) && outcome.Replies?
    ensures TurnCounted(m, TakeTurn(config, m, speaker, outcome), 1)
  {
    hide TallyOf;
    var spoken := Post(m.(failures := 0), Author(Agent, speaker.id, None), Chat, Plain, outcome.mentions, outcome.words);
    CountPosted(m.log, spoken.log[|m.log|]);
    NoteKeepsCounts(TakeTurnIndex(spoken), Ended);
    AdvanceKeepsCounts(config, TakeTurnIndex(spoken));
  }

  lemma TurnAddsUp(config: Config, m: Meeting, speaker: Persona, outcome: TurnOutcome)
    requires TurnsAddUp(m) && !Terminal(m)
    ensures TurnCounted(m, TakeTurn(config, m, speaker, outcome), if outcome.Replies? then 1 else 0)
  {
    hide TallyOf;
    if outcome.Throws? {
      FailureAddsUp(config, m);
    } else if outcome.Replies? {
      ReplyAddsUp(config, m, speaker, outcome);
    }
  }

  /** What one step does, told by its result. */
  predicate StepCounted(config: Config, m: Meeting, later: Meeting, result: StepResult) {
    && TurnsAddUp(later) && AgentTurns(later.log) <= config.maxTurns
    && m.state.turnIndex <= later.state.turnIndex
    && (result.done <==> Terminal(later))
    && (result.skipped == SkippedPaused ==> later.state.status == OnHold)
    && (result.skipped == SkippedHumanControl ==> later.state.status == HumanControl)
    && (!result.done && result.skipped != SkippedPaused && result.skipped != SkippedHumanControl ==>
          later.state.turnIndex == m.state.turnIndex + 1)
  }

  lemma StartedStepAddsUp(config: Config, m: Meeting, outcome: TurnOutcome)
    requires TurnsAddUp(m) && AgentTurns(m.log) <= config.maxTurns
    ensures StepCounted(config, m, StepStarted(config, m, outcome).0, StepStarted(config, m, outcome).1)
  {
    hide TallyOf;
    NoteKeepsCounts(m, Ended);
    var speaker := PeekNextSpeaker(config, m.log, m.state.turnIndex);
    if speaker.Some? && !Terminal(m) {
      TurnAddsUp(config, m, speaker.value, outcome);
      AgentsStayWithinIndex(m);
    }
  }

  lemma AgentsStayWithinIndex(m: Meeting)
    requires TurnsAddUp(m) && !Terminal(m)
    ensures AgentTurns(m.log) <= m.state.turnIndex
  {
  }

  lemma StepAddsUp(config: Config, m: Meeting, outcome: TurnOutcome)
    requires TurnsAddUp(m) && AgentTurns(m.log) <= config.maxTurns
    ensures StepCounted(config, m, Step(config, m, outcome).0, Step(config, m, outcome).1)
  {
    hide TallyOf;
    StartKeepsCounts(config, m);
    StartedStepAddsUp(config, Start(config, m), outcome);
  }

  lemma SeatTurnAddsUp(config: Config, m: Meeting, posted: Meeting, author: Author)
    requires TurnsAddUp(m) && !Terminal(m) && author.kind == Human && NamesSeat(author.seat)
    requires exists mentions, words :: posted == Post(m, author, Chat, Plain, mentions, words)
    ensures TurnCounted(m, ChooseNext(config, AdvancePhase(config, TakeTurnIndex(posted))), 0)
  {
    hide TallyOf;
    CountPosted(m.log, posted.log[|m.log|]);
    AdvanceKeepsCounts(config, TakeTurnIndex(posted));
  }

  lemma ChimeInAddsUp(config: Config, m: Meeting, posted: Meeting, author: Author)
    requires TurnsAddUp(m) && !Terminal(m) && author.kind == Human && !NamesSeat(author.seat)
    requires exists mentions, words :: posted == Post(m, author, Chat, Plain, mentions, words)
    ensures TurnsAddUp(ChooseNext(config, posted)) && AgentTurns(posted.log) == AgentTurns(m.log)
  {
    hide TallyOf;
    CountPosted(m.log, posted.log[|m.log|]);
  }

  lemma PostHumanAddsUp(
      config: Config, m: Meeting, humanId: string, seat: Option<string>, mentions: seq<string>, words: set<string>)
    requires TurnsAddUp(m) && !Terminal(m)
    ensures var later := PostHumanMessage(config, m, humanId, seat, mentions, words).value;
      TurnsAddUp(later) && AgentTurns(later.log) == AgentTurns(m.log) && m.state.turnIndex <= later.state.turnIndex
  {
    hide TallyOf;
    var author := Author(Human, humanId, SeatOf(m, seat));
    var posted := Post(m, author, Chat, Plain, mentions, words);
    if NamesSeat(author.seat) {
      SeatTurnAddsUp(config, m, posted, author);
    } else {
      ChimeInAddsUp(config, m, posted, author);
    }
  }

  lemma NoteAddsUp(m: Meeting, note: Note, later: Meeting)
    requires TurnsAddUp(m) && !Terminal(m) && note != TurnFailed
    requires later.log == SystemNote(m, note).log
    requires later.state.turnIndex == m.state.turnIndex && later.state.error == m.state.error
    ensures TurnsAddUp(later) && AgentTurns(later.log) == AgentTurns(m.log)
  {
    NoteKeepsCounts(m, note);
  }

  lemma NoteOpAddsUp(config: Config, m: Meeting, op: Op)
    requires TurnsAddUp(m)
    requires op.DoPause? || op.DoResume? || op.DoTakeOver? || op.DoRelease? || op.DoComplete?
    ensures TurnsAddUp(Do(config, m, op)) && AgentTurns(Do(config, m, op).log) == AgentTurns(m.log)
    ensures m.state.turnIndex == Do(config, m, op).state.turnIndex
  {
    hide TallyOf;
    var later := Do(config, m, op);
    if later != m {
      NoteAddsUp(m, NoteOf(op), later);
    }
  }

  function NoteOf(op: Op): Note {
    match op
    case DoPause => Paused
    case DoResume => Resumed
    case DoTakeOver(_, _) => TookOver
    case DoRelease => HandedBack
    case _ => Ended
  }

  lemma OpAddsUp(config: Config, m: Meeting, op: Op)
    requires TurnsAddUp(m) && AgentTurns(m.log) <= config.maxTurns
    ensures TurnsAddUp(Do(config, m, op))
    ensures AgentTurns(Do(config, m, op).log) <= config.maxTurns
    ensures m.state.turnIndex <= Do(config, m, op).state.turnIndex
  {
    hide TallyOf;
    match op
    case DoStart => StartKeepsCounts(config, m);
    case DoStep(outcome) => StepAddsUp(config, m, outcome);
    case DoPostHuman(humanId, seat, mentions, words) =>
      if !Terminal(m) {
        PostHumanAddsUp(config, m, humanId, seat, mentions, words);
      }
    case _ => NoteOpAddsUp(config, m, op);
  }

  /**
   * In every run the turn index is the number of agent messages, human
   * messages through a seat and failed turns, less one if the last failure
   * ended the meeting; agents never speak more often than the turn cap.
   */
  lemma {:induction false} TurnsAreConserved(config: Config, ops: seq<Op>)
    ensures TurnsAddUp(RunOps(config, ops))
    ensures AgentTurns(RunOps(config, ops).log) <= config.maxTurns
  {
    if ops != [] {
      TurnsAreConserved(config, ops[..|ops| - 1]);
      OpAddsUp(config, RunOps(config, ops[..|ops| - 1]), ops[|ops| - 1]);
    }
  }

  /** One round of the run loop: calls that slip in, then a step. */
  datatype Round = Round(others: seq<Op>, outcome: TurnOutcome)

  function After(config: Config, m: Meeting, ops: seq<Op>): Meeting {
    if ops == [] then m else Do(config, After(config, m, ops[..|ops| - 1]), ops[|ops| - 1])
  }

  function RunRounds(config: Config, m: Meeting, rounds: seq<Round>): Meeting {
    if rounds == [] then m
    else
      var n := |rounds| - 1;
      Step(config, After(config, RunRounds(config, m, rounds[..n]), rounds[n].others), rounds[n].outcome).0
  }

  /** No round so far made the loop stop. */
  predicate LoopGoesOn(config: Config, m: Meeting, rounds: seq<Round>) {
    rounds == [] ||
    var n := |rounds| - 1;
    var result := Step(config, After(config, RunRounds(config, m, rounds[..n]), rounds[n].others), rounds[n].outcome).1;
    && LoopGoesOn(config, m, rounds[..n])
    && !result.done && result.skipped != SkippedPaused && result.skipped != SkippedHumanControl
  }

  lemma {:induction false} OthersNeverTurnBack(config: Config, m: Meeting, ops: seq<Op>)
    requires TurnsAddUp(m) && AgentTurns(m.log) <= config.maxTurns
    ensures TurnsAddUp(After(config, m, ops)) && AgentTurns(After(config, m, ops).log) <= config.maxTurns
    ensures m.state.turnIndex <= After(config, m, ops).state.turnIndex
  {
    hide TallyOf;
    if ops != [] {
      OthersNeverTurnBack(config, m, ops[..|ops| - 1]);
      hide Do;
      OpAddsUp(config, After(config, m, ops[..|ops| - 1]), ops[|ops| - 1]);
    }
  }

  /**
   * Whatever other calls slip in between its steps, a run loop that goes
   * through `n` rounds has used up `n` turns; so the default loop, which allows
   * `maxTurns` rounds, is only left early by a step that ended the meeting or
   * found it paused or under human control.
   */
  lemma {:induction false} RoundsUseTurns(config: Config, m: Meeting, rounds: seq<Round>)
    requires TurnsAddUp(m) && AgentTurns(m.log) <= config.maxTurns
    requires LoopGoesOn(config, m, rounds)
    ensures TurnsAddUp(RunRounds(config, m, rounds))
    ensures AgentTurns(RunRounds(config, m, rounds).log) <= config.maxTurns
    ensures m.state.turnIndex + |rounds| <= RunRounds(config, m, rounds).state.turnIndex
  {
    hide TallyOf, Step;
    if rounds != [] {
      var n := |rounds| - 1;
      RoundsUseTurns(config, m, rounds[..n]);
      var before := After(config, RunRounds(config, m, rounds[..n]), rounds[n].others);
      OthersNeverTurnBack(config, RunRounds(config, m, rounds[..n]), rounds[n].others);
      StepAddsUp(config, before, rounds[n].outcome);
    }
  }

  // ------------------------------------------------------------------------
  // The announced speaker
  // ------------------------------------------------------------------------

  /** The stored next speaker is the one the policy would pick now. */
  predicate SpeakerFits(config: Config, m: Meeting) {
    !Terminal(m) ==> m.state.nextSpeakerId == PeekId(config, m)
  }

  lemma NoteKeepsSpeaker(config: Config, m: Meeting, note: Note)
    ensures PeekId(config, SystemNote(m, note)) == PeekId(config, m)
  {
    var message, position := SystemNote(m, note).log[|m.log|], PhaseAt(config.phases, m.state.turnIndex);
    PhaseAtIsThePosition(config.phases, m.state.turnIndex);
    var room := Room(config.participants,
      if position.Some? then Some(config.phases[position.value.index]) else None);
    var offset := if position.Some? then position.value.offset else m.state.turnIndex;
    SystemNotesDoNotMatter(room, m.log, message, offset, config.policy);
  }

  /** Notes between turns leave the choice and the stored speaker alone; everything else chooses again. */
  lemma OpKeepsSpeaker(config: Config, m: Meeting, op: Op)
    requires SpeakerFits(config, m) || m.state.nextSpeakerId.None?
    ensures SpeakerFits(config, Do(config, m, op)) || Do(config, m, op).state.nextSpeakerId.None?
  {
    hide PeekNextSpeaker;
    match op
    case DoStart =>
    case DoStep(outcome) =>
    case DoPause => NoteKeepsSpeaker(config, m.(state := m.state.(status := OnHold)), Paused);
    case DoResume => NoteKeepsSpeaker(config, m.(state := m.state.(status := Running, controller := None)), Resumed);
    case DoTakeOver(facilitator, seat) =>
      NoteKeepsSpeaker(config,
        m.(state := m.state.(status := HumanControl, controller := Some(Controller(facilitator, seat)))), TookOver);
    case DoRelease =>
      NoteKeepsSpeaker(config, m.(state := m.state.(status := Running, controller := None)), HandedBack);
    case DoPostHuman(_, _, _, _) =>
    case DoComplete =>
  }

  lemma {:induction false} SpeakerFitsOrNobody(config: Config, ops: seq<Op>)
    ensures SpeakerFits(config, RunOps(config, ops)) || RunOps(config, ops).state.nextSpeakerId.None?
  {
    if ops != [] {
      SpeakerFitsOrNobody(config, ops[..|ops| - 1]);
      OpKeepsSpeaker(config, RunOps(config, ops[..|ops| - 1]), ops[|ops| - 1]);
    }
  }

  /** The policy has a speaker unless nobody takes part. */
  lemma SomebodyCanSpeak(config: Config, m: Meeting)
    ensures PeekId(config, m).None? <==> config.participants == []
  {
    PhaseAtIsThePosition(config.phases, m.state.turnIndex);
  }

  /** The meeting is over, somebody is named, or there is nobody to name. */
  predicate NamesSomebody(config: Config, m: Meeting) {
    Terminal(m) || m.state.nextSpeakerId.Some? || config.participants == []
  }

  /**
   * In every run, however it began: the stored next speaker is the persona
   * the policy picks now exactly if the meeting is over, or names somebody, or
   * has nobody to name.
   */
  lemma NextSpeakerFitsIfNamed(config: Config, ops: seq<Op>)
    ensures SpeakerFits(config, RunOps(config, ops)) <==> NamesSomebody(config, RunOps(config, ops))
  {
    SpeakerFitsOrNobody(config, ops);
    SomebodyCanSpeak(config, RunOps(config, ops));
  }

  predicate Begins(op: Op) {
    op.DoStart? || op.DoStep?
  }

  /** Once somebody is named, somebody stays named; starting and human messages name somebody. */
  lemma OpNamesSomebody(config: Config, m: Meeting, op: Op)
    requires NamesSomebody(config, m) || op.DoPostHuman? || (m.state.status.Scheduled? && Begins(op))
    ensures NamesSomebody(config, Do(config, m, op))
  {
    forall later: Meeting
      ensures NamesSomebody(config, ChooseNext(config, later))
    {
      SomebodyCanSpeak(config, later);
    }
    hide PeekNextSpeaker, PeekId;
    match op
    case _ =>
  }

  lemma {:induction false} RunsNameSomebody(config: Config, ops: seq<Op>)
    requires ops != [] && (Begins(ops[0]) || ops[0].DoPostHuman?)
    ensures NamesSomebody(config, RunOps(config, ops))
  {
    var front, op := ops[..|ops| - 1], ops[|ops| - 1];
    if front != [] {
      RunsNameSomebody(config, front);
    }
    OpNamesSomebody(config, RunOps(config, front), op);
  }

  /**
   * In a run that begins with start or step (or with a human message), every
   * live state names as next speaker the persona the policy picks now, however
   * many notes of pauses, takeovers and hand-backs came between.
   */
  lemma NextSpeakerIsCurrent(config: Config, ops: seq<Op>)
    requires ops != [] && (Begins(ops[0]) || ops[0].DoPostHuman?)
    ensures SpeakerFits(config, RunOps(config, ops))
  {
    RunsNameSomebody(config, ops);
    NextSpeakerFitsIfNamed(config, ops);
  }

  /** So the turn the next step takes is the announced speaker's. */
  lemma AnnouncedSpeakerTakesTheTurn(config: Config, m: Meeting, outcome: TurnOutcome)
    requires SpeakerFits(config, m) && m.state.status.Running?
    requires m.state.turnIndex < config.maxTurns && outcome.Replies?
    ensures m.state.nextSpeakerId.Some? ==>
      var later := Step(config, m, outcome).0;
      |later.log| > |m.log| && later.log[..|m.log|] == m.log
      && later.log[|m.log|].author == Author(Agent, m.state.nextSpeakerId.value, None)
      && later.log[|m.log|].kind == Chat
  {
  }

  /** A takeover of a meeting nobody started leaves no speaker named, though the policy has one. */
  lemma TakeoverFirstNamesNobody(config: Config, facilitator: string)
    requires config.participants != []
    ensures !SpeakerFits(config, RunOps(config, [DoTakeOver(facilitator, None)]))
  {
    var ops: seq<Op> := [DoTakeOver(facilitator, None)];
    assert ops[..0] == [];
    assert RunOps(config, ops) == Do(config, Opening(), ops[0]);
  }

  // ------------------------------------------------------------------------
  // Phase announcements
  // ------------------------------------------------------------------------

  /** The phases announced in the log, in order. */
  function Announced(log: seq<Message>): seq<nat> {
    if log == [] then []
    else
      Announced(log[..|log| - 1])
      + (if log[|log| - 1].note.PhaseOpened? then [log[|log| - 1].note.index] else [])
  }

  lemma AnnouncePosted(log: seq<Message>, message: Message)
    ensures Announced(log + [message]) == Announced(log) + (if message.note.PhaseOpened? then [message.note.index] else [])
  {
    assert (log + [message])[..|log|] == log;
  }

  /** The list 0, 1, ..., n - 1. */
  ghost predicate CountsUp(s: seq<nat>, n: nat) {
    |s| == n && forall i | 0 <= i < n :: s[i] == i
  }

  /**
   * The phases announced are 0 to `phaseIndex`, and in a live meeting
   * `phaseIndex` is the phase of the turn index.
   */
  ghost predicate PhasesFit(config: Config, m: Meeting) {
    && !m.state.status.Scheduled?
    && if config.phases == [] then Announced(m.log) == []
       else
         && m.state.phaseIndex.Some?
         && CountsUp(Announced(m.log), m.state.phaseIndex.value + 1)
         && (!Terminal(m) ==> m.state.phaseIndex.value == PhaseAt(config.phases, m.state.turnIndex).value.index)
  }

  lemma NoteKeepsPhases(m: Meeting, note: Note)
    requires !note.PhaseOpened?
    ensures Announced(SystemNote(m, note).log) == Announced(m.log)
  {
    AnnouncePosted(m.log, SystemNote(m, note).log[|m.log|]);
  }

  /** One turn further, the next phase is announced exactly when it begins. */
  lemma AdvanceKeepsPhases(config: Config, m: Meeting, before: Meeting)
    requires PhasesFit(config, before) && !Terminal(before)
    requires m.state == before.state.(turnIndex := before.state.turnIndex + 1)
    requires Announced(m.log) == Announced(before.log)
    ensures PhasesFit(config, ChooseNext(config, AdvancePhase(config, m)))
  {
    if config.phases != [] {
      NextTurnNextPhase(config.phases, before.state.turnIndex);
      PhaseAtIsThePosition(config.phases, m.state.turnIndex);
      var index := PhaseAt(config.phases, m.state.turnIndex).value.index;
      AnnouncePosted(m.log, SystemNote(m, PhaseOpened(index)).log[|m.log|]);
    }
  }

  lemma StartOpensTheFirstPhase(config: Config, m: Meeting)
    requires m == Opening()
    ensures PhasesFit(config, Start(config, m))
  {
    NoteKeepsPhases(m, Started);
    if config.phases != [] {
      PhaseAtIsThePosition(config.phases, 0);
      var opening := PhaseAt(config.phases, 0).value;
      assert Covers(config.phases, Position(0, 0, 0, |config.phases| == 1), 0);
      var started := SystemNote(m, Started);
      AnnouncePosted(started.log, SystemNote(started, PhaseOpened(opening.index)).log[|started.log|]);
    }
  }

  lemma FailureKeepsPhases(config: Config, m: Meeting)
    requires PhasesFit(config, m) && !Terminal(m)
    ensures PhasesFit(config, FailTurn(config, m))
  {
    hide Announced, CountsUp, PhaseAt, ChooseNext, AdvancePhase;
    var noted := SystemNote(m.(failures := m.failures + 1), TurnFailed);
    NoteKeepsPhases(m.(failures := m.failures + 1), TurnFailed);
    AdvanceKeepsPhases(config, TakeTurnIndex(noted), m);
  }

  lemma TurnKeepsPhases(config: Config, m: Meeting, speaker: Persona, outcome: TurnOutcome)
    requires PhasesFit(config, m) && !Terminal(m)
    ensures PhasesFit(config, TakeTurn(config, m, speaker, outcome))
  {
    match outcome
    case Unserved =>
    case Throws => FailureKeepsPhases(config, m);
    case Replies(mentions, words, _) =>
      var spoken := Post(m.(failures := 0), Author(Agent, speaker.id, None), Chat, Plain, mentions, words);
      AnnouncePosted(m.log, spoken.log[|m.log|]);
      NoteKeepsPhases(TakeTurnIndex(spoken), Ended);
      AdvanceKeepsPhases(config, TakeTurnIndex(spoken), m);
  }

  lemma StepKeepsPhases(config: Config, m: Meeting, outcome: TurnOutcome)
    requires PhasesFit(config, m)
    ensures PhasesFit(config, StepStarted(config, m, outcome).0)
  {
    hide Announced, CountsUp, PhaseAt, PeekNextSpeaker, TakeTurn;
    NoteKeepsPhases(m, Ended);
    var speaker := PeekNextSpeaker(config, m.log, m.state.turnIndex);
    if speaker.Some? && !Terminal(m) {
      TurnKeepsPhases(config, m, speaker.value, outcome);
    }
  }

  lemma PostHumanKeepsPhases(
      config: Config, m: Meeting, humanId: string, seat: Option<string>, mentions: seq<string>, words: set<string>)
    requires PhasesFit(config, m) && !Terminal(m)
    ensures PhasesFit(config, PostHumanMessage(config, m, humanId, seat, mentions, words).value)
  {
    var posted := Post(m, Author(Human, humanId, SeatOf(m, seat)), Chat, Plain, mentions, words);
    AnnouncePosted(m.log, posted.log[|m.log|]);
    AdvanceKeepsPhases(config, TakeTurnIndex(posted), m);
  }

  lemma NoteOpKeepsPhases(config: Config, m: Meeting, op: Op)
    requires PhasesFit(config, m)
    requires op.DoPause? || op.DoResume? || op.DoTakeOver? || op.DoRelease? || op.DoComplete?
    ensures PhasesFit(config, Do(config, m, op))
  {
    NoteKeepsPhases(m, NoteOf(op));
  }

  lemma OpKeepsPhases(config: Config, m: Meeting, op: Op)
    requires PhasesFit(config, m) || (m == Opening() && Begins(op))
    ensures PhasesFit(config, Do(config, m, op))
  {
    if m == Opening() {
      StartOpensTheFirstPhase(config, m);
    }
    match op
    case DoStart =>
    case DoStep(outcome) => StepKeepsPhases(config, Start(config, m), outcome);
    case DoPostHuman(humanId, seat, mentions, words) =>
      if !Terminal(m) {
        PostHumanKeepsPhases(config, m, humanId, seat, mentions, words);
      }
    case _ => NoteOpKeepsPhases(config, m, op);
  }

  /**
   * In a run that begins with start or step the channel announces the phases
   * 0, 1, 2, ... in order, none skipped and none twice, up to the phase the
   * turn index is in.
   */
  lemma {:induction false} PhasesAreAnnouncedInOrder(config: Config, ops: seq<Op>)
    requires ops != [] && Begins(ops[0])
    ensures PhasesFit(config, RunOps(config, ops))
  {
    var front, op := ops[..|ops| - 1], ops[|ops| - 1];
    if front != [] {
      PhasesAreAnnouncedInOrder(config, front);
    }
    OpKeepsPhases(config, RunOps(config, front), op);
  }
}
