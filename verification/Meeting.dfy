/**
 * The meeting orchestrator as a state machine. Each public method is one
 * atomic step on a meeting: its state, its count of consecutive failures and
 * the channel log. What an agent answers is an outcome handed to the step.
 */
module Meeting {
  import opened Wrappers
  import opened Phases
  import opened TurnPolicy

  datatype Status = Scheduled | Running | OnHold | HumanControl | Completed | Failed

  datatype Controller = Controller(humanId: string, asPersonaId: Option<string>)

  datatype MeetingError = NoRuntime(personaId: string) | TurnError

  datatype State = State(
    status: Status,
    turnIndex: nat,
    nextSpeakerId: Option<string>,
    phaseIndex: Option<nat>,
    controller: Option<Controller>,
    error: Option<MeetingError>)

  datatype Config = Config(
    participants: seq<Persona>,
    policy: Policy,
    phases: seq<Phase>,
    maxTurns: nat,
    maxConsecutiveFailures: nat)

  datatype Meeting = Meeting(state: State, failures: nat, log: seq<Message>)

  /** What happens when a persona's turn is dispatched. */
  datatype TurnOutcome =
    | Unserved
    | Throws
    | Replies(mentions: seq<string>, words: set<string>, proposesCompletion: bool)

  datatype Skip = NotSkipped | SkippedPaused | SkippedHumanControl | SkippedCompleted | SkippedMaxTurns | SkippedNoSpeaker

  datatype StepResult = StepResult(done: bool, skipped: Skip)

  const SYSTEM: Author := Author(Agent, "system", None)

  predicate Terminal(m: Meeting) {
    m.state.status.Completed? || m.state.status.Failed?
  }

  function Opening(): Meeting {
    Meeting(State(Scheduled, 0, None, None, None, None), 0, [])
  }

  // ------------------------------------------------------------------------
  // Building blocks
  // ------------------------------------------------------------------------

  function Post(m: Meeting, author: Author, kind: MessageKind, note: Note, mentions: seq<string>, words: set<string>)
      : Meeting
  {
    m.(log := m.log + [Message(|m.log| + 1, author, kind, note, mentions, words)])
  }

  function SystemNote(m: Meeting, note: Note): Meeting {
    Post(m, SYSTEM, System, note, [], {})
  }

  /** The policy applied to the room of the current phase, at the turn's offset in it. */
  function PeekNextSpeaker(config: Config, log: seq<Message>, turnIndex: nat): Option<Persona> {
    var position := PhaseAt(config.phases, turnIndex);
    if position.None? then SelectNextSpeaker(Room(config.participants, None), log, turnIndex, config.policy)
    else
      SelectNextSpeaker(
        Room(config.participants, Some(config.phases[position.value.index])), log, position.value.offset, config.policy)
  }

  function PeekId(config: Config, m: Meeting): Option<string> {
    var speaker := PeekNextSpeaker(config, m.log, m.state.turnIndex);
    if speaker.Some? then Some(speaker.value.id) else None
  }

  function ChooseNext(config: Config, m: Meeting): Meeting {
    m.(state := m.state.(nextSpeakerId := PeekId(config, m)))
  }

  function AnnouncePhase(config: Config, m: Meeting, index: nat): Meeting {
    if index < |config.phases| then SystemNote(m, PhaseOpened(index)) else m
  }

  function AdvancePhase(config: Config, m: Meeting): Meeting {
    var position := PhaseAt(config.phases, m.state.turnIndex);
    if position.None? || m.state.phaseIndex == Some(position.value.index) then m
    else
      var announced := AnnouncePhase(config, m, position.value.index);
      announced.(state := announced.state.(phaseIndex := Some(position.value.index)))
  }

  function TakeTurnIndex(m: Meeting): Meeting {
    m.(state := m.state.(turnIndex := m.state.turnIndex + 1))
  }

  function Finish(m: Meeting): Meeting {
    SystemNote(m.(state := m.state.(status := Completed, nextSpeakerId := None, controller := None)), Ended)
  }

  // ------------------------------------------------------------------------
  // The public methods
  // ------------------------------------------------------------------------

  function Start(config: Config, m: Meeting): Meeting {
    if !m.state.status.Scheduled? then m
    else
      var started := SystemNote(m, Started);
      var opening := PhaseAt(config.phases, m.state.turnIndex);
      var announced := if opening.Some? then AnnouncePhase(config, started, opening.value.index) else started;
      ChooseNext(config, announced.(state := announced.state.(
        status := Running,
        phaseIndex := if opening.Some? then Some(opening.value.index) else None)))
  }

  function FailTurn(config: Config, m: Meeting): Meeting {
    var noted := SystemNote(m.(failures := m.failures + 1), TurnFailed);
    if noted.failures >= config.maxConsecutiveFailures then
      noted.(state := noted.state.(status := Failed, error := Some(TurnError)))
    else ChooseNext(config, AdvancePhase(config, TakeTurnIndex(noted)))
  }

  function TakeTurn(config: Config, m: Meeting, speaker: Persona, outcome: TurnOutcome): Meeting {
    match outcome
    case Unserved => m.(state := m.state.(status := Failed, error := Some(NoRuntime(speaker.id))))
    case Throws => FailTurn(config, m)
    case Replies(mentions, words, proposesCompletion) =>
      var spoken := Post(m.(failures := 0), Author(Agent, speaker.id, None), Chat, Plain, mentions, words);
      var counted := TakeTurnIndex(spoken);
      if proposesCompletion || counted.state.turnIndex >= config.maxTurns then Finish(counted)
      else ChooseNext(config, AdvancePhase(config, counted))
  }

  function StepStarted(config: Config, m: Meeting, outcome: TurnOutcome): (Meeting, StepResult) {
    match m.state.status
    case OnHold => (m, StepResult(false, SkippedPaused))
    case HumanControl => (m, StepResult(false, SkippedHumanControl))
    case Completed => (m, StepResult(true, SkippedCompleted))
    case Failed => (m, StepResult(true, SkippedCompleted))
    case _ =>
      if m.state.turnIndex >= config.maxTurns then (Finish(m), StepResult(true, SkippedMaxTurns))
      else
        var speaker := PeekNextSpeaker(config, m.log, m.state.turnIndex);
        if speaker.None? then (Finish(m), StepResult(true, SkippedNoSpeaker))
        else
          var later := TakeTurn(config, m, speaker.value, outcome);
          (later, StepResult(Terminal(later), NotSkipped))
  }

  function Step(config: Config, m: Meeting, outcome: TurnOutcome): (Meeting, StepResult) {
    StepStarted(config, Start(config, m), outcome)
  }

  function Pause(m: Meeting): Meeting {
    if !m.state.status.Running? then m
    else SystemNote(m.(state := m.state.(status := OnHold)), Paused)
  }

  function Resume(m: Meeting): Meeting {
    if !m.state.status.OnHold? && !m.state.status.HumanControl? then m
    else SystemNote(m.(state := m.state.(status := Running, controller := None)), Resumed)
  }

  /** A seat counts when it is given and not the empty string. */
  predicate NamesSeat(seat: Option<string>) {
    seat.Some? && seat.value != ""
  }

  /** Fails only for a seat that nobody in the meeting has. */
  function TakeOver(config: Config, m: Meeting, humanId: string, asPersonaId: Option<string>): Result<Meeting, string> {
    if Terminal(m) then Success(m)
    else if NamesSeat(asPersonaId) && Find(config.participants, asPersonaId.value).None? then
      Failure("Unknown persona")
    else
      Success(SystemNote(
        m.(state := m.state.(status := HumanControl, controller := Some(Controller(humanId, asPersonaId)))), TookOver))
  }

  function Release(m: Meeting): Meeting {
    if !m.state.status.HumanControl? then m
    else SystemNote(m.(state := m.state.(status := Running, controller := None)), HandedBack)
  }

  function SeatOf(m: Meeting, asPersonaId: Option<string>): Option<string> {
    if asPersonaId.Some? then asPersonaId
    else if m.state.controller.Some? then m.state.controller.value.asPersonaId
    else None
  }

  function PostHumanMessage(
      config: Config, m: Meeting, humanId: string, asPersonaId: Option<string>, mentions: seq<string>,
      words: set<string>): Result<Meeting, string>
  {
    if Terminal(m) then Failure("Meeting has ended")
    else
      var seat := SeatOf(m, asPersonaId);
      var posted := Post(m, Author(Human, humanId, seat), Chat, Plain, mentions, words);
      Success(ChooseNext(config,
        if NamesSeat(seat) then AdvancePhase(config, TakeTurnIndex(posted)) else posted))
  }

  function Complete(m: Meeting): Meeting {
    if Terminal(m) then m else Finish(m)
  }
}
