/** Who speaks in a moderated phase of a meeting whose turns nominate nobody. */
module MeetingFairness {
  import opened Wrappers
  import opened Phases
  import opened TurnPolicy
  import opened Meeting
  import opened MeetingRuns

  /** Who may speak at this turn. */
  function RoomAt(config: Config, turnIndex: nat): seq<Persona> {
    var position := PhaseAt(config.phases, turnIndex);
    Room(config.participants, if position.Some? then Some(config.phases[position.value.index]) else None)
  }

  /** The turn's place within its phase. */
  function OffsetAt(config: Config, turnIndex: nat): nat {
    var position := PhaseAt(config.phases, turnIndex);
    if position.Some? then position.value.offset else turnIndex
  }

  lemma PeekAsks(config: Config, log: seq<Message>, turnIndex: nat)
    ensures PeekNextSpeaker(config, log, turnIndex)
      == SelectNextSpeaker(RoomAt(config, turnIndex), log, OffsetAt(config, turnIndex), config.policy)
  {
  }

  /** Calls that leave nothing but notes in the channel. */
  predicate OnlyNotes(op: Op) {
    op.DoPause? || op.DoResume? || op.DoTakeOver? || op.DoRelease? || op.DoStart?
  }

  lemma NotesAreNotSpeech(log: seq<Message>, message: Message)
    ensures LastSpoken(log + [message]) == if message.kind == System then LastSpoken(log) else Some(message)
  {
    assert (log + [message])[..|log|] == log;
  }

  lemma NoteIsNotSpeech(m: Meeting, note: Note)
    ensures LastSpoken(SystemNote(m, note).log) == LastSpoken(m.log)
  {
    NotesAreNotSpeech(m.log, SystemNote(m, note).log[|m.log|]);
  }

  lemma StartIsNotSpeech(config: Config, m: Meeting)
    ensures LastSpoken(Start(config, m).log) == LastSpoken(m.log)
    ensures Start(config, m).state.turnIndex == m.state.turnIndex
  {
    var started := SystemNote(m, Started);
    NoteIsNotSpeech(m, Started);
    var opening := PhaseAt(config.phases, m.state.turnIndex);
    if opening.Some? {
      NoteIsNotSpeech(started, PhaseOpened(opening.value.index));
    }
  }

  lemma OnlyNotesKeepSpeech(config: Config, m: Meeting, op: Op)
    requires OnlyNotes(op)
    ensures LastSpoken(Do(config, m, op).log) == LastSpoken(m.log)
    ensures Do(config, m, op).state.turnIndex == m.state.turnIndex
  {
    hide LastSpoken, Start;
    match op
    case DoStart => StartIsNotSpeech(config, m);
    case DoPause => NoteIsNotSpeech(m.(state := m.state.(status := OnHold)), Paused);
    case DoResume => NoteIsNotSpeech(m.(state := m.state.(status := Running, controller := None)), Resumed);
    case DoTakeOver(facilitator, seat) =>
      NoteIsNotSpeech(
        m.(state := m.state.(status := HumanControl, controller := Some(Controller(facilitator, seat)))), TookOver);
    case DoRelease => NoteIsNotSpeech(m.(state := m.state.(status := Running, controller := None)), HandedBack);
  }

  lemma {:induction false} NotesKeepSpeech(config: Config, m: Meeting, ops: seq<Op>)
    requires forall op | op in ops :: OnlyNotes(op)
    ensures LastSpoken(After(config, m, ops).log) == LastSpoken(m.log)
    ensures After(config, m, ops).state.turnIndex == m.state.turnIndex
  {
    if ops != [] {
      var front := ops[..|ops| - 1];
      assert forall op | op in front :: op in ops;
      NotesKeepSpeech(config, m, front);
      assert ops[|ops| - 1] in ops;
      OnlyNotesKeepSpeech(config, After(config, m, front), ops[|ops| - 1]);
    }
  }

  /** A step that takes a turn, answered with a reply, lets the picked persona speak. */
  lemma StepSpeaks(config: Config, m: Meeting, mentions: seq<string>, words: set<string>, completes: bool)
    requires Step(config, m, Replies(mentions, words, completes)).1.skipped.NotSkipped?
    ensures
      var later, speaker := Step(config, m, Replies(mentions, words, completes)).0, PeekNextSpeaker(config, m.log, m.state.turnIndex);
      && speaker.Some? && LastSpoken(later.log).Some?
      && LastSpoken(later.log).value.author == Author(Agent, speaker.value.id, None)
      && LastSpoken(later.log).value.mentions == mentions && LastSpoken(later.log).value.kind == Chat
      && later.state.turnIndex == m.state.turnIndex + 1
  {
    var s := Start(config, m);
    StartIsNotSpeech(config, m);
    PeekAsks(config, m.log, m.state.turnIndex);
    PeekAsks(config, s.log, s.state.turnIndex);
    OnlyLastSpokenMatters(
      RoomAt(config, m.state.turnIndex), s.log, m.log, OffsetAt(config, m.state.turnIndex), config.policy);
    hide LastSpoken, PeekNextSpeaker, Start, SelectNextSpeaker;
    var speaker := PeekNextSpeaker(config, s.log, s.state.turnIndex).value;
    ReplyIsSpeech(config, s, speaker, mentions, words, completes);
  }

  lemma ReplyIsSpeech(config: Config, m: Meeting, speaker: Persona, mentions: seq<string>, words: set<string>, completes: bool)
    ensures
      var later := TakeTurn(config, m, speaker, Replies(mentions, words, completes));
      && LastSpoken(later.log)
         == Some(Message(|m.log| + 1, Author(Agent, speaker.id, None), Chat, Plain, mentions, words))
      && later.state.turnIndex == m.state.turnIndex + 1
  {
    hide LastSpoken, PeekNextSpeaker;
    var spoken := Post(m.(failures := 0), Author(Agent, speaker.id, None), Chat, Plain, mentions, words);
    NotesAreNotSpeech(m.log, spoken.log[|m.log|]);
    var counted := TakeTurnIndex(spoken);
    NoteIsNotSpeech(counted.(state := counted.state.(status := Completed, nextSpeakerId := None, controller := None)), Ended);
    var position := PhaseAt(config.phases, counted.state.turnIndex);
    if position.Some? {
      NoteIsNotSpeech(counted, PhaseOpened(position.value.index));
    }
  }

  // ------------------------------------------------------------------------
  // A quiet moderated phase
  // ------------------------------------------------------------------------

  /** Between two turns any notes; then a step that takes a turn and nominates nobody in the room. */
  ghost predicate IsQuietTurn(config: Config, m: Meeting, later: Meeting) {
    exists ops, mentions, words, completes :: IsQuietTurnBy(config, m, ops, mentions, words, completes, later)
  }

  ghost predicate IsQuietTurnBy(
      config: Config, m: Meeting, ops: seq<Op>, mentions: seq<string>, words: set<string>, completes: bool, later: Meeting) {
    && (forall op | op in ops :: OnlyNotes(op))
    && var before := After(config, m, ops);
       var (next, result) := Step(config, before, Replies(mentions, words, completes));
       && result.skipped.NotSkipped? && later == next
       && NominatesNobody(config, m, mentions)
  }

  /** The speaker does not mention anybody else in the room. */
  predicate NominatesNobody(config: Config, m: Meeting, mentions: seq<string>) {
    var speaker := PeekNextSpeaker(config, m.log, m.state.turnIndex);
    speaker.Some? && FindMention(mentions, RoomAt(config, m.state.turnIndex), speaker.value.id).None?
  }

  lemma QuietTurnSpeaks(config: Config, m: Meeting, later: Meeting)
    requires IsQuietTurn(config, m, later)
    ensures
      var speaker := PeekNextSpeaker(config, m.log, m.state.turnIndex);
      && speaker.Some? && QuietlyAfter(RoomAt(config, m.state.turnIndex), speaker.value, later.log)
      && LastSpoken(later.log).value.author == Author(Agent, speaker.value.id, None)
      && later.state.turnIndex == m.state.turnIndex + 1
  {
    var ops, mentions, words, completes :| IsQuietTurnBy(config, m, ops, mentions, words, completes, later);
    var before := After(config, m, ops);
    NotesKeepSpeech(config, m, ops);
    PeekAsks(config, m.log, m.state.turnIndex);
    PeekAsks(config, before.log, before.state.turnIndex);
    OnlyLastSpokenMatters(
      RoomAt(config, m.state.turnIndex), before.log, m.log, OffsetAt(config, m.state.turnIndex), config.policy);
    hide LastSpoken, PeekNextSpeaker, Step, After, SelectNextSpeaker, RoomAt;
    StepSpeaks(config, before, mentions, words, completes);
  }

  /** Meetings one quiet turn after the other, the first at the start of a phase and all within it. */
  ghost predicate IsQuietPhase(config: Config, meetings: seq<Meeting>, room: seq<Persona>) {
    && (forall j | 0 <= j < |meetings| ::
          RoomAt(config, meetings[j].state.turnIndex) == room && OffsetAt(config, meetings[j].state.turnIndex) == j)
    && (forall j | 0 <= j < |meetings| - 1 :: IsQuietTurn(config, meetings[j], meetings[j + 1]))
  }

  /**
   * In a moderated phase of a meeting in which no turn fails or nominates
   * somebody, the moderator speaks on every even turn of the phase and on each
   * odd one the other whose slot it is, whatever pauses, takeovers and
   * hand-backs lie between the turns.
   */
  lemma ModeratedPhasesAlternate(config: Config, meetings: seq<Meeting>, room: seq<Persona>, moderatorId: Option<string>, j: nat)
    requires config.policy == Moderated(moderatorId) && room != []
    requires IsQuietPhase(config, meetings, room) && j < |meetings|
    ensures PeekNextSpeaker(config, meetings[j].log, meetings[j].state.turnIndex) == Some(ModeratedSlot(room, moderatorId, j))
    ensures j + 1 < |meetings| ==>
      LastSpoken(meetings[j + 1].log).Some?
      && LastSpoken(meetings[j + 1].log).value.author == Author(Agent, ModeratedSlot(room, moderatorId, j).id, None)
  {
    hide SelectNextSpeaker, PeekNextSpeaker, RoomAt, OffsetAt, ModeratedSlot, IsQuietTurn;
    var logs := (k: nat) => if k < |meetings| then meetings[k].log else [];
    forall k: nat | k < j
      ensures QuietlyAfter(room, SelectNextSpeaker(room, logs(k), k, config.policy).value, logs(k + 1))
    {
      QuietTurnSpeaks(config, meetings[k], meetings[k + 1]);
      PeekAsks(config, meetings[k].log, meetings[k].state.turnIndex);
    }
    ModeratedAlternates(room, moderatorId, logs, j);
    PeekAsks(config, meetings[j].log, meetings[j].state.turnIndex);
    if j + 1 < |meetings| {
      QuietTurnSpeaks(config, meetings[j], meetings[j + 1]);
    }
  }
}
