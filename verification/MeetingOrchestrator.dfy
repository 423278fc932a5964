/**
 * The orchestrator object: its state record is reassigned step by step and its
 * notes and messages go to the channel store. Each method is proved to make
 * exactly the transition of module Meeting, so the results about runs hold for
 * the object.
 */
module MeetingOrchestrator {
  import opened Wrappers
  import opened Phases
  import opened TurnPolicy
  import opened Meeting
  import opened MeetingRuns
  import opened MeetingOutcomes
  import ChannelStore

  class Orchestrator {
    const config: Config
    const channelId: string
    const store: ChannelStore.Store
    var state: State
    var consecutiveFailures: nat

    ghost predicate Valid()
      reads this, store
    {
      store.Valid() && channelId in store.messages
    }

    ghost function View(): Meeting
      reads this, store
      requires Valid()
    {
      Meeting(state, consecutiveFailures, store.messages[channelId])
    }

    /** Other channels of the store keep their logs. */
    twostate predicate OtherChannelsKept()
      reads store
    {
      && old(store.messages).Keys <= store.messages.Keys
      && forall c | c in old(store.messages) && c != channelId :: store.messages[c] == old(store.messages)[c]
    }

    constructor (config: Config, channelId: string, store: ChannelStore.Store)
      requires store.Valid() && channelId in store.messages
      ensures Valid() && this.config == config && this.channelId == channelId && this.store == store
      ensures View() == Opening().(log := store.messages[channelId])
    {
      this.config, this.channelId, this.store := config, channelId, store;
      state := State(Scheduled, 0, None, None, None, None);
      consecutiveFailures := 0;
    }

    method Append(author: Author, kind: MessageKind, note: Note, mentions: seq<string>, words: set<string>)
      requires Valid()
      modifies store
      ensures Valid() && OtherChannelsKept()
      ensures View() == Post(old(View()), author, kind, note, mentions, words)
    {
      var message := store.Append(channelId, author, kind, note, mentions, words);
    }

    method Note(note: Note)
      requires Valid()
      modifies store
      ensures Valid() && OtherChannelsKept()
      ensures View() == SystemNote(old(View()), note)
    {
      Append(SYSTEM, System, note, [], {});
    }

    method Peek() returns (speaker: Option<Persona>)
      requires Valid()
      ensures View() == old(View())
      ensures speaker == PeekNextSpeaker(config, View().log, state.turnIndex)
    {
      var transcript := store.Read(channelId, 0, None);
      var position := FindPhase(config.phases, state.turnIndex);
      if position.None? {
        speaker := SelectNextSpeaker(Room(config.participants, None), transcript, state.turnIndex, config.policy);
      } else {
        speaker := SelectNextSpeaker(
          Room(config.participants, Some(config.phases[position.value.index])), transcript, position.value.offset,
          config.policy);
      }
    }

    method ChooseNextSpeaker()
      requires Valid()
      modifies this
      ensures Valid() && View() == ChooseNext(config, old(View()))
    {
      var speaker := Peek();
      state := state.(nextSpeakerId := if speaker.Some? then Some(speaker.value.id) else None);
    }

    method Advance()
      requires Valid()
      modifies this, store
      ensures Valid() && OtherChannelsKept()
      ensures View() == AdvancePhase(config, old(View()))
    {
      var position := FindPhase(config.phases, state.turnIndex);
      if position.None? || Some(position.value.index) == state.phaseIndex {
        return;
      }
      Note(PhaseOpened(position.value.index));
      state := state.(phaseIndex := Some(position.value.index));
    }

    method AdvanceAndChoose()
      requires Valid()
      modifies this, store
      ensures Valid() && OtherChannelsKept()
      ensures View() == ChooseNext(config, AdvancePhase(config, old(View())))
    {
      hide AdvancePhase, PeekNextSpeaker;
      Advance();
      ChooseNextSpeaker();
    }

    method FinishMeeting()
      requires Valid()
      modifies this, store
      ensures Valid() && OtherChannelsKept()
      ensures View() == Finish(old(View()))
    {
      state := state.(status := Completed, nextSpeakerId := None, controller := None);
      Note(Ended);
    }

    method StartMeeting()
      requires Valid()
      modifies this, store
      ensures Valid() && OtherChannelsKept()
      ensures View() == Start(config, old(View()))
    {
      if state.status != Scheduled {
        return;
      }
      Note(Started);
      var opening := FindPhase(config.phases, state.turnIndex);
      if opening.Some? {
        Note(PhaseOpened(opening.value.index));
      }
      var next := Peek();
      state := state.(
        status := Running,
        phaseIndex := if opening.Some? then Some(opening.value.index) else None,
        nextSpeakerId := if next.Some? then Some(next.value.id) else None);
    }

    method FailCurrentTurn()
      requires Valid()
      modifies this, store
      ensures Valid() && OtherChannelsKept()
      ensures View() == FailTurn(config, old(View()))
    {
      hide AdvancePhase, PeekNextSpeaker;
      consecutiveFailures := consecutiveFailures + 1;
      Note(TurnFailed);
      if consecutiveFailures >= config.maxConsecutiveFailures {
        state := state.(status := Failed, error := Some(TurnError));
        return;
      }
      state := state.(turnIndex := state.turnIndex + 1);
      AdvanceAndChoose();
    }

    method StepMeeting(outcome: TurnOutcome) returns (result: StepResult)
      requires Valid()
      modifies this, store
      ensures Valid() && OtherChannelsKept()
      ensures (View(), result) == Step(config, old(View()), outcome)
    {
      StartMeeting();
      if state.status == OnHold {
        return StepResult(false, SkippedPaused);
      }
      if state.status == HumanControl {
        return StepResult(false, SkippedHumanControl);
      }
      if state.status == Completed || state.status == Failed {
        return StepResult(true, SkippedCompleted);
      }
      if state.turnIndex >= config.maxTurns {
        FinishMeeting();
        return StepResult(true, SkippedMaxTurns);
      }
      var speaker := Peek();
      if speaker.None? {
        FinishMeeting();
        return StepResult(true, SkippedNoSpeaker);
      }
      DispatchTurn(speaker.value, outcome);
      result := StepResult(state.status == Completed || state.status == Failed, NotSkipped);
    }

    /** Hand the turn to the runtime and record what came of it. */
    method DispatchTurn(speaker: Persona, outcome: TurnOutcome)
      requires Valid()
      modifies this, store
      ensures Valid() && OtherChannelsKept()
      ensures View() == TakeTurn(config, old(View()), speaker, outcome)
      ensures TurnWasTaken(config, old(View()), View(), speaker, outcome)
    {
      TurnsAreTaken(config, View(), speaker, outcome);
      hide AdvancePhase, ChooseNext, Finish, FailTurn, TurnWasTaken;
      match outcome
      case Unserved => state := state.(status := Failed, error := Some(NoRuntime(speaker.id)));
      case Throws => FailCurrentTurn();
      case Replies(mentions, words, proposesCompletion) => RecordReply(speaker, mentions, words, proposesCompletion);
    }

    /** The reply goes to the channel and clears the failures; then the meeting ends or moves on. */
    method RecordReply(speaker: Persona, mentions: seq<string>, words: set<string>, proposesCompletion: bool)
      requires Valid()
      modifies this, store
      ensures Valid() && OtherChannelsKept()
      ensures View() == TakeTurn(config, old(View()), speaker, Replies(mentions, words, proposesCompletion))
    {
      hide AdvancePhase, ChooseNext, Finish, FailTurn;
      consecutiveFailures := 0;
      Append(Author(Agent, speaker.id, None), Chat, Plain, mentions, words);
      state := state.(turnIndex := state.turnIndex + 1);
      if proposesCompletion || state.turnIndex >= config.maxTurns {
        FinishMeeting();
      } else {
        AdvanceAndChoose();
      }
    }

    /**
     * Run turns until the meeting ends or `limit` turns have been taken; the
     * default limit is the turn cap. Under the default the run leaves the
     * meeting ended, paused, under human control, or with its turns used up.
     */
    method Run(limit: Option<nat>, outcomes: nat -> TurnOutcome) returns (last: State)
      requires Valid()
      requires TurnsAddUp(View()) && AgentTurns(View().log) <= config.maxTurns
      modifies this, store
      ensures Valid() && OtherChannelsKept() && last == state
      ensures TurnsAddUp(View()) && AgentTurns(View().log) <= config.maxTurns
      ensures limit.None? ==>
        || Terminal(View())
        || state.status == OnHold
        || state.status == HumanControl
        || state.turnIndex >= config.maxTurns
    {
      hide Step, TallyOf;
      var most := if limit.Some? then limit.value else config.maxTurns;
      for i := 0 to most
        invariant Valid() && OtherChannelsKept()
        invariant TurnsAddUp(View()) && AgentTurns(View().log) <= config.maxTurns
        invariant state.turnIndex >= i
      {
        ghost var before := View();
        var result := StepMeeting(outcomes(i));
        StepAddsUp(config, before, outcomes(i));
        if result.done || result.skipped == SkippedPaused || result.skipped == SkippedHumanControl {
          break;
        }
      }
      last := state;
    }

    method PauseMeeting()
      requires Valid()
      modifies this, store
      ensures Valid() && OtherChannelsKept()
      ensures View() == Pause(old(View()))
      ensures state.status == OnHold <==> old(state.status) == OnHold || old(state.status) == Running
    {
      if state.status != Running {
        return;
      }
      state := state.(status := OnHold);
      Note(Paused);
    }

    method ResumeMeeting()
      requires Valid()
      modifies this, store
      ensures Valid() && OtherChannelsKept()
      ensures View() == Resume(old(View()))
      ensures state.status != OnHold && state.status != HumanControl
      ensures Terminal(View()) <==> old(Terminal(View()))
    {
      if state.status != OnHold && state.status != HumanControl {
        return;
      }
      state := state.(status := Running, controller := None);
      Note(Resumed);
    }

    method TakeOverMeeting(humanId: string, asPersonaId: Option<string>) returns (r: Result<State, string>)
      requires Valid()
      modifies this, store
      ensures Valid() && OtherChannelsKept()
      ensures r.Success? <==> TakeOver(config, old(View()), humanId, asPersonaId).Success?
      ensures View() == OrUnchanged(TakeOver(config, old(View()), humanId, asPersonaId), old(View()))
      ensures r.Success? && !old(Terminal(View())) ==>
        state.status == HumanControl && state.controller == Some(Controller(humanId, asPersonaId))
      ensures r.Failure? || old(Terminal(View())) ==> View() == old(View())
    {
      if state.status == Completed || state.status == Failed {
        return Success(state);
      }
      if asPersonaId.Some? && asPersonaId.value != "" && Find(config.participants, asPersonaId.value).None? {
        return Failure("Unknown persona");
      }
      state := state.(status := HumanControl, controller := Some(Controller(humanId, asPersonaId)));
      Note(TookOver);
      r := Success(state);
    }

    method ReleaseMeeting()
      requires Valid()
      modifies this, store
      ensures Valid() && OtherChannelsKept()
      ensures View() == Release(old(View()))
      ensures state.status == if old(state.status) == HumanControl then Running else old(state.status)
    {
      if state.status != HumanControl {
        return;
      }
      state := state.(status := Running, controller := None);
      Note(HandedBack);
    }

    method PostHuman(humanId: string, asPersonaId: Option<string>, mentions: seq<string>, words: set<string>)
      returns (ok: bool)
      requires Valid()
      modifies this, store
      ensures Valid() && OtherChannelsKept()
      ensures ok <==> PostHumanMessage(config, old(View()), humanId, asPersonaId, mentions, words).Success?
      ensures ok <==> !old(Terminal(View()))
      ensures ok ==> HumanSpoke(old(View()), View(), humanId, asPersonaId, mentions, words)
      ensures View() ==
        OrUnchanged(PostHumanMessage(config, old(View()), humanId, asPersonaId, mentions, words), old(View()))
    {
      HumansSpeakThroughTheirSeat(config, View(), humanId, asPersonaId, mentions, words);
      hide AdvancePhase, ChooseNext, PeekNextSpeaker, HumanSpoke, TakeTurn, Finish;
      if state.status == Completed || state.status == Failed {
        return false;
      }
      var seat := asPersonaId;
      if seat.None? && state.controller.Some? {
        seat := state.controller.value.asPersonaId;
      }
      Append(Author(Human, humanId, seat), Chat, Plain, mentions, words);
      PassTurn(seat);
      ok := true;
    }

    /** What was said through a seat used up a turn; either way somebody is next. */
    method PassTurn(seat: Option<string>)
      requires Valid()
      modifies this, store
      ensures Valid() && OtherChannelsKept()
      ensures View() ==
        ChooseNext(config, if NamesSeat(seat) then AdvancePhase(config, TakeTurnIndex(old(View()))) else old(View()))
    {
      hide AdvancePhase, ChooseNext, PeekNextSpeaker;
      if seat.Some? && seat.value != "" {
        state := state.(turnIndex := state.turnIndex + 1);
        AdvanceAndChoose();
      } else {
        ChooseNextSpeaker();
      }
    }

    method CompleteMeeting()
      requires Valid()
      modifies this, store
      ensures Valid() && OtherChannelsKept()
      ensures View() == Complete(old(View()))
      ensures Terminal(View()) && (old(Terminal(View())) ==> View() == old(View()))
    {
      if state.status == Completed || state.status == Failed {
        return;
      }
      FinishMeeting();
    }
  }
}
