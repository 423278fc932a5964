# Models of the outbox, meetings, document trees and model access

This project models five parts of the repository in Dafny 4.11 and proves
what they promise. `dafny verify dfyconfig.toml` checks all of it.

* **Transactional outbox** (`PipelineEvents`, `Outbox`, `OutboxStore`,
  `OutboxRuns`, `OutboxTermination`, `OutboxBudget`): a table of rows moving through pending,
  processing, processed and dead. Every SQL statement or transaction is one
  commit. The store is a class over the table; runs are sequences of commits
  by any number of workers. Main results: histories alternate, the claims of
  a row add up and are bounded exactly when no late retry is granted, replays
  run through the whole pipeline, and every run ends.
* **Meetings** (`Phases`, `TurnPolicy`, `ChannelStore`, `Meeting`,
  `MeetingRuns`, `MeetingOutcomes`, `MeetingFairness`, `MeetingOrchestrator`,
  `Evals`): the six-status machine over an append-only channel, with turn
  budget, phases, failures, human control and speaker policies, and the scorers
  that judge a transcript. Every public call is one step of a run; the class
  performs the same steps in place. Main
  results: no agent speaks under human control, turns and failures are counted
  right, meetings end exactly when they should, the named speaker is the one
  that speaks, phases are announced in order, policies are fair, and the
  participation score means balance.
* **Document trees** (`TextLines`, `NearestSmaller`, the `Document` modules):
  the line-driven builder with its heading and list stacks, open run, fenced
  blocks and page cursor. `DocumentDraft` states the parse on values,
  `DocumentTree` performs it on linked nodes. Main results: every node has the
  right parent, level, text and page, and rendering gives the text back
  without the blank lines outside fenced code, idempotently.
* **Structured output** (`Json`, `Schemas`, `JsonSchemas`, `StrictSchemas`,
  `NodeRewriting`, `SentSchemas`, `RewrittenNodes`, `NullDecoding`,
  `StructuredOutput`): validation schemas,
  their strict JSON Schemas (JSON Schema Validation draft-07, sections 6.1 to
  6.7), and the rewriting that decodes nulls. Main results: exactly what the
  sent schema accepts, that every accepted answer decodes, and exactly which
  values survive the round trip, with counterexamples where a side condition
  is left out.
* **Scanners and configuration** (`UsageMeter`, `NormalizeContent`,
  `ChatTypes`, `ChatConfig`, `ChatModelFactory`): a chunked stream scanner
  that equals one scan of the whole text, a rewriter whose segments tile its
  input, and a configuration that is validated once so that resolving from it
  cannot go wrong.

Where the source keeps state and changes it, the model does too: the outbox
store, the channel store, the orchestrator, the tree builder and its nodes and
the stream meter are classes whose methods are proved against functions, and
loops of the source are loops. The lemmas are about those functions.

## Model

| member | source | states |
|---|---|---|
| `PipelineEvents.StoredKeysAreUnambiguous` | packages/orchestration/src/pipeline-events.ts:223-245 | An event id as stored determines its type and its key: events of different stages never share a row |
| `Outbox.EnqueueOneKeeps` | packages/orchestration/src/outbox-store.ts:34-65 | Enqueue-or-revive keeps ids unique and loses no row, always leaves the event with a pending or processing row, and changes neither a live row nor any other row |
| `Outbox.EnqueueAllKeeps` | packages/orchestration/src/outbox-store.ts:34-65 | A list of enqueues keeps the table valid, leaves every live row as it was, and touches only rows it names |
| `Outbox.EnqueueAllRevives` | packages/orchestration/src/outbox-store.ts:50-63 | Every enqueued event ends up with a live row, whatever state its row was in before |
| `Outbox.EnqueueOneRows` | packages/orchestration/src/outbox-store.ts:34-65 | Row by row: a processed or dead row for the event holds it as enqueued, pending, due at once, with no attempts, claim time or error; a new row holds the same; every other row is as it was |
| `Outbox.EnqueueAllRows` | packages/orchestration/src/outbox-store.ts:34-65 | For a list: a live row and a row nobody names stay, and every other row holds the first event of the list for its id, pending with a fresh budget |
| `OutboxStore.EnqueuedIsHandedOver` | packages/orchestration/src/outbox-store.ts:50-155 | An event enqueued again for a row that was dead, whatever payload made it so, is handed to the next claimant that takes enough rows, as it is now and with no attempts spent |
| `OutboxStore.ClaimedAmongAre` | packages/orchestration/src/outbox-store.ts:108-154 | The claimant gets exactly the claimed rows whose payload parses, each with its event and its attempts |
| `Outbox.ClaimKeeps` | packages/orchestration/src/outbox-store.ts:89-104 | Claiming keeps ids unique and every row; pending rows have no claim time and processing rows have one, so every orphan can be reclaimed |
| `Outbox.CompleteKeeps` | packages/orchestration/src/outbox-store.ts:157-178 | An outcome that is discarded or rolled back leaves the table exactly as it was; an accepted one keeps it valid |
| `Outbox.ReclaimKeeps` | packages/orchestration/src/outbox-store.ts:229-251 | Reclaiming stale claims keeps the table valid and loses no row |
| `Outbox.DueIdsAreTheDueRows` | packages/orchestration/src/outbox-store.ts:94-101 | The rows considered for a claim are exactly the due pending ones, oldest first |
| `Outbox.BatchTakesTheOldest` | packages/orchestration/src/outbox-store.ts:91-104 | A batch holds due rows only; a due row left behind is younger than every row taken, and then the batch is full |
| `OutboxStore.Store.Enqueue` | packages/orchestration/src/outbox-store.ts:34-65 | Rows before the first malformed event stay, the call fails there, and it succeeds exactly if all events are well formed; every row the accepted events took over holds the first of them for its id, afresh |
| `OutboxStore.Store.Upsert` | packages/orchestration/src/outbox-store.ts:34-65 | A row that was processed or dead holds the new event, pending, due now, with no attempts, claim time or error; without a row one is added like that; a live row and all others are unchanged |
| `OutboxStore.Store.Select` | packages/orchestration/src/outbox-store.ts:89-104 | The claim statement marks exactly the oldest due rows up to the limit |
| `OutboxStore.Store.ParseClaimed` | packages/orchestration/src/outbox-store.ts:106-155 | Exactly the claimed rows whose payload no longer parses go dead; the others are handed to the claimant in order |
| `OutboxStore.Store.ClaimBatch` | packages/orchestration/src/outbox-store.ts:89-155 | The whole table after a claim: selected rows are processing since now, those whose payload no longer parses are dead at once with one attempt more, and the claimant sees exactly the well-formed ones with their attempts |
| `OutboxStore.Store.MarkProcessed` | packages/orchestration/src/outbox-store.ts:157-183 | Discarded exactly if the row is not processing; anything but acceptance changes nothing; on acceptance the row is processed now without an error, and the follow-ups have live rows in the same commit, as enqueueing leaves them |
| `OutboxStore.Store.MarkFailed` | packages/orchestration/src/outbox-store.ts:185-227 | Accepted exactly for a processing row, which then has one attempt more and the error kept to 4000 characters, and is due again exactly at the retry time or dead without one; no other row changes |
| `OutboxStore.Store.ReclaimStale` | packages/orchestration/src/outbox-store.ts:229-294 | Exactly the stale claims lose their claim time and count one attempt more; they go dead with the explanation if that spends the limit, else back to pending; the count and the reported deaths match the table before |
| `OutboxStore.ReclaimDeathsAre` | packages/orchestration/src/outbox-store.ts:266-292 | A reclaim reports exactly the rows it kills whose payload parses, with the attempts before the one that failed |
| `OutboxStore.CountRowsCounts` | packages/orchestration/src/outbox-store.ts:258-302 | The counts of rows are numbers of places in the table |
| `OutboxStore.Store.CountDead` | packages/orchestration/src/outbox-store.ts:296-302 | The number of dead rows |
| `OutboxStore.Store.ReplayEvent` | packages/orchestration/src/outbox-store.ts:310-322 | Moves exactly a row that is not already pending back to pending, keeping its attempts, and says whether it did |
| `OutboxRuns.RunKeeps` | packages/orchestration/src/outbox-store.ts:34-322 | In every run of statements ids stay unique, claim times fit statuses, and no row is ever removed or changes its id |
| `OutboxRuns.EventsMoveTheRow` | packages/orchestration/src/outbox-store.ts:91-104 | A row enters processing exactly at a claim and leaves it exactly at an accepted outcome, a reclaim or a replay |
| `OutboxRuns.HistoryAlternates` | packages/orchestration/src/outbox-store.ts:157-219 | In every run a row's claims and exits alternate, starting with a claim; it is processing exactly if the last one was a claim |
| `OutboxBudget.ClaimsAddUp` | packages/orchestration/src/outbox-store.ts:89-322 | In every run, whatever is reported: claims of a row since it was inserted or revived are its attempts, one more while the last claim is open or ended well, and one per replay of a claimed or processed row |
| `OutboxBudget.LimitIsOversteppedByLateRetries` | packages/orchestration/src/outbox-store.ts:198-215 | Exactly when a row not replayed since its revival is claimed beyond the limit: a failure was rescheduled although the attempts were spent, and the row was claimed again after that |
| `OutboxBudget.ClaimsAreBounded` | packages/orchestration/src/outbox-processing/outbox-tick.ts:117-135 | If no retry is granted beyond the limit, a row is claimed at most maxAttempts times on one budget, and once more for every replay, which gives no fresh budget |
| `OutboxBudget.TimelyReportsStayWithinLimit` | packages/orchestration/src/outbox-processing/outbox-tick.ts:117-135 | Workers that decide on the attempts they read and report before being reclaimed, or never, grant no such retry, so no row is claimed more than maxAttempts times |
| `OutboxBudget.StaleRetryGrantsAnExtraClaim` | packages/orchestration/src/outbox-store.ts:198-215 | The guard looks at the status alone: a run in which a late retry of an earlier claimant is accepted and the row is claimed a third time with two attempts allowed |
| `OutboxRuns.CascadeInvariant` | packages/orchestration/src/outbox-store.ts:157-178 | In every run, whatever an event's processing enqueues is live or already done since the renewal |
| `OutboxRuns.ReplayCascades` | packages/orchestration/src/outbox-store.ts:310-322 | After a replay and a run to quiescence the replayed event, and with every event processed since all follow-ups of its row's event, have been processed at a commit later than the replay, except those whose rows are dead |
| `OutboxRuns.ReplayRunsThePipeline` | packages/orchestration/src/outbox-processing/process-event.ts:74-212 | With the real dispatch table and nothing dead, the processed events run from the replayed one stage by stage to the end of the pipeline |
| `PipelineEvents.Process` | packages/orchestration/src/outbox-processing/process-event.ts:74-212 | The dispatch table: at most one follow-up, exactly of the next stage, for the same company, job, version and trace and keyed by the job or the version; none for an expanded archive and the last stages |
| `OutboxTermination.StepDecreases` | packages/orchestration/src/outbox-store.ts:89-251 | Every claim, outcome, reclaim and late outcome lowers a measure ordered stage by stage, although finishing a stage revives later rows with fresh attempts |
| `OutboxTermination.DescentEnds` | packages/orchestration/src/pipeline-events.ts:44-51 | The stage-by-stage order has no infinite descent over six stages |
| `OutboxTermination.EveryRunEnds` | packages/orchestration/src/outbox-processing/outbox-tick.ts:88-135 | Without outside enqueues and replays every run of the outbox is finite, also when stale outcomes are accepted |
| `OutboxTermination.PossibleIsEnabled` | packages/orchestration/src/outbox-processing/process-event.ts:74-212 | Whatever the dispatch table gives for a well-formed event of a held row may be reported: its follow-ups are of later stages and well formed |
| `OutboxTermination.FailureIsRetriedOrFinal` | packages/orchestration/src/outbox-processing/outbox-tick.ts:121-137 | A failure kills the row exactly if it says it is final or was the last attempt by its claimant's count; otherwise the row is due again at the time given |
| `OutboxTermination.EveryPipelineRunEnds` | packages/orchestration/src/outbox-processing/process-event.ts:74-212 | The workers with the real dispatch table and retry policy come to an end |
| `Phases.PhaseAtIsThePosition` | packages/collab/src/phases.ts:39-55 | The phase in force is the one position whose stretch of turns covers the turn; there is none exactly for an empty plan |
| `Phases.PositionIsUnique` | packages/collab/src/phases.ts:39-55 | Stretches of phases do not overlap |
| `Phases.NextTurnNextPhase` | packages/collab/src/phases.ts:39-55 | One more turn stays in the phase or opens the next one at offset zero; no phase is skipped |
| `Phases.FindPhase` | packages/collab/src/phases.ts:39-55 | The loop over the plan gives that position |
| `Phases.PhasedTurnCount` | packages/collab/src/phases.ts:29-32 | The turns of the whole plan, at least one per phase |
| `Phases.RoomKeepsIdsUnique` | packages/collab/src/phases.ts:62-70 | Who may speak in a phase are distinct personas if the participants are |
| `Phases.RoomIsThePhases` | packages/collab/src/phases.ts:57-70 | The room is exactly the participants the phase names, in their order, when one of them is present, and everybody otherwise |
| `TurnPolicy.SystemNotesDoNotMatter` | packages/collab/src/turn-policy.ts:60-66 | A system note changes neither the last speaker nor the choice of the next one |
| `TurnPolicy.SelectNextSpeaker` | packages/collab/src/turn-policy.ts:76-135 | The speaker is always in the room, and there is none exactly for an empty room |
| `TurnPolicy.NomineeSpeaks` | packages/collab/src/turn-policy.ts:84-113 | Whoever the last message mentions first speaks next, excluding its author when moderated and the persona it spoke for when reactive |
| `TurnPolicy.ChairSpeaks` | packages/collab/src/turn-policy.ts:85-104 | The moderator, or the first participant if none of that name is there, opens and gets the floor back without a nomination unless it spoke last |
| `TurnPolicy.BestMatchSpeaks` | packages/collab/src/turn-policy.ts:115-128 | Without a mention the reactive policy picks the first of the best positive matches among the others |
| `TurnPolicy.RotationMovesOn` | packages/collab/src/turn-policy.ts:130-134 | When nobody matches either, the one seated after the last speaker is next |
| `TurnPolicy.SlotComesUpOnce` | packages/collab/src/turn-policy.ts:76-135 | Each slot of a rotation comes up exactly once in any window as long as the rotation |
| `TurnPolicy.RoundRobinIsFair` | packages/collab/src/turn-policy.ts:76-83 | Round robin gives each eligible persona exactly one slot in any room-sized window of offsets, whatever is said |
| `TurnPolicy.SlotIsRemainder` | packages/collab/src/turn-policy.ts:82-101 | A slot is the remainder of the turn offset by the length of the rotation |
| `TurnPolicy.AfterQuietTurn` | packages/collab/src/turn-policy.ts:84-106 | At any offset and after any last message that nominates nobody: one of the others follows the moderator, and the moderator follows anybody else |
| `TurnPolicy.ModeratedAlternates` | packages/collab/src/turn-policy.ts:84-106 | If every turn so far was spoken by, or for, the persona picked and nominated nobody, whatever was said and noted, the moderator is picked on every even offset and the other whose slot it is on every odd one |
| `TurnPolicy.OthersRotate` | packages/collab/src/turn-policy.ts:95-101 | Each of the others has exactly one of any |others| consecutive odd offsets |
| `TurnPolicy.ModeratedIsFair` | packages/collab/src/turn-policy.ts:84-106 | So in such a phase each of the others is picked exactly once in any |others| odd turns |
| `MeetingFairness.ModeratedPhasesAlternate` | packages/collab/src/meeting.ts:186-300 | In a moderated phase of a meeting whose turns fail and nominate nobody, the agent messages are by the moderator on even turns and by the others in rotation on odd ones, whatever pauses, takeovers and hand-backs lie between |
| `TurnPolicy.ReactiveChangesSpeaker` | packages/collab/src/turn-policy.ts:107-134 | With two or more distinct personas the reactive policy never picks the previous effective speaker, a human's seat included |
| `TurnPolicy.LastAgentOrHumanMessage` | packages/collab/src/turn-policy.ts:60-66 | The loop from the end finds the last message not by the system |
| `TurnPolicy.FindMentionLoop` | packages/collab/src/turn-policy.ts:137-149 | The loop finds the first mentioned participant other than the excluded one |
| `TurnPolicy.BestByRoleWords` | packages/collab/src/turn-policy.ts:118-133 | The scoring loop picks a best-scoring persona, the earliest among equals |
| `Evals.ScoreHandoff` | packages/collab/src/evals.ts:357-393 | The one-pass score is 1 exactly if no agent chat message lies between a takeover note and the next hand-back or resume note |
| `Evals.HeldSinceTakeover` | packages/collab/src/evals.ts:357-371 | A human holds the floor exactly if some takeover note has no hand-back or resume note after it |
| `Evals.SpreadIsZeroWhenEven` | packages/collab/src/evals.ts:151-183 | The Gini sum of sorted counts is never negative and zero exactly if all counts are equal |
| `Evals.SpreadIsBounded` | packages/collab/src/evals.ts:151-183 | The Gini sum is at most its worst case |
| `Evals.SpreadIsFullForAMonologue` | packages/collab/src/evals.ts:151-183 | It is the worst case exactly if all but the largest count are zero |
| `Evals.ScoreMeansBalance` | packages/collab/src/evals.ts:151-183 | Without its clamp the score lies in [0, 1], is 1 exactly for equal counts and 0 exactly if one participant took every turn |
| `Evals.SortingPermutes` | packages/collab/src/evals.ts:151-183 | The sorted counts are a permutation of the counts |
| `Evals.ScoreParticipation` | packages/collab/src/evals.ts:151-183 | No turns score 0 and a single participant 1; otherwise the score is one less the sum of all pairwise differences over what a monologue would give, in whatever order the counts come, and the clamp never changes it |
| `ChannelStore.PagesTile` | packages/collab/src/store.ts:94-128 | A page is the stretch of the log right after the cursor, and going on from its last message neither repeats nor skips a message |
| `ChannelStore.UnreadIsSuffix` | packages/collab/src/store.ts:123-128 | In a gap-free log the messages after a sequence number are the rest of the log from there |
| `ChannelStore.Store.CreateChannel` | packages/collab/src/store.ts:51-64 | A new channel has an empty log and no other log changes |
| `ChannelStore.Store.Append` | packages/collab/src/store.ts:94-121 | Fails for an unknown channel and changes nothing; otherwise only that log grows, by one message with the next number |
| `ChannelStore.Store.Read` | packages/collab/src/store.ts:123-128 | Cursor and limit applied to the channel's log; nothing for an unknown channel |
| `ChannelStore.Store.LatestSeq` | packages/collab/src/store.ts:134-137 | The last sequence number of a log is its length, zero for an unknown or empty channel |
| `MeetingRuns.HumanControlIsRespected` | packages/collab/src/meeting.ts:186-385 | Every transcript of every sequence of operations satisfies the handoff scorer: no agent turn between a takeover and the next hand-back or resume |
| `MeetingRuns.HandBackComesFirst` | packages/collab/src/meeting.ts:186-385 | In every run somebody hands back or resumes between a takeover and the next agent message |
| `MeetingOutcomes.FailuresAreCounted` | packages/collab/src/meeting.ts:222-263 | In every run the count of consecutive failures is the number of failed turns noted since an agent last spoke, and the meeting has failed for it exactly if that number reached the limit |
| `MeetingOutcomes.EndsExactlyWhen` | packages/collab/src/meeting.ts:186-300 | Exactly which calls complete a live meeting and exactly which fail it |
| `MeetingOutcomes.EndedStaysEnded` | packages/collab/src/meeting.ts:196-450 | No sequence of calls changes a meeting that is over |
| `MeetingOutcomes.FloorIsKnown` | packages/collab/src/meeting.ts:318-385 | In every run somebody has the floor exactly under human control, and there is an error exactly after a failure |
| `MeetingOutcomes.HumansSpeakThroughTheirSeat` | packages/collab/src/meeting.ts:392-441 | A human message goes out under the seat it names, else under the seat held in control; with a seat it uses up exactly one turn, without one none |
| `MeetingOutcomes.TakenSeatSpeaks` | packages/collab/src/meeting.ts:348-441 | Whoever took over a seat speaks for its persona by default and uses up that turn |
| `MeetingOutcomes.TurnsAreTaken` | packages/collab/src/meeting.ts:207-300 | What a turn leaves: the reply as said, one turn and no failures in a row; or one failure note, one failure more, and the turn burnt unless the meeting ends |
| `MeetingOutcomes.SpeakerIsOfThePhase` | packages/collab/src/meeting.ts:489-503 | The policy chooses among those the phase in force names, from the turn within the phase |
| `MeetingRuns.TurnsAreConserved` | packages/collab/src/meeting.ts:230-263 | In every run the turn index is agent messages plus human seat messages plus failed turns, less one if the last failure ended the meeting; agents never speak more often than the cap |
| `MeetingRuns.OthersNeverTurnBack` | packages/collab/src/meeting.ts:392-440 | No operation ever lowers the turn index |
| `MeetingRuns.RoundsUseTurns` | packages/collab/src/meeting.ts:306-317 | However other calls slip in between its steps, a run loop of n rounds that goes on has used up n turns |
| `MeetingRuns.NextSpeakerFitsIfNamed` | packages/collab/src/meeting.ts:495-503 | In every run, however it began: the stored next speaker is the persona the policy picks now exactly if the meeting is over, names somebody, or has no participants |
| `MeetingRuns.NextSpeakerIsCurrent` | packages/collab/src/meeting.ts:495-503 | In runs that begin with start, step or a human message, every live state names the persona the policy picks now, whatever notes came between |
| `MeetingRuns.AnnouncedSpeakerTakesTheTurn` | packages/collab/src/meeting.ts:217-263 | The next turn is taken by the persona the state names |
| `MeetingRuns.TakeoverFirstNamesNobody` | packages/collab/src/meeting.ts:346-376 | A takeover of a meeting that was never started leaves no next speaker named although the policy has one |
| `MeetingRuns.PhasesAreAnnouncedInOrder` | packages/collab/src/meeting.ts:510-534 | In runs that begin with start or step the announced phases are 0, 1, 2, ... in order, up to the phase of the turn index while the meeting is live |
| `MeetingOrchestrator.Orchestrator.StartMeeting` | packages/collab/src/meeting.ts:125-166 | Opens the meeting once: the start note, the first phase, the first speaker; other channels are untouched |
| `MeetingOrchestrator.Orchestrator.StepMeeting` | packages/collab/src/meeting.ts:173-300 | Starts if need be, then takes one turn or says why not: paused, human control, over, cap reached, nobody to speak |
| `MeetingOrchestrator.Orchestrator.DispatchTurn` | packages/collab/src/meeting.ts:217-300 | A reply is posted as said, clears the count of failures and uses up one turn; a failure is noted, counted and burns the turn or ends the meeting; the cap and proposals of completion end it |
| `MeetingOrchestrator.Orchestrator.Run` | packages/collab/src/meeting.ts:306-317 | With the default limit it returns ended, paused, under human control or with the turns used up |
| `MeetingOrchestrator.Orchestrator.FailCurrentTurn` | packages/collab/src/meeting.ts:230-261 | A failed turn is noted and uses up a turn, or ends the meeting when too many failed in a row, and then does not |
| `MeetingOrchestrator.Orchestrator.Advance` | packages/collab/src/meeting.ts:510-534 | Announces a phase exactly when the turn index has moved into another one |
| `MeetingOrchestrator.Orchestrator.Peek` | packages/collab/src/meeting.ts:495-503 | The speaker the policy picks from those the phase admits, at the offset within the phase |
| `MeetingOrchestrator.Orchestrator.PauseMeeting` | packages/collab/src/meeting.ts:319-325 | Pauses only a running meeting, with a note |
| `MeetingOrchestrator.Orchestrator.ResumeMeeting` | packages/collab/src/meeting.ts:327-335 | Takes a paused or human-controlled meeting back to running, without controller and with a note |
| `MeetingOrchestrator.Orchestrator.CompleteMeeting` | packages/collab/src/meeting.ts:443-473 | Ends a live meeting once; an ended one stays as it is |
| `MeetingOrchestrator.Orchestrator.TakeOverMeeting` | packages/collab/src/meeting.ts:346-376 | Fails only for a seat nobody has; an ended meeting stays as it is without failing; otherwise the human is in control and the note is in the log |
| `MeetingOrchestrator.Orchestrator.ReleaseMeeting` | packages/collab/src/meeting.ts:378-390 | Hands back only what a human controls |
| `MeetingOrchestrator.Orchestrator.PostHuman` | packages/collab/src/meeting.ts:392-441 | Refused exactly when the meeting is over; otherwise a human message under the seat given or held, which counts as a turn, with phase and next speaker brought up to date |
| `NearestSmaller.TopIsNearest` | packages/conversion/src/document-tree.ts:164-168 | What the popping loop leaves on top of the stack is the last earlier position with a smaller key |
| `NearestSmaller.PushAnswers` | packages/conversion/src/document-tree.ts:156-192 | After popping and pushing, the stack is again strictly ascending and answers every such query |
| `DocumentTokens.KeptLinesAreKept` | packages/conversion/src/document-tree.ts:133-210 | Dropping the blank lines outside fences once drops all there are |
| `DocumentTokens.TokensKeep` | packages/conversion/src/document-tree.ts:133-210 | Read as tokens, a text keeps exactly the lines that are not blank outside a fence |
| `DocumentEntries.AddedNodeComesLast` | packages/conversion/src/document-tree.ts:110-125 | A node added under a node of the rightmost spine comes last in the preorder |
| `DocumentEntries.GrowInOrder` | packages/conversion/src/document-tree.ts:110-125 | So the preorder of the tree stays the order in which nodes were added, and the open headings and items stay on the rightmost spine |
| `DocumentPlacement.FitsStays` | packages/conversion/src/document-tree.ts:133-212 | What is claimed of a node when it is placed stays true as the document grows |
| `DocumentPlacement.StackPops` | packages/conversion/src/document-tree.ts:164-184 | The node left on top of a stack starts at the nearest earlier heading or item with a smaller key |
| `DocumentSteps.AllFitHeading` | packages/conversion/src/document-tree.ts:156-173 | A heading goes under the nearest earlier heading of strictly smaller level, else under the root |
| `DocumentSteps.AllFitItem` | packages/conversion/src/document-tree.ts:175-194 | An item goes under the nearest earlier item of strictly smaller indent in the open list, one level deeper, else under the section |
| `DocumentSteps.AllFitFlush` | packages/conversion/src/document-tree.ts:117-131 | A run of text is one node of consecutive lines of one kind, as long as can be, under the container of the moment it was flushed |
| `DocumentParse.ClosedRunsStep` | packages/conversion/src/document-tree.ts:127-131 | That moment is fixed by the line after the run: once that line has closed the list, if it is text of another kind, and before it otherwise |
| `DocumentSteps.CompleteStep` | packages/conversion/src/document-tree.ts:133-212 | No line is lost or moved by any step |
| `DocumentParse.EveryNodeFits` | packages/conversion/src/document-tree.ts:89-215 | For every text: preorder is source order, every node has the right parent, level, label, lines, page and place of its run's end, no kept line is missing, and structured says whether there is a heading or nested item |
| `DocumentLists.EveryListFits` | packages/conversion/src/document-tree.ts:109-201 | By tokens and characters alone: an item hangs under the nearest earlier item of smaller indent with no heading and no first-column text between, one deeper; blank, fenced and indented lines leave the list open; text with a first-column line hangs under no item |
| `DocumentTokens.FenceEndsAtItsClosing` | packages/conversion/src/document-tree.ts:144-150 | A fenced block ends with its first closing line, or with the text if there is none |
| `DocumentParse.NodeIsOnItsPage` | packages/conversion/src/document-tree.ts:98-107 | A node that starts in the text of page i of the joined pages reports page i + 1 |
| `DocumentPages.CursorMayStay` | packages/conversion/src/document-tree.ts:104-107 | The page cursor may go on from where a smaller offset left it |
| `DocumentPages.PageAtIsTheLastStarted` | packages/conversion/src/document-tree.ts:98-107 | With page starts in order the cursor finds the last page starting at or before the offset |
| `DocumentPages.PageStandsAtStart` | packages/conversion/src/document-tree.ts:221-235 | In the joined text every page's text stands at its recorded start |
| `DocumentPages.PageOfItsOwnText` | packages/conversion/src/document-tree.ts:221-235 | An offset inside page i's text is on page i + 1 |
| `DocumentPages.JoinPages` | packages/conversion/src/document-tree.ts:221-235 | The joined text and the start of each page |
| `DocumentRender.RenderOfDocument` | packages/conversion/src/document-tree.ts:238-248 | Rendering the built tree gives the text's lines in order with exactly the blank lines outside fenced blocks removed |
| `DocumentRender.RenderTwice` | packages/conversion/src/document-tree.ts:238-248 | Building from what was rendered and rendering again changes nothing |
| `DocumentRender.SubtreeIsAStretch` | packages/conversion/src/document-tree.ts:238-248 | A node with everything under it is a contiguous stretch of the source |
| `DocumentTree.BuildDocumentTree` | packages/conversion/src/document-tree.ts:89-215 | The pass over the lines, with its two stacks, open run and page cursor, builds exactly that document in place |
| `DocumentTree.TreeBuilder.Append` | packages/conversion/src/document-tree.ts:110-125 | Pushing onto a node's children adds one node to the tree and changes no other |
| `DocumentTree.TreeBuilder.FlushRun` | packages/conversion/src/document-tree.ts:117-125 | The open run becomes a node under the container; without a run nothing happens |
| `DocumentTree.TreeBuilder.ContainerNode` | packages/conversion/src/document-tree.ts:109-115 | The deepest open list item, else the deepest heading, else the root |
| `DocumentTree.TreeBuilder.ReadFence` | packages/conversion/src/document-tree.ts:135-154 | A fenced block: flush, then one code node under the container |
| `DocumentTree.TreeBuilder.ReadLine` | packages/conversion/src/document-tree.ts:133-210 | One turn of the loop does for its line or block exactly what the parse on values does, and says how far it got |
| `DocumentTree.TreeBuilder.ReadHeading` | packages/conversion/src/document-tree.ts:156-173 | A heading line: flush, close the list and deeper headings, hang the node, open it |
| `DocumentTree.TreeBuilder.ReadItem` | packages/conversion/src/document-tree.ts:175-194 | An item line: flush, close items of its indent or more, hang the node, open it |
| `DocumentTree.TreeBuilder.ReadText` | packages/conversion/src/document-tree.ts:196-210 | A line of text joins the open run of its kind or opens one; exactly in the first column it empties the stack of open items first |
| `DocumentTree.FencedBlock` | packages/conversion/src/document-tree.ts:138-154 | A fenced block holds no closing line before its last, and reaches the end of the text unless its last line closes it |
| `DocumentTree.TurnPages` | packages/conversion/src/document-tree.ts:104-107 | The stateful cursor gives the page of the offset and stays fit for all later ones |
| `DocumentTree.RenderSubtree` | packages/conversion/src/document-tree.ts:238-248 | Walking the nodes renders the subtree's source texts in preorder |
| `NullDecoding.NullFreeValuesAgree` | packages/llm/src/structured-output.ts:227-347 | If every default reads alike under both schemas, as defaults without nulls do, the rewritten schema reads values without nulls exactly as the original, for all unions |
| `NullDecoding.NullFreeDefaultsAgree` | packages/llm/src/structured-output.ts:305-311 | Defaults without nulls read alike |
| `StructuredOutput.NullFreeValuesAgreeExactly` | packages/llm/src/structured-output.ts:227-347 | On values without nulls, for all unions and all fitting defaults: both schemas accept the same, and read an accepted value alike exactly if the defaults it calls in do |
| `StructuredOutput.DefaultReadsDifferently` | packages/llm/src/structured-output.ts:305-311 | A default that holds a null in an untagged union: the rewritten schema reads the empty object differently |
| `NullDecoding.NullsDecode` | packages/llm/src/structured-output.ts:227-347 | With tagged unions the rewritten schema reads any value, good or bad, exactly as the original reads it without the nulls at optional keys |
| `NullDecoding.ValidValuesStay` | packages/llm/src/structured-output.ts:236-242 | A value the original accepts has no null that stands for a missing key |
| `NullDecoding.RewritingOnlyWidens` | packages/llm/src/structured-output.ts:227-347 | With tagged unions, what the original accepts the rewritten schema accepts with the same result |
| `StrictSchemas.StrictAccepts` | packages/llm/src/structured-output.ts:196-215 | The strict JSON Schema accepts a value exactly if closed objects have all their keys and no other, optional ones possibly null, and all parts fit |
| `StrictSchemas.ClosedAccepts` | packages/llm/src/structured-output.ts:196-215 | A strict closed object accepts exactly objects with all its properties and no other, null allowed where it was not required |
| `StrictSchemas.OpenAccepts` | packages/llm/src/structured-output.ts:199-207 | An open object is left as it was: optional keys may stay away |
| `StrictSchemas.StrictOnce` | packages/llm/src/structured-output.ts:196-215 | Making a node strict twice is making it strict once |
| `StructuredOutput.ValuesRoundTripExactly` | packages/llm/src/structured-output.ts:454-505 | For all unions whose defaults read alike: every accepted value, with null for what it leaves out, is accepted by the strict schema, and decodes to its own reading exactly if no closed object leaves out a key that takes null, unless its default reads as null, and no earlier union option takes the filled value otherwise |
| `StructuredOutput.EncodedValuesRoundTrip` | packages/llm/src/structured-output.ts:454-505 | The same with tagged unions for every accepted value; without optional keys that take null every accepted value survives the round trip |
| `StructuredOutput.StrictAnswersDecode` | packages/llm/src/structured-output.ts:454-505 | Every answer the strict schema accepts decodes, for all unions; with tagged unions to what the original makes of it without the nulls |
| `StructuredOutput.PlainUnionDecodesWrongly` | packages/llm/src/structured-output.ts:254-262 | Without tags an empty object decodes through the wrong option of a union |
| `StructuredOutput.OptionalNullableKeepsNull` | packages/llm/src/structured-output.ts:238-241 | An optional key that takes null keeps the null that stood for leaving it out |
| `StructuredOutput.OptionalNullableNeverRoundTrips` | packages/llm/src/structured-output.ts:236-242 | A closed object that leaves out an optional key which takes null decodes to an object that has that key |
| `NodeRewriting.ConstAsEnumMeansTheSame` | packages/llm/src/structured-output.ts:176-188 | Where no property is named const without one named enum, const as enum accepts exactly the same values |
| `NodeRewriting.BareConstAcceptsNothing` | packages/llm/src/structured-output.ts:176-188 | A closed object that requires a property named const, and has none named enum, accepts no value at all once rewritten |
| `NodeRewriting.WithoutSizeBoundsAcceptsMore` | packages/llm/src/structured-output.ts:349-359 | Dropping size bounds never makes a node refuse what it accepted |
| `RewrittenNodes.WithoutSizeBoundsDropsBounds` | packages/llm/src/structured-output.ts:349-359 | Afterwards no object at any depth, in lists and under properties included, has a size keyword with a number, and everything else is as it was |
| `RewrittenNodes.SecondAttemptHasNoBound` | packages/llm/src/structured-output.ts:459-479 | The schema of the second attempt is the first one without a size bound anywhere |
| `RewrittenNodes.ConstAsEnumTurnsConsts` | packages/llm/src/structured-output.ts:176-188 | At every depth a bare const becomes the one-element enum of its value, and everything else is as it was |
| `NodeRewriting.StrictIsNode` | packages/llm/src/structured-output.ts:454-463 | Strict schemas are well-formed nodes, and free of bare const properties exactly if the schema has no such key |
| `SentSchemas.SentAccepts` | packages/llm/src/structured-output.ts:176-188 | For every schema, const keys or not: exactly which values the sent schema accepts; closed objects with a bare const key accept nothing, open ones no longer look at its value and rule out a key named enum |
| `SentSchemas.SentSchemasAccept` | packages/llm/src/structured-output.ts:454-485 | Without bare const keys what is sent accepts exactly what the schema admits, and the second, relaxed attempt at least that |
| `SentSchemas.ConstKeyAcceptsNothing` | packages/llm/src/structured-output.ts:454-463 | A closed object schema with a bare const key, once sent, accepts no value at all |
| `SentSchemas.NestedConstKeyAcceptsNothing` | packages/llm/src/structured-output.ts:454-463 | Nor does a closed object that requires such an object |
| `SentSchemas.OpenConstKeyIsUnchecked` | packages/llm/src/structured-output.ts:454-463 | An open object accepts any value under a bare const key, and nothing that has a key named enum |
| `UsageMeter.ReportedWhenCounted` | packages/llm/src/usage-meter.ts:122-138 | Usage is reported exactly if one of the four counts is a finite number of at least zero, and never with a negative part |
| `UsageMeter.UsageIsRead` | packages/llm/src/usage-meter.ts:122-138 | Input, output, reasoning and cached counts are those under their own names, chat-completions names first; a missing total is zero and a missing breakdown stays absent |
| `UsageMeter.LineIsRead` | packages/llm/src/usage-meter.ts:178-189 | A line reports exactly if it is a data line of an event whose usage object has a count, and then what that object says, with the model the event names |
| `UsageMeter.KnowsTheLastReport` | packages/llm/src/usage-meter.ts:173-193 | Something is known exactly if some line reports usage, and then it is the usage of the last such line |
| `UsageMeter.KnowsTheLastModel` | packages/llm/src/usage-meter.ts:173-193 | The model is the one named by the last reporting line that names one, and unknown exactly if none does |
| `UsageMeter.ScanInTwo` | packages/llm/src/usage-meter.ts:173-193 | Scanning a text in two pieces is scanning it whole, wherever it is cut |
| `UsageMeter.ChunksDoNotMatter` | packages/llm/src/usage-meter.ts:173-193 | Every way of cutting a stream into chunks tells what its whole text tells |
| `UsageMeter.EndReadsAll` | packages/llm/src/usage-meter.ts:194-199 | At the end the last line counts too: all lines of the text have been read |
| `UsageMeter.Meter.Scan` | packages/llm/src/usage-meter.ts:173-193 | The scanning loop reads exactly the lines that the new text completes and keeps the rest pending |
| `UsageMeter.Meter.Finish` | packages/llm/src/usage-meter.ts:194-199 | Reports what one scan of the whole text gives, once, and nothing if no line carries usage; a second call does nothing |
| `UsageMeter.Meter.Pull` | packages/llm/src/usage-meter.ts:201-217 | Every chunk is passed on unchanged; the end or a failure of the stream reports once |
| `UsageMeter.Meter.Cancel` | packages/llm/src/usage-meter.ts:218-221 | Giving up reports what was seen, once |
| `NormalizeContent.FindRunFindsTheFirst` | packages/llm/src/normalize-content.ts:63-74 | The first run of exactly the given length, or none exactly if there is none |
| `NormalizeContent.FindClosingFindsTheFirst` | packages/llm/src/normalize-content.ts:86-93 | The first backslash before the delimiter that no earlier backslash escapes |
| `NormalizeContent.SegmentsTile` | packages/llm/src/normalize-content.ts:158-203 | The segments of a paragraph cover it in order without gap or overlap |
| `NormalizeContent.SegmentsHold` | packages/llm/src/normalize-content.ts:165-201 | Code and dollar segments are a run and all up to the next run of that length; rewritten ones are a delimiter, its first counterpart and the math between |
| `NormalizeContent.RewrittenReads` | packages/llm/src/normalize-content.ts:173-186 | Round delimiters become one dollar around what is inside without its outer white space, square ones two dollars around it as it is; blank ones are not rewritten |
| `NormalizeContent.SquareReads` | packages/llm/src/normalize-content.ts:100-105 | Square delimiters are rewritten exactly if what is between is padded on both sides or holds a mark of math, and is not blank |
| `NormalizeContent.DollarsPair` | packages/llm/src/normalize-content.ts:77-83 | Single dollars pair exactly around something not blank that is padded on both sides or neither, with no digit after |
| `NormalizeContent.ProseOverlooksNothing` | packages/llm/src/normalize-content.ts:165-201 | At no unescaped place of a prose segment does code, dollar math or convertible delimited math start |
| `NormalizeContent.ParagraphStays` | packages/llm/src/normalize-content.ts:158-203 | Without delimited math and rewritten bare groups a paragraph stays as it is |
| `NormalizeContent.NormalizeParagraph` | packages/llm/src/normalize-content.ts:158-203 | The loop ends and renders exactly those segments: code and existing math verbatim, prose and delimited math rewritten |
| `NormalizeContent.LookAt` | packages/llm/src/normalize-content.ts:165-201 | One turn of the loop finds the segment that starts here, or how far to go on |
| `NormalizeContent.FindRunOf` | packages/llm/src/normalize-content.ts:63-74 | The loop over runs computes that first run |
| `NormalizeContent.FindClosingDelimiter` | packages/llm/src/normalize-content.ts:86-93 | The loop computes that first closing delimiter |
| `NormalizeContent.BlocksHoldTheLines` | packages/llm/src/normalize-content.ts:206-242 | The blocks of a text hold every line once, in order |
| `NormalizeContent.AloneLinesAreLeftAlone` | packages/llm/src/normalize-content.ts:214-240 | The lines copied as they are are exactly the fence lines, fenced lines and blank lines, in order |
| `NormalizeContent.FenceIsOpenSince` | packages/llm/src/normalize-content.ts:214-233 | A fence is open exactly since the unfenced line that opened it and that no line with as many of its marks and nothing else has closed |
| `NormalizeContent.ParagraphsAreWhole` | packages/llm/src/normalize-content.ts:211-243 | Two paragraphs never adjoin: each is as long as it can be |
| `NormalizeContent.TextStays` | packages/llm/src/normalize-content.ts:206-242 | If every paragraph stays as it is, so does the text |
| `NormalizeContent.NormalizeMath` | packages/llm/src/normalize-content.ts:206-242 | The loop over lines with its fence and open paragraph computes the blocks' texts joined, or the text itself when it has no math signs |
| `ChatTypes.MissingIsWhatLacks` | packages/llm/src/types.ts:344-349 | Reported missing capabilities are exactly the required ones the behavior lacks |
| `ChatConfig.MergedIsValid` | packages/llm/src/chat-config.ts:287-303 | A valid override on a valid preset is valid; declared capabilities win in both directions, and declaring nothing changes nothing |
| `ChatConfig.MergedSettingBySetting` | packages/llm/src/chat-config.ts:287-303 | Setting by setting, parameters one by one: a declared one wins, an undeclared one keeps the preset's own value |
| `ChatConfig.ModelsGetTheirBehavior` | packages/llm/src/chat-config.ts:305-353 | A model on a preset resolves exactly if the preset is known and its declaration valid, and gets the preset with that on top; a model on its own needs a whole valid declaration, and gets just that |
| `ChatConfig.DeclarationsWin` | packages/llm/src/chat-config.ts:287-303 | A complete declaration on top of any preset is that declaration; declaring the same twice changes nothing |
| `ChatConfig.BuildChatModelsConfig` | packages/llm/src/chat-config.ts:387-459 | Accepts exactly the files whose models resolve and whose routes name declared, capable models, and keeps their models and routes |
| `ChatConfig.BuiltConfigIsOk` | packages/llm/src/chat-config.ts:305-353 | In a built configuration every model's behavior is valid, after preset merging and overrides, and every assigned route is served by a capable model |
| `ChatModelFactory.RoutesResolve` | packages/llm/src/chat-model-factory.ts:208-258 | With a built configuration a route gives the model assigned to it, or else the default one, capable either way; it is unavailable exactly if it is unassigned and the default model lacks the capability; never a configuration error |
| `ChatModelFactory.ReasoningResolves` | packages/llm/src/chat-model-factory.ts:107-182 | The reasoning patch reaches no reserved field; it is refused exactly for an effort that is neither declared nor inherited by every object, a budget out of bounds, or reasoning the model does not have |
| `ChatModelFactory.InheritedEffortIsTaken` | packages/llm/src/chat-model-factory.ts:152-160 | The effort constructor, declared by nobody, is not refused: the request counts as reasoning and sends nothing for it |
| `ChatModelFactory.PatchIsDeclared` | packages/llm/src/chat-model-factory.ts:107-182 | The patch sent is the one declared for what was asked: the named or default level, the named or default budget, whole and within bounds, or the off patch; a model that always reasons sends its own; for an inherited effort name it is empty |
| `ChatModelFactory.BuildModelKwargs` | packages/llm/src/openai-compatible-transport.ts:65-80 | The fields sent keep the patch, add or replace only the field of the output cap, only for a model that takes a cap, and from a valid behavior and patch write no reserved field |
| `ChatModelFactory.KwargsAreAllowed` | packages/llm/src/openai-compatible-transport.ts:65-80 | No reserved field is ever written, a cap is sent only to a model that takes one, and the patch is otherwise kept |
| `ChatModelFactory.ModelsResolve` | packages/llm/src/chat-model-factory.ts:303-352 | Every request gets a declared model with all it requires and no reserved field, or a typed refusal; never a configuration error |
| `ChatModelFactory.SelectedRouteServes` | packages/llm/src/chat-model-factory.ts:360-376 | Whatever model the selected route gives can see if images were needed and reason if reasoning was, and is the one assigned to the route or the default |
| `ChatModelFactory.RouteIsTheNeeds` | packages/llm/src/chat-model-factory.ts:360-376 | Images choose the vision route, else reasoning its own, else speed the fast one; exactly what is needed is required |
| `ChatModelFactory.AgentsGetTheSameModel` | packages/llm/src/chat-model-factory.ts:394-405 | Asking for the none effort on behalf of an agent never fails where resolving did not, keeps the model, and happens only for a model that offers it and declares no tool calling |

## Where code and comments differ

The model follows the code:

* `outbox-store.ts:165-166`, 201 and 213 guard outcomes by status only. A late
  outcome is discarded while the row is not processing, and accepted after a
  re-claim; `StaleRetryGrantsAnExtraClaim` shows what follows.
* `replay` (`outbox-store.ts:310-322`) keeps `attempt_count`, while reviving
  (50-63) resets it; a live row absorbs an enqueue without taking its payload.
* `types.ts:228` of the collab package says human messages take no turn;
  `meeting.ts:427-430` advances the turn index for messages through a seat.
* `structured-output.ts:221` promises that optional fields which accept null
  keep it; so the null put in for leaving such a field out stays
  (`OptionalNullableKeepsNull`).
* The comment above `constAsEnum` calls the rewriting meaning-preserving. It
  is where no object has a property named `const` without one named `enum`;
  `SentAccepts` says what a sent schema accepts in general. A part that is no
  schema, such as an `enum` list where a property's schema belongs, accepts
  nothing.
* `chat-model-factory.ts:153-158` looks effort levels up on a plain object and
  so finds names like `constructor` that nobody declared
  (`InheritedEffortIsTaken`); spread into a request they give no fields.

## Left out

- Outbox: the database itself. Rows locked by another claimer are modelled by
  claims being atomic; equal insertion times do not occur, so oldest first is
  insertion order; event ids are those that `eventIds` builds; the clock is a
  parameter of every call, and so is the delay until a retry. Handlers, hooks, logs and the tick's timer have no
  effect on rows. Schema parsing of a payload is one flag of the event.
- OutboxStore.Store.ParseClaimed: the parser's own words in the error kept
  for a row that does not parse.
- OutboxTermination.EveryRunEnds: a claimed row whose payload no longer parses
  is taken as one whose handling failed for good at the same commit.
- OutboxRuns.ReplayCascades: later means a later commit, not a later clock
  time. A success reports the follow-ups of the event its row holds then, not
  of a version that was replaced while the claimant worked.
- OutboxBudget.TimelyReportsStayWithinLimit: a report is in time while the row
  is still processing and the reporter was the last to claim it.
- Meetings: the public calls are atomic steps. Overlap at awaits is not
  modelled, and the results about human control do not speak about it. Agent
  replies are an oracle giving mentions, role words and a completion flag.
  System texts are tags, so titles, names and error texts must hold none of
  the phrases the scorer looks for. Listeners and clocks are left out, as are
  the other evaluation dimensions, minutes and archives.
- MeetingOrchestrator.Orchestrator.Run: asks that the turn count of the
  meeting adds up, which holds in every run by `TurnsAreConserved`.
- MeetingRuns.NextSpeakerIsCurrent: says nothing of a meeting whose first
  operation is a takeover; `NextSpeakerFitsIfNamed` says exactly when it holds.
- ChannelStore.Store.CreateChannel: slugs, workspaces and the refusal of a
  slug that exists are left out; a new channel has an empty log.
- TurnPolicy: tokenising text into role words is left out; words are given as
  sets.
- Document trees: recognising headings, items, fences, tables and quotes, and
  stripping inline markup, are parameters. The only fact used is that a line
  reads as blank exactly if it is all whitespace. The other adapters and the
  chunker are left out.
- DocumentTree.RenderSubtree: takes the entries that the nodes show as ghost
  arguments, so it speaks about trees of the builder's shape.
- Structured output: schemas outside the fragment (intersections, tuples,
  records, catchalls, effects, lazy, map, set and promise nodes). Several
  forms of one JSON Schema are modelled by one: unions and nullable schemas
  are always emitted as `anyOf`. String lengths are counted in the same units
  by both validators. Numbers too large to be held are accepted by neither.
- StructuredOutput.ValuesRoundTripExactly: asks that defaults read alike, which
  holds for every fitting default with tagged unions and for defaults without
  nulls; see `DefaultReadsDifferently`.
- NullDecoding.NullsDecode: a decoded key that holds undefined is not told
  apart from a key that is missing.
- StrictSchemas.StrictAccepts: the post-processor edits the converter's fresh
  node in place; here it returns the edited node, and the order of `required`
  is not fixed. The memo map of the rewriting is left out.
- StructuredOutput.EncodedValuesRoundTrip: defaults are taken to fit their own
  schema, and literals are plain scalars.
- Prompt fallback, repair and the retry after a refusal by the endpoint.
- UsageMeter: characters, not bytes. The search for a usage object and JSON
  parsing are parameters; a JSON body that is not a stream, pricing and
  recorders are left out.
- NormalizeContent: the rewriting of bare groups inside prose, and recognising
  fence marks and blank lines behind quotes and indents, are parameters.
  Flattening message parts is left out.
- ChatConfig: documents of the wrong shape, which are refused before anything
  modelled here, error messages, pricing, and the endpoint's fields beyond its
  address. Lower-casing of field names is a parameter.
- Construction of the client, message preparation and the scope that picks a
  configuration.
