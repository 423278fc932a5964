/** Meeting phases: which stretch of the plan a turn index falls in, and who may speak there. */
module Phases {
  import opened Wrappers

  /** A participant. `roleWords` are the tokens of the role and the display name. */
  datatype Persona = Persona(id: string, roleWords: seq<string>)

  datatype Phase = Phase(turns: real, speakerIds: seq<string>)

  datatype Position = Position(index: nat, startTurn: nat, offset: nat, last: bool)

  /** A phase lasts at least one turn, whatever number it declares. */
  function TurnsOf(phase: Phase): (turns: nat)
    ensures turns >= 1
    ensures phase.turns < turns as real + 1.0 && (turns > 1 ==> turns as real <= phase.turns)
  {
    var floor := phase.turns.Floor;
    if floor < 1 then 1 else floor
  }

  /** Turns declared by the first `n` phases. */
  function StartOf(phases: seq<Phase>, n: nat): nat
    requires n <= |phases|
  {
    if n == 0 then 0 else StartOf(phases, n - 1) + TurnsOf(phases[n - 1])
  }

  function PositionFrom(phases: seq<Phase>, turnIndex: nat, index: nat): (p: Position)
    requires index < |phases| && StartOf(phases, index) <= turnIndex
    ensures p.index < |phases|
    decreases |phases| - index
  {
    var start := StartOf(phases, index);
    if turnIndex < start + TurnsOf(phases[index]) || index == |phases| - 1 then
      Position(index, start, turnIndex - start, index == |phases| - 1)
    else PositionFrom(phases, turnIndex, index + 1)
  }

  /** The phase in force at a turn; none when the meeting has no plan. */
  function PhaseAt(phases: seq<Phase>, turnIndex: nat): (p: Option<Position>)
    ensures p.Some? ==> p.value.index < |phases|
  {
    if phases == [] then None else Some(PositionFrom(phases, turnIndex, 0))
  }

  /** Position `p` is where turn `t` falls: inside phase `p.index`, or past the end in the last one. */
  ghost predicate Covers(phases: seq<Phase>, p: Position, turnIndex: nat) {
    && p.index < |phases|
    && p.startTurn == StartOf(phases, p.index)
    && turnIndex == p.startTurn + p.offset
    && (p.last <==> p.index == |phases| - 1)
    && (p.last || p.offset < TurnsOf(phases[p.index]))
  }

  lemma {:induction false} PositionFromCovers(phases: seq<Phase>, turnIndex: nat, index: nat)
    requires index < |phases| && StartOf(phases, index) <= turnIndex
    ensures Covers(phases, PositionFrom(phases, turnIndex, index), turnIndex)
    decreases |phases| - index
  {
    var start := StartOf(phases, index);
    if !(turnIndex < start + TurnsOf(phases[index]) || index == |phases| - 1) {
      PositionFromCovers(phases, turnIndex, index + 1);
    }
  }

  lemma {:induction false} StartsAscend(phases: seq<Phase>, m: nat, n: nat)
    requires m < n <= |phases|
    ensures StartOf(phases, m) + TurnsOf(phases[m]) <= StartOf(phases, n)
  {
    if m < n - 1 {
      StartsAscend(phases, m, n - 1);
    }
  }

  /** The stretches of the phases do not overlap, so a turn has one position. */
  lemma PositionIsUnique(phases: seq<Phase>, p: Position, q: Position, turnIndex: nat)
    requires Covers(phases, p, turnIndex) && Covers(phases, q, turnIndex)
    ensures p == q
  {
    if p.index < q.index {
      StartsAscend(phases, p.index, q.index);
    } else if q.index < p.index {
      StartsAscend(phases, q.index, p.index);
    }
  }

  /** The phase loop finds the one position that covers the turn. */
  lemma PhaseAtIsThePosition(phases: seq<Phase>, turnIndex: nat)
    ensures PhaseAt(phases, turnIndex).None? <==> phases == []
    ensures phases != [] ==> Covers(phases, PhaseAt(phases, turnIndex).value, turnIndex)
    ensures forall p: Position | Covers(phases, p, turnIndex) :: PhaseAt(phases, turnIndex) == Some(p)
  {
    if phases != [] {
      PositionFromCovers(phases, turnIndex, 0);
      forall p: Position | Covers(phases, p, turnIndex)
        ensures PhaseAt(phases, turnIndex) == Some(p)
      {
        PositionIsUnique(phases, PhaseAt(phases, turnIndex).value, p, turnIndex);
      }
    }
  }

  /** One more turn stays in the phase or opens the next one: no phase is skipped. */
  lemma NextTurnNextPhase(phases: seq<Phase>, turnIndex: nat)
    requires phases != []
    ensures var p, q := PhaseAt(phases, turnIndex).value, PhaseAt(phases, turnIndex + 1).value;
      (q.index == p.index && q.offset == p.offset + 1) || (q.index == p.index + 1 && q.offset == 0)
  {
    var p := PhaseAt(phases, turnIndex).value;
    PhaseAtIsThePosition(phases, turnIndex);
    PhaseAtIsThePosition(phases, turnIndex + 1);
    if p.last || p.offset + 1 < TurnsOf(phases[p.index]) {
      assert Covers(phases, p.(offset := p.offset + 1), turnIndex + 1);
    } else {
      assert Covers(phases, Position(p.index + 1, turnIndex + 1, 0, p.index + 1 == |phases| - 1), turnIndex + 1);
    }
  }

  /** The loop over the plan. */
  method FindPhase(phases: seq<Phase>, turnIndex: nat) returns (position: Option<Position>)
    ensures position == PhaseAt(phases, turnIndex)
  {
    if |phases| == 0 {
      return None;
    }
    var start, index := 0, 0;
    while index < |phases|
      invariant 0 <= index < |phases|
      invariant start == StartOf(phases, index) <= turnIndex
      invariant PhaseAt(phases, turnIndex) == Some(PositionFrom(phases, turnIndex, index))
    {
      var turns := TurnsOf(phases[index]);
      var last := index == |phases| - 1;
      if turnIndex < start + turns || last {
        return Some(Position(index, start, turnIndex - start, last));
      }
      start := start + turns;
      index := index + 1;
    }
  }

  /** Total turns of the plan. */
  method PhasedTurnCount(phases: seq<Phase>) returns (count: nat)
    ensures count == StartOf(phases, |phases|)
    ensures |phases| <= count
  {
    count := 0;
    for i := 0 to |phases|
      invariant count == StartOf(phases, i) && i <= count
    {
      count := count + TurnsOf(phases[i]);
    }
  }

  function Allowed(participants: seq<Persona>, ids: seq<string>): (room: seq<Persona>)
    ensures forall p | p in room :: p in participants && p.id in ids
    ensures forall p | p in participants && p.id in ids :: p in room
    ensures |room| <= |participants|
  {
    if participants == [] then []
    else
      var n := |participants| - 1;
      Allowed(participants[..n], ids) + (if participants[n].id in ids then [participants[n]] else [])
  }

  /** Who may speak: the phase's speakers, or everybody when it names nobody present. */
  function Room(participants: seq<Persona>, phase: Option<Phase>): (room: seq<Persona>)
    ensures forall p | p in room :: p in participants
    ensures room == [] <==> participants == []
  {
    if phase.None? || phase.value.speakerIds == [] then participants
    else
      var subset := Allowed(participants, phase.value.speakerIds);
      if subset != [] then subset else participants
  }

  predicate InPhase(phase: Option<Phase>, id: string) {
    phase.Some? && id in phase.value.speakerIds
  }

  /** How many of the first `n` participants the phase names. */
  function NamedAmong(participants: seq<Persona>, phase: Option<Phase>, n: nat): nat
    requires n <= |participants|
  {
    if n == 0 then 0
    else NamedAmong(participants, phase, n - 1) + (if InPhase(phase, participants[n - 1].id) then 1 else 0)
  }

  /** Each of the first `n` participants the phase names sits behind those named before it. */
  ghost predicate InOrder(room: seq<Persona>, participants: seq<Persona>, phase: Option<Phase>, n: nat)
    requires n <= |participants|
  {
    && |room| == NamedAmong(participants, phase, n)
    && forall k | 0 <= k < n && InPhase(phase, participants[k].id) ::
      var place := NamedAmong(participants, phase, k);
      place < |room| && room[place] == participants[k]
  }

  lemma InOrderStep(room: seq<Persona>, participants: seq<Persona>, phase: Option<Phase>, n: nat)
    requires n < |participants| && InOrder(room, participants, phase, n)
    ensures InOrder(
      room + (if InPhase(phase, participants[n].id) then [participants[n]] else []), participants, phase, n + 1)
  {
    hide InPhase;
  }

  lemma AllowedStep(participants: seq<Persona>, ids: seq<string>, n: nat)
    requires n < |participants|
    ensures Allowed(participants[..n + 1], ids)
         == Allowed(participants[..n], ids) + (if participants[n].id in ids then [participants[n]] else [])
  {
    assert participants[..n + 1][..n] == participants[..n];
  }

  lemma {:induction false} AllowedInOrder(participants: seq<Persona>, phase: Phase, n: nat)
    requires n <= |participants|
    ensures InOrder(Allowed(participants[..n], phase.speakerIds), participants, Some(phase), n)
  {
    if n > 0 {
      AllowedInOrder(participants, phase, n - 1);
      hide InOrder;
      InOrderStep(Allowed(participants[..n - 1], phase.speakerIds), participants, Some(phase), n - 1);
      AllowedStep(participants, phase.speakerIds, n - 1);
    }
  }

  /**
   * The room holds exactly the participants the phase names, in their order,
   * when one of them is present, and everybody in their order otherwise.
   */
  lemma RoomIsThePhases(participants: seq<Persona>, phase: Option<Phase>)
    ensures
      if exists p :: p in participants && InPhase(phase, p.id)
      then InOrder(Room(participants, phase), participants, phase, |participants|)
      else Room(participants, phase) == participants
  {
    if phase.Some? {
      AllowedInOrder(participants, phase.value, |participants|);
      assert participants[..|participants|] == participants;
      var subset := Allowed(participants, phase.value.speakerIds);
      assert subset != [] ==> subset[0] in participants && InPhase(phase, subset[0].id);
    }
  }

  predicate UniquePersonas(participants: seq<Persona>) {
    forall i, j | 0 <= i < j < |participants| :: participants[i].id != participants[j].id
  }

  lemma OneMoreUnique(room: seq<Persona>, p: Persona)
    requires UniquePersonas(room) && forall i | 0 <= i < |room| :: room[i].id != p.id
    ensures UniquePersonas(room + [p])
  {
  }

  lemma {:induction false} RoomKeepsIdsUnique(participants: seq<Persona>, ids: seq<string>)
    requires UniquePersonas(participants)
    ensures UniquePersonas(Allowed(participants, ids))
  {
    if participants != [] {
      var n := |participants| - 1;
      var rest, last := Allowed(participants[..n], ids), participants[n];
      RoomKeepsIdsUnique(participants[..n], ids);
      AllowedStep(participants, ids, n);
      assert participants[..n + 1] == participants;
      hide UniquePersonas;
      if last.id in ids {
        AllowedAreOthers(participants, ids);
        OneMoreUnique(rest, last);
      } else {
        assert rest + [] == rest;
      }
    }
  }

  lemma AllowedAreOthers(participants: seq<Persona>, ids: seq<string>)
    requires UniquePersonas(participants) && participants != []
    ensures forall p | p in Allowed(participants[..|participants| - 1], ids) :: p.id != participants[|participants| - 1].id
  {
    var n := |participants| - 1;
    assert forall p | p in participants[..n] :: exists k :: 0 <= k < n && participants[k] == p;
  }
}
