/** Speaker selection: a function of the room, the transcript and the turn offset. */
module TurnPolicy {
  import opened Wrappers
  import opened Phases

  datatype AuthorKind = Agent | Human

  /** `seat` is the persona a human speaks for, if any. */
  datatype Author = Author(kind: AuthorKind, id: string, seat: Option<string>)

  datatype MessageKind = Chat | System

  /** What a system message announces; ordinary messages carry Plain. */
  datatype Note =
    | Plain
    | Started
    | PhaseOpened(index: nat)
    | TurnFailed
    | Paused
    | Resumed
    | TookOver
    | HandedBack
    | Ended

  /** A text is kept as the ids it mentions, in order, and the set of its tokens. */
  datatype Message = Message(
    seqNo: nat,
    author: Author,
    kind: MessageKind,
    note: Note,
    mentions: seq<string>,
    words: set<string>)

  datatype Policy = RoundRobin | Moderated(moderatorId: Option<string>) | Reactive

  function EffectiveSpeaker(m: Message): string {
    if m.author.seat.Some? then m.author.seat.value else m.author.id
  }

  /** The newest message that is not a system message. */
  function LastSpoken(log: seq<Message>): (last: Option<Message>)
    ensures last.Some? ==> last.value in log && last.value.kind != System
    ensures last.None? ==> forall m | m in log :: m.kind == System
  {
    if log == [] then None
    else if log[|log| - 1].kind != System then Some(log[|log| - 1])
    else LastSpoken(log[..|log| - 1])
  }

  /** The first participant with the id. */
  function Find(participants: seq<Persona>, id: string): (p: Option<Persona>)
    ensures p.Some? ==> p.value in participants && p.value.id == id
    ensures p.None? <==> forall q | q in participants :: q.id != id
  {
    if participants == [] then None
    else if participants[0].id == id then Some(participants[0])
    else Find(participants[1..], id)
  }

  /** The first mention of a participant other than `exclude`. */
  function FindMention(mentions: seq<string>, participants: seq<Persona>, exclude: string): (p: Option<Persona>)
    ensures p.Some? ==> p.value in participants && p.value.id in mentions && p.value.id != exclude
    ensures p.None? <==> forall id | id in mentions && id != exclude :: Find(participants, id).None?
  {
    if mentions == [] then None
    else if mentions[0] != exclude && Find(participants, mentions[0]).Some? then Find(participants, mentions[0])
    else FindMention(mentions[1..], participants, exclude)
  }

  /** How many role words of the persona the message uses. */
  function Score(p: Persona, words: set<string>): nat {
    ScoreWords(p.roleWords, words)
  }

  function ScoreWords(roleWords: seq<string>, words: set<string>): nat {
    if roleWords == [] then 0
    else (if roleWords[0] in words then 1 else 0) + ScoreWords(roleWords[1..], words)
  }

  /** Index `i` holds the first of the best positive scores among the others. */
  ghost predicate BestMatch(participants: seq<Persona>, words: set<string>, exclude: string, i: nat) {
    && i < |participants|
    && participants[i].id != exclude
    && Score(participants[i], words) > 0
    && (forall j | 0 <= j < |participants| && participants[j].id != exclude ::
          Score(participants[j], words) <= Score(participants[i], words))
    && (forall j | 0 <= j < i && participants[j].id != exclude ::
          Score(participants[j], words) < Score(participants[i], words))
  }

  function Best(participants: seq<Persona>, words: set<string>, exclude: string): (best: Option<nat>)
    ensures best.Some? ==> BestMatch(participants, words, exclude, best.value)
    ensures best.None? ==> forall p | p in participants :: p.id != exclude ==> Score(p, words) == 0
  {
    if participants == [] then None
    else
      var n := |participants| - 1;
      var best := Best(participants[..n], words, exclude);
      var bestScore := if best.Some? then Score(participants[best.value], words) else 0;
      if participants[n].id != exclude && Score(participants[n], words) > bestScore then Some(n) else best
  }

  function IndexOfId(participants: seq<Persona>, id: string): (index: Option<nat>)
    ensures index.Some? ==> index.value < |participants| && participants[index.value].id == id
    ensures index.None? <==> forall p | p in participants :: p.id != id
  {
    if participants == [] then None
    else if participants[0].id == id then Some(0)
    else
      var rest := IndexOfId(participants[1..], id);
      if rest.Some? then Some(rest.value + 1) else None
  }

  function Without(participants: seq<Persona>, id: string): (others: seq<Persona>)
    ensures forall p | p in others :: p in participants && p.id != id
  {
    if participants == [] then []
    else (if participants[0].id != id then [participants[0]] else []) + Without(participants[1..], id)
  }

  function Moderator(participants: seq<Persona>, moderatorId: Option<string>): (p: Persona)
    requires participants != []
    ensures p in participants
  {
    var named := if moderatorId.Some? then Find(participants, moderatorId.value) else None;
    if named.Some? then named.value else participants[0]
  }

  /** The remainder of `k` by `n`: the slot of turn `k` in a rotation of `n`. */
  function Slot(k: nat, n: nat): (slot: nat)
    requires n > 0
    ensures slot < n
  {
    if k < n then k else Slot(k - n, n)
  }

  /** The other speakers in rotation, one for every second turn. */
  function OtherSpeaker(participants: seq<Persona>, moderator: Persona, turnIndex: nat): (p: Persona)
    requires turnIndex > 0 && moderator in participants
    ensures p in participants
  {
    var others := Without(participants, moderator.id);
    if others == [] then moderator else others[Slot((turnIndex - 1) / 2, |others|)]
  }

  /** The persona that speaks next: none exactly when the room is empty. */
  function SelectNextSpeaker(participants: seq<Persona>, log: seq<Message>, turnIndex: nat, policy: Policy)
      : (speaker: Option<Persona>)
    ensures speaker.None? <==> participants == []
    ensures speaker.Some? ==> speaker.value in participants
  {
    if participants == [] then None
    else
      match policy
      case RoundRobin => Some(participants[Slot(turnIndex, |participants|)])
      case Moderated(moderatorId) =>
        var moderator := Moderator(participants, moderatorId);
        if turnIndex == 0 then Some(moderator)
        else
          var last := LastSpoken(log);
          if last.None? then Some(moderator)
          else
            var nominated := FindMention(last.value.mentions, participants, last.value.author.id);
            if nominated.Some? then nominated
            else if EffectiveSpeaker(last.value) == moderator.id then
              Some(OtherSpeaker(participants, moderator, turnIndex))
            else Some(moderator)
      case Reactive =>
        var last := LastSpoken(log);
        if last.None? then Some(participants[0])
        else
          var speaker := EffectiveSpeaker(last.value);
          var mentioned := FindMention(last.value.mentions, participants, speaker);
          if mentioned.Some? then mentioned
          else
            var best := Best(participants, last.value.words, speaker);
            if best.Some? then Some(participants[best.value])
            else
              var index := IndexOfId(participants, speaker);
              var next := if index.Some? then index.value + 1 else 0;
              Some(participants[Slot(next, |participants|)])
  }

  /** A system note leaves the choice as it was. */
  lemma SystemNotesDoNotMatter(
      participants: seq<Persona>, log: seq<Message>, note: Message, turnIndex: nat, policy: Policy)
    requires note.kind == System
    ensures LastSpoken(log + [note]) == LastSpoken(log)
    ensures SelectNextSpeaker(participants, log + [note], turnIndex, policy)
         == SelectNextSpeaker(participants, log, turnIndex, policy)
  {
    assert (log + [note])[..|log|] == log;
  }

  /** The log counts only through the last thing said. */
  lemma OnlyLastSpokenMatters(room: seq<Persona>, log: seq<Message>, other: seq<Message>, turnIndex: nat, policy: Policy)
    requires LastSpoken(log) == LastSpoken(other)
    ensures SelectNextSpeaker(room, log, turnIndex, policy) == SelectNextSpeaker(room, other, turnIndex, policy)
  {
  }

  // ------------------------------------------------------------------------
  // Who is picked
  // ------------------------------------------------------------------------

  /** Message `i` is the newest that is not a system message. */
  ghost predicate IsLastSpoken(log: seq<Message>, i: nat) {
    && i < |log| && log[i].kind != System
    && forall j | i < j < |log| :: log[j].kind == System
  }

  lemma {:induction false} LastSpokenIsTheNewest(log: seq<Message>, i: nat)
    requires IsLastSpoken(log, i)
    ensures LastSpoken(log) == Some(log[i])
  {
    if i < |log| - 1 {
      LastSpokenIsTheNewest(log[..|log| - 1], i);
    }
  }

  /** Somebody in the room has the id. */
  predicate Present(room: seq<Persona>, id: string) {
    exists i :: 0 <= i < |room| && room[i].id == id
  }

  /** Mention `k` is the first of somebody in the room other than `exclude`. */
  ghost predicate IsNomination(mentions: seq<string>, room: seq<Persona>, exclude: string, k: nat) {
    && k < |mentions| && mentions[k] != exclude && Present(room, mentions[k])
    && forall j | 0 <= j < k :: mentions[j] == exclude || !Present(room, mentions[j])
  }

  lemma {:induction false} FirstMentionIsFound(mentions: seq<string>, room: seq<Persona>, exclude: string, k: nat)
    requires IsNomination(mentions, room, exclude, k)
    ensures FindMention(mentions, room, exclude).Some? && FindMention(mentions, room, exclude).value.id == mentions[k]
  {
    if k > 0 {
      assert mentions[0] == exclude || Find(room, mentions[0]).None?;
      assert forall j | 0 <= j < k - 1 :: mentions[1..][j] == mentions[j + 1];
      FirstMentionIsFound(mentions[1..], room, exclude, k - 1);
    }
  }

  /** Nobody in the room other than `exclude` is mentioned. */
  ghost predicate NobodyNominated(mentions: seq<string>, room: seq<Persona>, exclude: string) {
    forall j | 0 <= j < |mentions| :: mentions[j] == exclude || !Present(room, mentions[j])
  }

  lemma NoMentionIsFound(mentions: seq<string>, room: seq<Persona>, exclude: string)
    requires NobodyNominated(mentions, room, exclude)
    ensures FindMention(mentions, room, exclude).None?
  {
    assert forall p | p in room :: Present(room, p.id);
  }

  /**
   * Whoever the last message mentions first speaks next, unless it is the
   * message's own author (moderated) or the persona it spoke for (reactive);
   * when moderated this holds from the second turn on.
   */
  lemma NomineeSpeaks(room: seq<Persona>, log: seq<Message>, turnIndex: nat, policy: Policy, i: nat, k: nat)
    requires IsLastSpoken(log, i)
    requires policy.Moderated? ==> turnIndex > 0 && IsNomination(log[i].mentions, room, log[i].author.id, k)
    requires policy.Reactive? ==> IsNomination(log[i].mentions, room, EffectiveSpeaker(log[i]), k)
    requires !policy.RoundRobin?
    ensures
      var speaker := SelectNextSpeaker(room, log, turnIndex, policy);
      speaker.Some? && speaker.value.id == log[i].mentions[k]
  {
    LastSpokenIsTheNewest(log, i);
    var exclude := if policy.Moderated? then log[i].author.id else EffectiveSpeaker(log[i]);
    FirstMentionIsFound(log[i].mentions, room, exclude, k);
  }

  /** Place `c` is the chair's: the named moderator's, or the first if no such persona is in the room. */
  ghost predicate IsChair(room: seq<Persona>, moderatorId: Option<string>, c: nat) {
    && c < |room|
    && if moderatorId.Some? && Present(room, moderatorId.value) then room[c].id == moderatorId.value else c == 0
  }

  /**
   * The chair opens, and without a nomination the floor goes back to the
   * chair, unless the chair itself spoke last.
   */
  lemma ChairSpeaks(room: seq<Persona>, log: seq<Message>, turnIndex: nat, moderatorId: Option<string>, c: nat)
    requires UniquePersonas(room) && IsChair(room, moderatorId, c)
    requires turnIndex == 0 || forall i: nat | IsLastSpoken(log, i) ::
      NobodyNominated(log[i].mentions, room, log[i].author.id) && EffectiveSpeaker(log[i]) != room[c].id
    ensures SelectNextSpeaker(room, log, turnIndex, Moderated(moderatorId)) == Some(room[c])
  {
    assert Moderator(room, moderatorId) == room[c] by {
      if moderatorId.Some? && Present(room, moderatorId.value) {
        assert Find(room, moderatorId.value).Some?;
      }
    }
    if turnIndex > 0 && LastSpoken(log).Some? {
      var i := NewestSpoken(log);
      LastSpokenIsTheNewest(log, i);
      NoMentionIsFound(log[i].mentions, room, log[i].author.id);
    }
  }

  lemma {:induction false} NewestSpoken(log: seq<Message>) returns (i: nat)
    requires LastSpoken(log).Some?
    ensures IsLastSpoken(log, i)
  {
    if log[|log| - 1].kind != System {
      i := |log| - 1;
    } else {
      i := NewestSpoken(log[..|log| - 1]);
    }
  }

  /** Without a nomination the reactive policy picks the first of the best positive matches among the others. */
  lemma BestMatchSpeaks(room: seq<Persona>, log: seq<Message>, turnIndex: nat, i: nat, b: nat)
    requires b < |room| && IsLastSpoken(log, i)
    requires NobodyNominated(log[i].mentions, room, EffectiveSpeaker(log[i]))
    requires BestMatch(room, log[i].words, EffectiveSpeaker(log[i]), b)
    ensures SelectNextSpeaker(room, log, turnIndex, Reactive) == Some(room[b])
  {
    LastSpokenIsTheNewest(log, i);
    NoMentionIsFound(log[i].mentions, room, EffectiveSpeaker(log[i]));
    assert room[b] in room;
  }

  /** If nobody else matches either, the persona seated after the one that spoke is next. */
  lemma RotationMovesOn(room: seq<Persona>, log: seq<Message>, turnIndex: nat, i: nat, b: nat)
    requires UniquePersonas(room) && b < |room| && IsLastSpoken(log, i)
    requires NobodyNominated(log[i].mentions, room, EffectiveSpeaker(log[i]))
    requires EffectiveSpeaker(log[i]) == room[b].id
    requires forall p | p in room && p.id != room[b].id :: Score(p, log[i].words) == 0
    ensures SelectNextSpeaker(room, log, turnIndex, Reactive) == Some(room[if b + 1 < |room| then b + 1 else 0])
  {
    LastSpokenIsTheNewest(log, i);
    NoMentionIsFound(log[i].mentions, room, room[b].id);
    assert room[b] in room;
    assert IndexOfId(room, room[b].id) == Some(b);
    assert Slot(|room|, |room|) == Slot(0, |room|) == 0;
  }

  // ------------------------------------------------------------------------
  // Fairness
  // ------------------------------------------------------------------------

  lemma {:induction false} SlotIsRemainder(k: nat, n: nat)
    requires n > 0
    ensures Slot(k, n) == k % n
  {
    var q := Laps(k, n);
    Remainder(n, q, Slot(k, n));
  }

  lemma {:induction false} Laps(k: nat, n: nat) returns (q: nat)
    requires n > 0
    ensures k == q * n + Slot(k, n)
  {
    if k < n {
      q := 0;
    } else {
      q := Laps(k - n, n);
      assert (q + 1) * n == q * n + n;
      q := q + 1;
    }
  }

  lemma Remainder(n: nat, q: nat, i: nat)
    requires i < n
    ensures (q * n + i) % n == i
  {
    var d, r := (q * n + i) / n, (q * n + i) % n;
    assert d * n + r == q * n + i;
    if d < q {
      Monotone(n, d + 1, q);
    } else if q < d {
      Monotone(n, q + 1, d);
    }
  }

  lemma Monotone(n: nat, a: nat, b: nat)
    requires a <= b
    ensures a * n <= b * n
  {
  }

  /** The slot moves on by one with every turn and wraps at the end. */
  lemma {:induction false} NextSlot(k: nat, n: nat)
    requires n > 0
    ensures Slot(k + 1, n) == if Slot(k, n) == n - 1 then 0 else Slot(k, n) + 1
  {
    if k >= n {
      NextSlot(k - n, n);
    }
  }

  /** Each slot comes up exactly once in any `n` consecutive turns. */
  lemma {:induction false} SlotComesUpOnce(n: nat, from: nat, i: nat) returns (t: nat)
    requires i < n
    ensures from <= t < from + n && Slot(t, n) == i
    ensures forall u: nat | from <= u < from + n && u != t :: Slot(u, n) != i
    decreases from
  {
    if from == 0 {
      t := i;
    } else {
      t := SlotComesUpOnce(n, from - 1, i);
      assert Slot(from - 1 + n, n) == Slot(from - 1, n);
      if t == from - 1 {
        t := from - 1 + n;
      }
    }
  }

  /** Round robin gives everybody exactly one slot in any window as long as the room. */
  lemma RoundRobinIsFair(room: seq<Persona>, logs: nat -> seq<Message>, from: nat, i: nat)
    requires UniquePersonas(room) && i < |room|
    ensures exists t: nat ::
      && from <= t < from + |room|
      && SelectNextSpeaker(room, logs(t), t, RoundRobin) == Some(room[i])
      && forall u: nat | from <= u < from + |room| && u != t ::
           SelectNextSpeaker(room, logs(u), u, RoundRobin) != Some(room[i])
  {
    var t := SlotComesUpOnce(|room|, from, i);
    assert SelectNextSpeaker(room, logs(t), t, RoundRobin) == Some(room[i]);
    forall u: nat | from <= u < from + |room| && u != t
      ensures SelectNextSpeaker(room, logs(u), u, RoundRobin) != Some(room[i])
    {
      assert room[Slot(u, |room|)].id != room[i].id;
    }
  }

  /**
   * The last thing said in `later` was said by, or for, persona `p`, and
   * nominates nobody else in the room. What else was posted are notes.
   */
  predicate QuietlyAfter(room: seq<Persona>, p: Persona, later: seq<Message>) {
    var last := LastSpoken(later);
    && last.Some? && EffectiveSpeaker(last.value) == p.id
    && FindMention(last.value.mentions, room, last.value.author.id).None?
  }

  /** In each of the first `n` turns the persona the policy picks speaks, and nominates nobody. */
  ghost predicate QuietTurns(room: seq<Persona>, policy: Policy, logs: nat -> seq<Message>, n: nat)
    requires room != []
  {
    forall j: nat | j < n :: QuietlyAfter(room, SelectNextSpeaker(room, logs(j), j, policy).value, logs(j + 1))
  }

  /** The moderator on every even turn, the others in rotation on the odd ones. */
  function ModeratedSlot(room: seq<Persona>, moderatorId: Option<string>, k: nat): Persona
    requires room != []
  {
    var moderator := Moderator(room, moderatorId);
    if k % 2 == 0 then moderator else OtherSpeaker(room, moderator, k)
  }

  /** When nobody is nominated and no turn fails, a moderated phase follows these slots, whatever is said and noted. */
  lemma {:induction false} ModeratedAlternates(
      room: seq<Persona>, moderatorId: Option<string>, logs: nat -> seq<Message>, k: nat)
    requires room != [] && QuietTurns(room, Moderated(moderatorId), logs, k)
    ensures SelectNextSpeaker(room, logs(k), k, Moderated(moderatorId)) == Some(ModeratedSlot(room, moderatorId, k))
  {
    if k > 0 {
      hide SelectNextSpeaker, ModeratedSlot;
      ModeratedAlternates(room, moderatorId, logs, k - 1);
      var last := ModeratedSlot(room, moderatorId, k - 1);
      assert QuietlyAfter(room, last, logs(k - 1 + 1));
      AfterQuietTurn(room, moderatorId, logs(k), last, k);
      SlotsAlternate(room, moderatorId, k);
    }
  }

  /** Whenever it is: after a quiet turn of the moderator one of the others speaks, and after theirs the moderator. */
  lemma AfterQuietTurn(room: seq<Persona>, moderatorId: Option<string>, log: seq<Message>, last: Persona, k: nat)
    requires room != [] && k > 0 && QuietlyAfter(room, last, log)
    ensures SelectNextSpeaker(room, log, k, Moderated(moderatorId))
      == Some(var moderator := Moderator(room, moderatorId);
              if last.id == moderator.id then OtherSpeaker(room, moderator, k) else moderator)
  {
  }

  lemma SlotsAlternate(room: seq<Persona>, moderatorId: Option<string>, k: nat)
    requires room != [] && k > 0
    ensures var moderator, last := Moderator(room, moderatorId), ModeratedSlot(room, moderatorId, k - 1);
      ModeratedSlot(room, moderatorId, k)
        == if last.id == moderator.id then OtherSpeaker(room, moderator, k) else moderator
  {
    hide Without, OtherSpeaker;
    var moderator := Moderator(room, moderatorId);
    OthersAreNotTheModerator(room, moderator, k);
    if k > 1 {
      OthersAreNotTheModerator(room, moderator, k - 1);
    }
  }

  lemma OthersAreNotTheModerator(room: seq<Persona>, moderator: Persona, k: nat)
    requires k > 0 && moderator in room
    ensures OtherSpeaker(room, moderator, k).id == moderator.id <==> Without(room, moderator.id) == []
    ensures Without(room, moderator.id) == [] ==> OtherSpeaker(room, moderator, k) == moderator
  {
    assert Without(room, moderator.id) != [] ==> OtherSpeaker(room, moderator, k) in Without(room, moderator.id);
  }

  /** The others take turns: each has exactly one of any |others| consecutive odd turns. */
  lemma OthersRotate(room: seq<Persona>, moderatorId: Option<string>, from: nat, i: nat) returns (t: nat)
    requires UniquePersonas(room) && room != [] && i < |Without(room, Moderator(room, moderatorId).id)|
    ensures
      var others := Without(room, Moderator(room, moderatorId).id);
      && from <= t < from + |others| && ModeratedSlot(room, moderatorId, 2 * t + 1) == others[i]
      && forall u: nat | from <= u < from + |others| && u != t :: ModeratedSlot(room, moderatorId, 2 * u + 1) != others[i]
  {
    var others := Without(room, Moderator(room, moderatorId).id);
    t := SlotComesUpOnce(|others|, from, i);
    WithoutIsUnique(room, Moderator(room, moderatorId).id);
    assert (2 * t + 1 - 1) / 2 == t;
    forall u: nat | from <= u < from + |others| && u != t
      ensures ModeratedSlot(room, moderatorId, 2 * u + 1) != others[i]
    {
      assert (2 * u + 1 - 1) / 2 == u;
      assert others[Slot(u, |others|)].id != others[i].id;
    }
  }

  lemma {:induction false} WithoutIsUnique(room: seq<Persona>, id: string)
    requires UniquePersonas(room)
    ensures UniquePersonas(Without(room, id))
  {
    if room != [] {
      var rest := Without(room[1..], id);
      WithoutIsUnique(room[1..], id);
      forall j | 0 <= j < |rest|
        ensures rest[j].id != room[0].id
      {
        assert rest[j] in rest && rest[j] in room[1..];
      }
    }
  }

  /** So in a quiet moderated phase every other persona speaks exactly once in any |others| odd turns. */
  lemma ModeratedIsFair(
      room: seq<Persona>, moderatorId: Option<string>, logs: nat -> seq<Message>, from: nat, i: nat) returns (t: nat)
    requires UniquePersonas(room) && room != [] && i < |Without(room, Moderator(room, moderatorId).id)|
    requires QuietTurns(room, Moderated(moderatorId), logs, 2 * (from + |Without(room, Moderator(room, moderatorId).id)|))
    ensures
      var others := Without(room, Moderator(room, moderatorId).id);
      && from <= t < from + |others|
      && SelectNextSpeaker(room, logs(2 * t + 1), 2 * t + 1, Moderated(moderatorId)) == Some(others[i])
      && forall u: nat | from <= u < from + |others| && u != t ::
           SelectNextSpeaker(room, logs(2 * u + 1), 2 * u + 1, Moderated(moderatorId)) != Some(others[i])
  {
    hide SelectNextSpeaker, ModeratedSlot;
    var others := Without(room, Moderator(room, moderatorId).id);
    t := OthersRotate(room, moderatorId, from, i);
    forall u: nat | from <= u < from + |others|
      ensures SelectNextSpeaker(room, logs(2 * u + 1), 2 * u + 1, Moderated(moderatorId))
           == Some(ModeratedSlot(room, moderatorId, 2 * u + 1))
    {
      ModeratedAlternates(room, moderatorId, logs, 2 * u + 1);
    }
  }

  /**
   * The reactive policy never hands the floor straight back, be it to an agent
   * or to the seat a human just spoke for, once two personas share the room.
   */
  lemma ReactiveChangesSpeaker(room: seq<Persona>, log: seq<Message>, turnIndex: nat)
    requires UniquePersonas(room) && |room| >= 2 && LastSpoken(log).Some?
    ensures SelectNextSpeaker(room, log, turnIndex, Reactive).value.id != EffectiveSpeaker(LastSpoken(log).value)
  {
    var speaker := EffectiveSpeaker(LastSpoken(log).value);
    var index := IndexOfId(room, speaker);
    if index.Some? {
      NextSlot(index.value, |room|);
      var next := Slot(index.value + 1, |room|);
      assert room[next].id != room[index.value].id;
    }
  }

  // ------------------------------------------------------------------------
  // The lookup loops
  // ------------------------------------------------------------------------

  method LastAgentOrHumanMessage(log: seq<Message>) returns (last: Option<Message>)
    ensures last == LastSpoken(log)
  {
    var i := |log|;
    assert log[..i] == log;
    while i > 0
      invariant 0 <= i <= |log|
      invariant LastSpoken(log) == LastSpoken(log[..i])
    {
      i := i - 1;
      if log[i].kind != System {
        return Some(log[i]);
      }
      assert log[..i + 1][..i] == log[..i];
    }
    last := None;
  }

  method FindMentionLoop(mentions: seq<string>, participants: seq<Persona>, exclude: string)
    returns (p: Option<Persona>)
    ensures p == FindMention(mentions, participants, exclude)
  {
    for i := 0 to |mentions|
      invariant FindMention(mentions, participants, exclude) == FindMention(mentions[i..], participants, exclude)
    {
      if mentions[i] != exclude {
        var hit := Find(participants, mentions[i]);
        if hit.Some? {
          return hit;
        }
      }
    }
    p := None;
  }

  method BestByRoleWords(participants: seq<Persona>, words: set<string>, speaker: string)
    returns (best: Option<Persona>)
    ensures best.Some? <==> Best(participants, words, speaker).Some?
    ensures best.Some? ==> best.value == participants[Best(participants, words, speaker).value]
  {
    best := None;
    var bestScore := 0;
    for i := 0 to |participants|
      invariant best.Some? <==> Best(participants[..i], words, speaker).Some?
      invariant best.Some? ==> best.value == participants[Best(participants[..i], words, speaker).value]
      invariant bestScore == if best.Some? then Score(best.value, words) else 0
    {
      assert participants[..i + 1][..i] == participants[..i];
      if participants[i].id != speaker {
        var score := Score(participants[i], words);
        if score > bestScore {
          best, bestScore := Some(participants[i]), score;
        }
      }
    }
    assert participants[..|participants|] == participants;
  }
}
