/** The in-memory channel store: one append-only log of messages per channel. */
module ChannelStore {
  import opened Wrappers
  import opened TurnPolicy

  /** Sequence numbers start at one and have no gaps. */
  ghost predicate GapFree(log: seq<Message>) {
    forall i | 0 <= i < |log| :: log[i].seqNo == i + 1
  }

  /** What a reader with cursor `afterSeq` has not seen yet. */
  function Unread(log: seq<Message>, afterSeq: nat): seq<Message> {
    if log == [] then []
    else
      Unread(log[..|log| - 1], afterSeq)
      + (if log[|log| - 1].seqNo > afterSeq then [log[|log| - 1]] else [])
  }

  function Page(log: seq<Message>, afterSeq: nat, limit: Option<nat>): seq<Message> {
    var unread := if afterSeq > 0 then Unread(log, afterSeq) else log;
    if limit.Some? && limit.value < |unread| then unread[..limit.value] else unread
  }

  lemma {:induction false} UnreadIsSuffix(log: seq<Message>, afterSeq: nat)
    requires GapFree(log)
    ensures Unread(log, afterSeq) == if afterSeq <= |log| then log[afterSeq..] else []
  {
    if log != [] {
      UnreadIsSuffix(log[..|log| - 1], afterSeq);
    }
  }

  /**
   * Reading by cursor loses nothing and repeats nothing: a page is the stretch
   * of the log right after the cursor, and resuming at its last message
   * continues exactly where it ended.
   */
  lemma PagesTile(log: seq<Message>, cursor: nat, limit: nat)
    requires GapFree(log) && cursor <= |log|
    ensures var page := Page(log, cursor, Some(limit));
      && page <= log[cursor..]
      && (limit > 0 && cursor < |log| ==> page != [])
      && (page != [] ==> page[|page| - 1].seqNo == cursor + |page|)
  {
    UnreadIsSuffix(log, cursor);
  }

  class Store {
    var messages: map<string, seq<Message>>

    ghost predicate Valid()
      reads this
    {
      forall c | c in messages :: GapFree(messages[c])
    }

    constructor ()
      ensures Valid() && messages == map[]
    {
      messages := map[];
    }

    method CreateChannel(channelId: string)
      requires Valid()
      modifies this
      ensures Valid() && messages == old(messages)[channelId := []]
    {
      messages := messages[channelId := []];
    }

    /** Fails for a channel that was never created; otherwise the log grows by one message. */
    method Append(channelId: string, author: Author, kind: MessageKind, note: Note, mentions: seq<string>,
                  words: set<string>)
      returns (r: Result<Message, string>)
      requires Valid()
      modifies this
      ensures Valid()
      ensures r.Success? <==> channelId in old(messages)
      ensures r.Failure? ==> messages == old(messages)
      ensures r.Success? ==>
        && r.value == Message(|old(messages)[channelId]| + 1, author, kind, note, mentions, words)
        && messages == old(messages)[channelId := old(messages)[channelId] + [r.value]]
    {
      if channelId !in messages {
        return Failure("Unknown channel");
      }
      var log := messages[channelId];
      var message := Message(|log| + 1, author, kind, note, mentions, words);
      messages := messages[channelId := log + [message]];
      r := Success(message);
    }

    method Read(channelId: string, afterSeq: nat, limit: Option<nat>) returns (page: seq<Message>)
      ensures page == if channelId in messages then Page(messages[channelId], afterSeq, limit) else []
    {
      var log := if channelId in messages then messages[channelId] else [];
      page := log;
      if afterSeq > 0 {
        page := [];
        for i := 0 to |log|
          invariant page == Unread(log[..i], afterSeq)
        {
          assert log[..i + 1][..i] == log[..i];
          if log[i].seqNo > afterSeq {
            page := page + [log[i]];
          }
        }
        assert log[..|log|] == log;
      }
      if limit.Some? && limit.value < |page| {
        page := page[..limit.value];
      }
    }

    method LatestSeq(channelId: string) returns (latest: nat)
      requires Valid()
      ensures latest == if channelId in messages then |messages[channelId]| else 0
    {
      if channelId in messages && messages[channelId] != [] {
        latest := messages[channelId][|messages[channelId]| - 1].seqNo;
      } else {
        latest := 0;
      }
    }
  }
}
