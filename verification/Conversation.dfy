/** Conversation messages, and the start of the recent window that context compaction must keep. */
module Conversation {

  datatype Role = System | User | Assistant | Tool

  /** `callId` matters for tool messages only, `calls` (the identifiers declared) for assistant messages only. */
  datatype Message<C> = Message(role: Role, callId: string, calls: seq<string>, content: C)

  predicate Declares<C>(m: Message<C>, id: string) { m.role.Assistant? && id in m.calls }

  /** Message `j` declares the call answered by tool message `i`, with only tool messages between them. */
  predicate Anchors<C>(messages: seq<Message<C>>, j: int, i: int) {
    && 0 <= j < i < |messages| && Declares(messages[j], messages[i].callId)
    && forall k :: j < k < i ==> messages[k].role.Tool?
  }

  /** Every tool message sits in a block opened by the assistant message that declared its call. */
  ghost predicate Blocked<C(!new)>(messages: seq<Message<C>>) {
    forall i :: 0 <= i < |messages| && messages[i].role.Tool? ==> exists j :: Anchors(messages, j, i)
  }

  /** The suffix from `start` keeps no tool message without its declaring assistant message. */
  ghost predicate NoOrphan<C(!new)>(messages: seq<Message<C>>, start: nat) {
    forall i :: start <= i < |messages| && messages[i].role.Tool? ==> exists j :: start <= j && Anchors(messages, j, i)
  }

  /** The backward scan. The window covers the requested suffix for any conversation; on block-structured ones it
      orphans nothing and adds to that suffix only the rest of the block the cut fell into. */
  method RecentStart<C(!new)>(messages: seq<Message<C>>, recent: nat) returns (start: nat)
    requires recent >= 1
    ensures start <= |messages| && (start == 0 || start + recent <= |messages|)
    ensures Blocked(messages) ==> NoOrphan(messages, start)
    ensures forall j, i :: Anchors(messages, j, i) && i + recent == |messages| && messages[i].role.Tool? ==> start == j
    ensures |messages| >= recent && !messages[|messages| - recent].role.Tool? ==> start + recent == |messages|
  {
    start := if |messages| > recent then |messages| - recent else 0;
    ghost var cut := start;
    while start > 0 && messages[start].role.Tool?
      invariant start <= |messages| && (start == 0 || start + recent <= |messages|)
      invariant start < cut ==> forall j :: Anchors(messages, j, cut) && messages[cut].role.Tool? ==> start == j
      invariant start == cut || messages[cut].role.Tool?
    {
      var id := messages[start].callId;
      ghost var from := start;
      start := start - 1;
      while start > 0 && !Declares(messages[start], id)
        invariant start < from
        invariant forall k :: start < k < from ==> !Declares(messages[k], id)
      {
        start := start - 1;
      }
    }
    if Blocked(messages) { WindowHasNoOrphan(messages, start); }
  }

  /** With the scan's own exit condition, a block-structured conversation keeps every answer with its question. */
  lemma WindowHasNoOrphan<C(!new)>(messages: seq<Message<C>>, start: nat)
    requires Blocked(messages) && start <= |messages|
    requires start == 0 || start == |messages| || !messages[start].role.Tool?
    ensures NoOrphan(messages, start)
  {
    forall i | start <= i < |messages| && messages[i].role.Tool?
      ensures exists j :: start <= j && Anchors(messages, j, i)
    {
      var j :| Anchors(messages, j, i);
      assert start <= j;
    }
  }

  /** Answering declared calls right after their declaration, or saying anything else, keeps the blocks. */
  lemma {:induction false} AnswersKeepBlocks<C(!new)>(messages: seq<Message<C>>, answers: seq<Message<C>>)
    requires Blocked(messages) && messages != []
    requires messages[|messages| - 1].role.Assistant?
    requires forall a :: a in answers ==> a.role.Tool? && a.callId in messages[|messages| - 1].calls
    ensures Blocked(messages + answers)
  {
    var all, last := messages + answers, |messages| - 1;
    forall i | 0 <= i < |all| && all[i].role.Tool? ensures exists j :: Anchors(all, j, i) {
      if i < |messages| {
        var j :| Anchors(messages, j, i);
        assert Anchors(all, j, i);
      } else {
        assert all[i] in answers && Anchors(all, last, i);
      }
    }
  }

  lemma OtherKeepsBlocks<C(!new)>(messages: seq<Message<C>>, m: Message<C>)
    requires Blocked(messages) && !m.role.Tool?
    ensures Blocked(messages + [m])
  {
    var all := messages + [m];
    forall i | 0 <= i < |all| && all[i].role.Tool? ensures exists j :: Anchors(all, j, i) {
      var j :| Anchors(messages, j, i);
      assert Anchors(all, j, i);
    }
  }
}
