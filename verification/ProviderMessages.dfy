/**
 The messages of a chat turn as a provider sees them (`AiProviderMessage`), and when they are well
 paired: providers refuse a tool result that answers no call of the assistant message before it.
 */
module ProviderMessages {
  import opened Wrappers

  datatype Role = User | Assistant | Tool

  datatype ToolCall = ToolCall(id: string, name: string, arguments: string)

  /** An absent reasoning text is empty; absent tool calls are the empty sequence. */
  datatype Message = Message(role: Role, content: string, reasoning: string, toolCalls: seq<ToolCall>,
                             toolCallId: Option<string>)

  function UserMessage(content: string): Message {
    Message(User, content, "", [], None)
  }

  function AssistantMessage(content: string): Message {
    Message(Assistant, content, "", [], None)
  }

  function ToolMessage(content: string, id: string): Message {
    Message(Tool, content, "", [], Some(id))
  }

  predicate Carries(m: Message, id: string) {
    exists i :: 0 <= i < |m.toolCalls| && m.toolCalls[i].id == id
  }

  /** The messages strictly between `j` and `i` are tool messages. */
  predicate OnlyToolsBetween(messages: seq<Message>, j: int, i: int) {
    forall k | j < k < i && 0 <= k < |messages| :: messages[k].role == Tool
  }

  /** `j` is the assistant message whose call the tool message `i` answers, in the run right after it. */
  predicate Answers(messages: seq<Message>, j: nat, i: nat) {
    && j < i < |messages| && messages[j].role == Assistant && messages[i].toolCallId.Some?
    && Carries(messages[j], messages[i].toolCallId.value) && OnlyToolsBetween(messages, j, i)
  }

  /**
   Every tool message sits in the run of tool messages directly after an assistant message that carries
   its call id, and within a run no id is answered twice.
   */
  ghost predicate WellPaired(messages: seq<Message>) {
    && (forall i: nat | i < |messages| && messages[i].role == Tool :: exists j: nat :: Answers(messages, j, i))
    && (forall i: nat, k: nat | i < k < |messages| && messages[i].role == Tool && messages[k].role == Tool
                                && OnlyToolsBetween(messages, i, k) ::
          messages[i].toolCallId != messages[k].toolCallId)
  }

  /** Message by message the same but for the content. */
  ghost predicate SameShape(a: seq<Message>, b: seq<Message>) {
    |a| == |b| && forall i | 0 <= i < |a| :: a[i].(content := b[i].content) == b[i]
  }

  lemma SameShapeKeepsPairing(a: seq<Message>, b: seq<Message>)
    requires SameShape(a, b) && WellPaired(a)
    ensures WellPaired(b)
  {
    forall i: nat | i < |b| && b[i].role == Tool
      ensures exists j: nat :: Answers(b, j, i)
    {
      var j: nat :| Answers(a, j, i);
      assert Answers(b, j, i);
    }
    forall i: nat, k: nat | i < k < |b| && b[i].role == Tool && b[k].role == Tool && OnlyToolsBetween(b, i, k)
      ensures b[i].toolCallId != b[k].toolCallId
    {
      assert OnlyToolsBetween(a, i, k);
    }
  }

  /** A message that is no tool result can always be added. */
  lemma PushKeepsPairing(messages: seq<Message>, m: Message)
    requires WellPaired(messages) && m.role != Tool
    ensures WellPaired(messages + [m])
  {
    var after := messages + [m];
    forall i: nat | i < |after| && after[i].role == Tool
      ensures exists j: nat :: Answers(after, j, i)
    {
      var j: nat :| Answers(messages, j, i);
      assert Answers(after, j, i);
    }
    forall i: nat, k: nat | i < k < |after| && after[i].role == Tool && after[k].role == Tool
                            && OnlyToolsBetween(after, i, k)
      ensures after[i].toolCallId != after[k].toolCallId
    {
      BetweenWithin(messages, m, i, k);
    }
  }

  lemma BetweenWithin(messages: seq<Message>, m: Message, i: nat, k: nat)
    requires i < k <= |messages| && OnlyToolsBetween(messages + [m], i, k)
    ensures OnlyToolsBetween(messages, i, k)
  {
    forall x | i < x < k && 0 <= x < |messages|
      ensures messages[x].role == Tool
    {
      assert (messages + [m])[x] == messages[x];
    }
  }

  /**
   Calls still to answer: ids of the last assistant message, with only tool messages after it, none of
   which answers them.
   */
  ghost predicate Open(messages: seq<Message>, open: set<string>) {
    open == {} || exists a: nat :: OpenSince(messages, open, a)
  }

  ghost predicate OpenSince(messages: seq<Message>, open: set<string>, a: nat) {
    && a < |messages| && messages[a].role == Assistant && OnlyToolsBetween(messages, a, |messages|)
    && (forall id | id in open :: Carries(messages[a], id))
    && (forall k | a < k < |messages| :: messages[k].toolCallId.Some? && messages[k].toolCallId.value !in open)
  }

  /** The call `id` of message `a` has its result in the run of tool messages right after `a`. */
  ghost predicate AnsweredAt(messages: seq<Message>, a: nat, id: string) {
    exists i: nat :: Answers(messages, a, i) && messages[i].role == Tool && messages[i].toolCallId == Some(id)
  }

  /** One more message answers a call exactly when it is its result and only tool messages are between. */
  lemma AnsweredGrows(messages: seq<Message>, m: Message, a: nat, id: string)
    requires a < |messages| && messages[a].role == Assistant && Carries(messages[a], id)
    ensures AnsweredAt(messages + [m], a, id)
       <==> AnsweredAt(messages, a, id)
            || (m.role == Tool && m.toolCallId == Some(id) && OnlyToolsBetween(messages, a, |messages|))
    ensures OnlyToolsBetween(messages + [m], a, |messages| + 1)
       <==> OnlyToolsBetween(messages, a, |messages|) && m.role == Tool
  {
    var after := messages + [m];
    if i: nat :| Answers(messages, a, i) && messages[i].role == Tool && messages[i].toolCallId == Some(id) {
      assert Answers(after, a, i);
    }
    if i: nat :| Answers(after, a, i) && after[i].role == Tool && after[i].toolCallId == Some(id) {
      BetweenWithin(messages, m, a, i);
      assert i < |messages| ==> Answers(messages, a, i);
    }
    if m.role == Tool && m.toolCallId == Some(id) && OnlyToolsBetween(messages, a, |messages|) {
      assert Answers(after, a, |messages|);
    }
    if OnlyToolsBetween(after, a, |messages| + 1) {
      assert after[|messages|] == m;
      forall x | a < x < |messages|
        ensures messages[x].role == Tool
      {
        assert after[x] == messages[x];
      }
    }
  }

  /** Answering an open call keeps the messages well paired, and closes the call. */
  lemma AnswerKeepsPairing(messages: seq<Message>, open: set<string>, content: string, id: string)
    requires WellPaired(messages) && Open(messages, open) && id in open
    ensures WellPaired(messages + [ToolMessage(content, id)])
            && Open(messages + [ToolMessage(content, id)], open - {id})
  {
    var after := messages + [ToolMessage(content, id)];
    var a: nat :| OpenSince(messages, open, a);
    assert Answers(after, a, |messages|);
    forall i: nat | i < |after| && after[i].role == Tool
      ensures exists j: nat :: Answers(after, j, i)
    {
      if i < |messages| {
        var j: nat :| Answers(messages, j, i);
        assert Answers(after, j, i);
      }
    }
    forall i: nat, k: nat | i < k < |after| && after[i].role == Tool && after[k].role == Tool
                            && OnlyToolsBetween(after, i, k)
      ensures after[i].toolCallId != after[k].toolCallId
    {
      BetweenWithin(messages, ToolMessage(content, id), i, k);
      if k == |messages| {
        assert after[a] == messages[a];
        assert messages[i].toolCallId.value !in open;
      }
    }
    assert OpenSince(after, open - {id}, a);
  }

  /** The live loop: an assistant message with one call, then its result. */
  lemma CallAndAnswerKeepPairing(messages: seq<Message>, call: Message, id: string, content: string)
    requires WellPaired(messages) && call.role == Assistant && Carries(call, id)
    ensures WellPaired(messages + [call, ToolMessage(content, id)])
  {
    PushKeepsPairing(messages, call);
    assert OpenSince(messages + [call], {id}, |messages|);
    AnswerKeepsPairing(messages + [call], {id}, content, id);
    assert messages + [call] + [ToolMessage(content, id)] == messages + [call, ToolMessage(content, id)];
  }

  // ----- Unanswered calls -----

  ghost predicate IsUnanswered(messages: seq<Message>, a: nat, id: string) {
    a < |messages| && messages[a].role == Assistant && Carries(messages[a], id) && !AnsweredAt(messages, a, id)
  }

  ghost predicate LeavesUnanswered(messages: seq<Message>) {
    exists a: nat, id :: IsUnanswered(messages, a, id)
  }

  /** `result` answers the one call of `call`. */
  predicate IsResultOf(call: Message, result: Message) {
    call.role == Assistant && |call.toolCalls| == 1 && result.role == Tool
    && result.toolCallId == Some(call.toolCalls[0].id)
  }

  /** A call has its result right after it, and a result its call right before it. */
  predicate CompleteAt(messages: seq<Message>, i: nat)
    requires i < |messages|
  {
    && (messages[i].toolCalls != [] ==> i + 1 < |messages| && IsResultOf(messages[i], messages[i + 1]))
    && (messages[i].role == Tool ==> i > 0 && messages[i - 1].toolCalls != [] && messages[i].toolCalls == [])
  }

  ghost predicate Complete(messages: seq<Message>) {
    forall i: nat | i < |messages| :: CompleteAt(messages, i)
  }

  /**
   `after` goes on from `before`: no message is lost, moved or changed but for a compacted content, and
   what is added has every call answered right after it.
   */
  ghost predicate GoesOnFrom(before: seq<Message>, after: seq<Message>) {
    |before| <= |after| && SameShape(before, after[..|before|]) && Complete(after[|before|..])
  }

  lemma CompleteJoins(a: seq<Message>, b: seq<Message>)
    requires Complete(a) && Complete(b)
    ensures Complete(a + b)
  {
    forall i: nat | i < |a + b|
      ensures CompleteAt(a + b, i)
    {
      if i < |a| {
        assert CompleteAt(a, i);
      } else {
        assert CompleteAt(b, i - |a|);
      }
    }
  }

  lemma SameShapeKeepsComplete(a: seq<Message>, b: seq<Message>)
    requires SameShape(a, b) && Complete(a)
    ensures Complete(b)
  {
    assert forall i | 0 <= i < |b| :: a[i].(content := b[i].content) == b[i];
    forall i: nat | i < |b|
      ensures CompleteAt(b, i)
    {
      assert CompleteAt(a, i);
    }
  }

  lemma GoingOnComposes(a: seq<Message>, b: seq<Message>, c: seq<Message>)
    requires GoesOnFrom(a, b) && GoesOnFrom(b, c)
    ensures GoesOnFrom(a, c)
  {
    forall i | 0 <= i < |b|
      ensures b[i].(content := c[i].content) == c[i]
    {
      assert b[i].(content := c[..|b|][i].content) == c[..|b|][i];
    }
    forall i | 0 <= i < |a|
      ensures a[i].(content := c[i].content) == c[i]
    {
      assert a[i].(content := b[..|a|][i].content) == b[..|a|][i];
    }
    SameShapeKeepsComplete(b[|a|..], c[|a|..|b|]);
    CompleteJoins(c[|a|..|b|], c[|b|..]);
    assert c[|a|..] == c[|a|..|b|] + c[|b|..];
  }

  lemma AddingGoesOn(messages: seq<Message>, added: seq<Message>)
    requires Complete(added)
    ensures GoesOnFrom(messages, messages + added)
  {
    assert (messages + added)[..|messages|] == messages && (messages + added)[|messages|..] == added;
  }

  lemma SameShapeGoesOn(before: seq<Message>, after: seq<Message>)
    requires SameShape(before, after)
    ensures GoesOnFrom(before, after)
  {
    assert after[..|before|] == after && after[|before|..] == [];
  }

  /** What goes on from a conversation leaves exactly the calls unanswered that the conversation left. */
  lemma GoingOnLeavesUnanswered(before: seq<Message>, after: seq<Message>, a: nat, id: string)
    requires GoesOnFrom(before, after)
    ensures IsUnanswered(after, a, id) <==> a < |before| && IsUnanswered(before, a, id)
  {
    var n := |before|;
    assert forall i | 0 <= i < n :: before[i].(content := after[..n][i].content) == after[i];
    assert forall i | 0 <= i < |after| - n :: after[n..][i] == after[n + i];
    if n <= a < |after| && Carries(after[a], id) {
      assert CompleteAt(after[n..], a - n);
      assert Answers(after, a, a + 1);
    }
    if a < n {
      if i: nat :| Answers(before, a, i) && before[i].role == Tool && before[i].toolCallId == Some(id) {
        assert Answers(after, a, i);
      }
      if i: nat :| Answers(after, a, i) && after[i].role == Tool && after[i].toolCallId == Some(id) {
        AnswerIsBefore(before, after, a, i);
        assert Answers(before, a, i);
      }
    }
  }

  lemma GoingOnLeavesAlike(before: seq<Message>, after: seq<Message>)
    requires GoesOnFrom(before, after)
    ensures LeavesUnanswered(after) <==> LeavesUnanswered(before)
  {
    if a: nat, id :| IsUnanswered(after, a, id) {
      GoingOnLeavesUnanswered(before, after, a, id);
    }
    if a: nat, id :| IsUnanswered(before, a, id) {
      GoingOnLeavesUnanswered(before, after, a, id);
    }
  }

  /** No message of an addition answers a call from before it. */
  lemma AnswerIsBefore(before: seq<Message>, after: seq<Message>, a: nat, i: nat)
    requires GoesOnFrom(before, after) && a < |before| && Answers(after, a, i) && after[i].role == Tool
    ensures i < |before|
  {
    var n := |before|;
    if |after| > n {
      assert CompleteAt(after[n..], 0) && after[n..][0] == after[n];
      assert after[n].role != Tool;
    }
  }
}
