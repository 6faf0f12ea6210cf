/**
 Fitting a request into the model's context window (`backend/src/ai/ai-context-budget.helper.ts`): a
 greedy compaction that keeps a running size.
 */
module ContextBudget {
  import opened Wrappers
  import opened ProviderMessages

  type Sizing = Message -> nat

  /**
   The estimates as functions: tokens of a nonempty text, the text of tool calls, what replaces a tool
   result, and what replaces an assistant text of so many tokens.
   */
  datatype Estimator = Estimator(
    tokensOf: string -> nat,
    callsText: seq<ToolCall> -> string,
    toolSummary: string -> string,
    assistantNote: nat -> string)
  {
    function Tokens(text: string): nat {
      if text == "" then 0 else tokensOf(text)
    }

    function MetadataSize(m: Message): nat {
      (if m.toolCallId.Some? then Tokens(m.toolCallId.value) else 0)
      + (if m.toolCalls != [] then Tokens(callsText(m.toolCalls)) else 0)
    }

    /** `estimateMessageSize`. */
    function MessageSize(m: Message): nat {
      Tokens(RoleName(m.role)) + Tokens(m.content) + 4 + Tokens(m.reasoning) + MetadataSize(m)
    }

    function Size(): Sizing {
      m => MessageSize(m)
    }

    /** `compactToolMessage` and `compactAssistantMessage`. */
    function Compact(pass: Pass): Message -> Message {
      match pass
      case ToolResults => (m: Message) => m.(content := toolSummary(m.content))
      case AssistantTexts => (m: Message) => m.(content := assistantNote(Tokens(m.content)))
    }
  }

  const REQUEST_PROTOCOL_OVERHEAD := 32

  function RoleName(role: Role): string {
    match role
    case User => "user"
    case Assistant => "assistant"
    case Tool => "tool"
  }

  ghost function Total(size: Sizing, messages: seq<Message>): nat {
    if messages == [] then 0
    else Total(size, messages[..|messages| - 1]) + size(messages[|messages| - 1])
  }

  ghost function RequestSize(e: Estimator, systemPrompt: string, messages: seq<Message>): nat {
    e.Tokens(systemPrompt) + REQUEST_PROTOCOL_OVERHEAD + Total(e.Size(), messages)
  }

  ghost function OfRole(messages: seq<Message>, role: Role): seq<Message> {
    if messages == [] then []
    else
      var rest := OfRole(messages[..|messages| - 1], role);
      if messages[|messages| - 1].role == role then rest + [messages[|messages| - 1]] else rest
  }

  lemma TotalStep(size: Sizing, messages: seq<Message>, k: nat)
    requires k < |messages|
    ensures Total(size, messages[..k + 1]) == Total(size, messages[..k]) + size(messages[k])
  {
    assert messages[..k + 1][..k] == messages[..k];
  }

  lemma RoleStep(size: Sizing, messages: seq<Message>, k: nat, role: Role)
    requires k < |messages|
    ensures Total(size, OfRole(messages[..k + 1], role))
         == Total(size, OfRole(messages[..k], role)) + if messages[k].role == role then size(messages[k]) else 0
  {
    assert messages[..k + 1][..k] == messages[..k];
    var rest := OfRole(messages[..k], role);
    assert (rest + [messages[k]])[..|rest|] == rest;
  }

  datatype Breakdown = Breakdown(total: nat, systemPrompt: nat, messages: nat, user: nat, assistant: nat, tool: nat,
                                 toolCallMetadata: nat)

  /** The loop over the messages: sizes in all and by role, and what tool calls account for. */
  method SumSizes(size: Sizing, metadata: Sizing, messages: seq<Message>)
    returns (total: nat, user: nat, assistant: nat, tool: nat, toolCallMetadata: nat)
    ensures total == Total(size, messages) == user + assistant + tool
    ensures user == Total(size, OfRole(messages, User))
    ensures assistant == Total(size, OfRole(messages, Assistant))
    ensures tool == Total(size, OfRole(messages, Tool))
    ensures toolCallMetadata == Total(metadata, messages)
  {
    total, user, assistant, tool, toolCallMetadata := 0, 0, 0, 0, 0;
    for k := 0 to |messages|
      invariant total == Total(size, messages[..k]) == user + assistant + tool
      invariant user == Total(size, OfRole(messages[..k], User))
      invariant assistant == Total(size, OfRole(messages[..k], Assistant))
      invariant tool == Total(size, OfRole(messages[..k], Tool))
      invariant toolCallMetadata == Total(metadata, messages[..k])
    {
      TotalStep(size, messages, k);
      TotalStep(metadata, messages, k);
      RoleStep(size, messages, k, User);
      RoleStep(size, messages, k, Assistant);
      RoleStep(size, messages, k, Tool);
      var s := size(messages[k]);
      total := total + s;
      match messages[k].role {
        case User => user := user + s;
        case Assistant => assistant := assistant + s;
        case Tool => tool := tool + s;
      }
      toolCallMetadata := toolCallMetadata + metadata(messages[k]);
    }
    assert messages[..|messages|] == messages;
  }

  /** The breakdown's parts: the message sizes by role add up to the messages, and with the fixed parts to the total. */
  method EstimateRequestBreakdown(e: Estimator, systemPrompt: string, messages: seq<Message>) returns (b: Breakdown)
    ensures b.total == RequestSize(e, systemPrompt, messages) && b.messages == Total(e.Size(), messages)
    ensures b.user + b.assistant + b.tool == b.messages
            && b.systemPrompt + REQUEST_PROTOCOL_OVERHEAD + b.messages == b.total
    ensures b.user == Total(e.Size(), OfRole(messages, User))
    ensures b.assistant == Total(e.Size(), OfRole(messages, Assistant))
    ensures b.tool == Total(e.Size(), OfRole(messages, Tool))
  {
    var total, user, assistant, tool, metadata := SumSizes(e.Size(), m => e.MetadataSize(m), messages);
    b := Breakdown(e.Tokens(systemPrompt) + REQUEST_PROTOCOL_OVERHEAD + total, e.Tokens(systemPrompt), total, user,
                   assistant, tool, metadata);
  }

  // ----- One pass -----

  /** The two passes: tool results first, then assistant texts without reasoning. */
  datatype Pass = ToolResults | AssistantTexts

  type Eligibility = (Message, int) -> bool

  function Eligible(pass: Pass, protectedStart: int): Eligibility {
    match pass
    case ToolResults => (m: Message, index: int) => index < protectedStart && m.role == Tool
    case AssistantTexts =>
      (m: Message, index: int) => index < protectedStart && m.role == Assistant && m.reasoning == ""
  }

  /** Replacing this message is allowed and makes it smaller. */
  predicate Shrinks(size: Sizing, eligible: Eligibility, compact: Message -> Message, m: Message, index: int) {
    eligible(m, index) && size(compact(m)) < size(m)
  }

  /** The messages with every replacement that shrinks made before index `k`, and none after. */
  ghost function Cut(size: Sizing, eligible: Eligibility, compact: Message -> Message, messages: seq<Message>, k: int)
    : seq<Message>
  {
    seq(|messages|, i requires 0 <= i < |messages| =>
      if i < k && Shrinks(size, eligible, compact, messages[i], i) then compact(messages[i]) else messages[i])
  }

  ghost function Replaced(size: Sizing, eligible: Eligibility, compact: Message -> Message, messages: seq<Message>,
                          k: int): set<int>
  {
    set i | 0 <= i < k && i < |messages| && Shrinks(size, eligible, compact, messages[i], i)
  }

  lemma CutNone(size: Sizing, eligible: Eligibility, compact: Message -> Message, messages: seq<Message>)
    ensures Cut(size, eligible, compact, messages, 0) == messages
            && Replaced(size, eligible, compact, messages, 0) == {}
  {
  }

  lemma CutStep(size: Sizing, eligible: Eligibility, compact: Message -> Message, messages: seq<Message>, k: nat)
    requires k < |messages|
    ensures Cut(size, eligible, compact, messages, k)[k] == messages[k]
    ensures Cut(size, eligible, compact, messages, k + 1)
         == if Shrinks(size, eligible, compact, messages[k], k)
            then Cut(size, eligible, compact, messages, k)[k := compact(messages[k])]
            else Cut(size, eligible, compact, messages, k)
    ensures |Replaced(size, eligible, compact, messages, k + 1)|
         == |Replaced(size, eligible, compact, messages, k)|
            + if Shrinks(size, eligible, compact, messages[k], k) then 1 else 0
  {
    var done := Replaced(size, eligible, compact, messages, k);
    assert Replaced(size, eligible, compact, messages, k + 1)
        == if Shrinks(size, eligible, compact, messages[k], k) then done + {k} else done;
  }

  lemma {:induction false} TotalOfUpdate(size: Sizing, messages: seq<Message>, i: nat, m: Message)
    requires i < |messages|
    ensures Total(size, messages[i := m]) == Total(size, messages) - size(messages[i]) + size(m)
  {
    var n := |messages| - 1;
    if i == n {
      assert messages[i := m][..n] == messages[..n];
    } else {
      assert messages[i := m][..n] == messages[..n][i := m];
      TotalOfUpdate(size, messages[..n], i, m);
    }
  }

  /** Stops at the first index where the messages fit. */
  ghost predicate FirstFit(size: Sizing, eligible: Eligibility, compact: Message -> Message, messages: seq<Message>,
                           allowance: int, stop: nat)
  {
    && stop <= |messages|
    && (forall j: nat | j < stop :: Total(size, Cut(size, eligible, compact, messages, j)) > allowance)
    && (stop < |messages| ==> Total(size, Cut(size, eligible, compact, messages, stop)) <= allowance)
  }

  /** One message of `compactPrefix`. */
  method CompactOne(size: Sizing, messages: seq<Message>, index: nat, isEligible: Eligibility, currentSize: int,
                    compactFn: Message -> Message)
    returns (next: seq<Message>, running: int, replaced: bool)
    requires index < |messages|
    ensures replaced <==> Shrinks(size, isEligible, compactFn, messages[index], index)
    ensures next == if replaced then messages[index := compactFn(messages[index])] else messages
    ensures running - currentSize == Total(size, next) - Total(size, messages)
  {
    next, running, replaced := messages, currentSize, false;
    var message := messages[index];
    if isEligible(message, index) {
      var before := size(message);
      var compacted := compactFn(message);
      var after := size(compacted);
      if after < before {
        TotalOfUpdate(size, messages, index, compacted);
        next := messages[index := compacted];
        running := currentSize - (before - after);
        replaced := true;
      }
    }
  }

  /** The pass one message further. */
  method CompactNext(size: Sizing, ghost messages: seq<Message>, current: seq<Message>, index: nat,
                     isEligible: Eligibility, currentSize: int, currentCount: nat, compactFn: Message -> Message)
    returns (next: seq<Message>, running: int, count: nat)
    requires index < |messages| && current == Cut(size, isEligible, compactFn, messages, index)
    requires currentCount == |Replaced(size, isEligible, compactFn, messages, index)|
    ensures next == Cut(size, isEligible, compactFn, messages, index + 1)
    ensures running - currentSize == Total(size, next) - Total(size, current)
    ensures count == |Replaced(size, isEligible, compactFn, messages, index + 1)|
  {
    CutStep(size, isEligible, compactFn, messages, index);
    var replaced: bool;
    next, running, replaced := CompactOne(size, current, index, isEligible, currentSize, compactFn);
    count := if replaced then currentCount + 1 else currentCount;
  }

  /**
   `compactPrefix`: replaces eligible messages oldest first, up to the first point within budget.  The
   running size is always the size of the messages it stands for: `slack` is what the size counts
   beside them.
   */
  method CompactPrefix(size: Sizing, messages: seq<Message>, isEligible: Eligibility, budget: int, currentSize: int,
                       compactFn: Message -> Message, ghost slack: int)
    returns (next: seq<Message>, running: int, count: nat, ghost stop: nat)
    requires currentSize == slack + Total(size, messages)
    ensures FirstFit(size, isEligible, compactFn, messages, budget - slack, stop)
    ensures next == Cut(size, isEligible, compactFn, messages, stop)
    ensures running == slack + Total(size, next)
    ensures count == |Replaced(size, isEligible, compactFn, messages, stop)|
  {
    next := messages;
    running := currentSize;
    count := 0;
    stop := 0;
    CutNone(size, isEligible, compactFn, messages);
    var index := 0;
    while index < |next|
      invariant 0 <= index <= |messages| && stop == index
      invariant next == Cut(size, isEligible, compactFn, messages, index)
      invariant running == slack + Total(size, next)
      invariant count == |Replaced(size, isEligible, compactFn, messages, index)|
      invariant forall j: nat | j < index :: Total(size, Cut(size, isEligible, compactFn, messages, j)) > budget - slack
    {
      if running <= budget {
        return;
      }
      next, running, count := CompactNext(size, messages, next, index, isEligible, running, count, compactFn);
      index := index + 1;
      stop := index;
    }
  }

  // ----- Both passes -----

  datatype BudgetResult = BudgetResult(
    messages: seq<Message>,
    estimatedRequestSize: nat,
    budget: Option<int>,
    compacted: bool,
    compactedToolResults: nat,
    compactedAssistantMessages: nat,
    overBudgetAfterCompaction: bool,
    breakdown: Breakdown)

  /** Index from which messages are protected: the last `keepRecent` ones. */
  function ProtectedStart(messages: seq<Message>, keepRecent: int): int {
    if |messages| - keepRecent < 0 then 0 else |messages| - keepRecent
  }

  ghost function PassCut(e: Estimator, pass: Pass, messages: seq<Message>, protectedStart: int, k: int): seq<Message> {
    Cut(e.Size(), Eligible(pass, protectedStart), e.Compact(pass), messages, k)
  }

  ghost function PassCount(e: Estimator, pass: Pass, messages: seq<Message>, protectedStart: int, k: int): nat {
    |Replaced(e.Size(), Eligible(pass, protectedStart), e.Compact(pass), messages, k)|
  }

  ghost predicate PassFits(e: Estimator, pass: Pass, messages: seq<Message>, protectedStart: int, allowance: int,
                           stop: nat)
  {
    FirstFit(e.Size(), Eligible(pass, protectedStart), e.Compact(pass), messages, allowance, stop)
  }

  /** The two greedy passes: tool results up to the first fit, then assistant texts up to the first fit. */
  ghost predicate GreedilyCompacted(e: Estimator, systemPrompt: string, messages: seq<Message>, protectedStart: int,
                                    budget: int, after: seq<Message>, tools: nat, texts: nat)
  {
    var allowance := budget - e.Tokens(systemPrompt) - REQUEST_PROTOCOL_OVERHEAD;
    var first := PassCut(e, ToolResults, messages, protectedStart, tools);
    && PassFits(e, ToolResults, messages, protectedStart, allowance, tools)
    && PassFits(e, AssistantTexts, first, protectedStart, allowance, texts)
    && after == PassCut(e, AssistantTexts, first, protectedStart, texts)
  }

  /**
   What a compaction may not touch: everything but the content, and the content of protected, user and
   reasoning messages.
   */
  ghost predicate OnlyOldContentChanges(messages: seq<Message>, after: seq<Message>, protectedStart: int) {
    && SameShape(messages, after)
    && forall i | 0 <= i < |messages| && Untouchable(messages[i], i, protectedStart) :: after[i] == messages[i]
  }

  predicate Untouchable(m: Message, index: int, protectedStart: int) {
    index >= protectedStart || m.role == User || (m.role == Assistant && m.reasoning != "")
  }

  lemma PassChangesOldContent(e: Estimator, pass: Pass, messages: seq<Message>, protectedStart: int, k: int)
    ensures OnlyOldContentChanges(messages, PassCut(e, pass, messages, protectedStart, k), protectedStart)
  {
  }

  lemma OldContentChangesCompose(a: seq<Message>, b: seq<Message>, c: seq<Message>, protectedStart: int)
    requires OnlyOldContentChanges(a, b, protectedStart) && OnlyOldContentChanges(b, c, protectedStart)
    ensures OnlyOldContentChanges(a, c, protectedStart)
  {
    forall i | 0 <= i < |a|
      ensures a[i].(content := c[i].content) == c[i]
      ensures Untouchable(a[i], i, protectedStart) ==> c[i] == a[i]
    {
      assert a[i].(content := b[i].content) == b[i] && b[i].(content := c[i].content) == c[i];
    }
  }

  /** The two passes of an over-budget request. */
  method CompactBoth(e: Estimator, systemPrompt: string, messages: seq<Message>, protectedStart: int, budget: int,
                     estimated: int)
    returns (after: seq<Message>, size: int, toolCount: nat, textCount: nat, ghost tools: nat, ghost texts: nat)
    requires estimated == RequestSize(e, systemPrompt, messages)
    ensures GreedilyCompacted(e, systemPrompt, messages, protectedStart, budget, after, tools, texts)
    ensures size == RequestSize(e, systemPrompt, after)
    ensures toolCount == PassCount(e, ToolResults, messages, protectedStart, tools)
    ensures textCount == PassCount(e, AssistantTexts, PassCut(e, ToolResults, messages, protectedStart, tools),
                                   protectedStart, texts)
    ensures OnlyOldContentChanges(messages, after, protectedStart)
  {
    ghost var slack := e.Tokens(systemPrompt) + REQUEST_PROTOCOL_OVERHEAD;
    var first, firstSize, toolCount', stop1 :=
      CompactPrefix(e.Size(), messages, Eligible(ToolResults, protectedStart), budget, estimated,
                    e.Compact(ToolResults), slack);
    var second, secondSize, textCount', stop2 :=
      CompactPrefix(e.Size(), first, Eligible(AssistantTexts, protectedStart), budget, firstSize,
                    e.Compact(AssistantTexts), slack);
    PassChangesOldContent(e, ToolResults, messages, protectedStart, stop1);
    PassChangesOldContent(e, AssistantTexts, first, protectedStart, stop2);
    OldContentChangesCompose(messages, first, second, protectedStart);
    after, size, toolCount, textCount, tools, texts := second, secondSize, toolCount', textCount', stop1, stop2;
  }

  /**
   `prepareAiProviderMessages`.  The sizes it reports are those of the messages it returns; it
   compacts greedily, only when over budget, and only old contents.  `tools` and `texts` are where the
   two passes stopped.
   */
  method PrepareAiProviderMessages(e: Estimator, systemPrompt: string, messages: seq<Message>,
                                   contextWindow: Option<int>, keepRecent: int)
    returns (r: BudgetResult, ghost tools: nat, ghost texts: nat)
    ensures r.budget == if contextWindow.Some? && contextWindow.value > 0 then Some(contextWindow.value * 4 / 5)
                        else None
    ensures r.estimatedRequestSize == RequestSize(e, systemPrompt, messages)
    ensures r.breakdown.total == RequestSize(e, systemPrompt, r.messages)
    ensures r.budget.None? || r.estimatedRequestSize <= r.budget.value ==> r.messages == messages && !r.compacted
    ensures r.overBudgetAfterCompaction <==> r.budget.Some? && RequestSize(e, systemPrompt, r.messages) > r.budget.value
    ensures r.compacted <==> r.compactedToolResults + r.compactedAssistantMessages > 0
    ensures r.budget.Some? && r.estimatedRequestSize > r.budget.value ==>
              var protectedStart := ProtectedStart(messages, keepRecent);
              && GreedilyCompacted(e, systemPrompt, messages, protectedStart, r.budget.value, r.messages, tools, texts)
              && r.compactedToolResults == PassCount(e, ToolResults, messages, protectedStart, tools)
              && r.compactedAssistantMessages
                 == PassCount(e, AssistantTexts, PassCut(e, ToolResults, messages, protectedStart, tools),
                              protectedStart, texts)
    ensures OnlyOldContentChanges(messages, r.messages, ProtectedStart(messages, keepRecent))
  {
    tools, texts := 0, 0;
    var initial := EstimateRequestBreakdown(e, systemPrompt, messages);
    var estimated := initial.total;
    if contextWindow.None? || contextWindow.value <= 0 {
      return BudgetResult(messages, estimated, None, false, 0, 0, false, initial), tools, texts;
    }
    var budget := contextWindow.value * 4 / 5;
    if estimated <= budget {
      return BudgetResult(messages, estimated, Some(budget), false, 0, 0, false, initial), tools, texts;
    }
    var protectedStart := ProtectedStart(messages, keepRecent);
    var after, size, toolCount, textCount, stop1, stop2 :=
      CompactBoth(e, systemPrompt, messages, protectedStart, budget, estimated);
    tools, texts := stop1, stop2;
    var breakdown := EstimateRequestBreakdown(e, systemPrompt, after);
    r := BudgetResult(after, estimated, Some(budget), toolCount > 0 || textCount > 0, toolCount, textCount,
                      size > budget, breakdown);
  }

  // ----- What the greedy compaction means -----

  /** Assistant texts are replaced only when replacing every tool result that shrinks was not enough. */
  lemma TextsOnlyAfterTools(e: Estimator, systemPrompt: string, messages: seq<Message>, protectedStart: int,
                            budget: int, after: seq<Message>, tools: nat, texts: nat)
    requires GreedilyCompacted(e, systemPrompt, messages, protectedStart, budget, after, tools, texts)
    ensures texts > 0 ==>
              && tools == |messages|
              && RequestSize(e, systemPrompt, PassCut(e, ToolResults, messages, protectedStart, |messages|)) > budget
  {
    var first := PassCut(e, ToolResults, messages, protectedStart, tools);
    CutNone(e.Size(), Eligible(AssistantTexts, protectedStart), e.Compact(AssistantTexts), first);
  }

  lemma {:induction false} PointwiseSmaller(size: Sizing, a: seq<Message>, b: seq<Message>)
    requires |a| == |b| && forall i | 0 <= i < |a| :: size(a[i]) <= size(b[i])
    ensures Total(size, a) <= Total(size, b)
  {
    if a != [] {
      PointwiseSmaller(size, a[..|a| - 1], b[..|b| - 1]);
    }
  }

  /** An old message the compaction may replace: a tool result, or an assistant text without reasoning. */
  ghost predicate MayReplace(messages: seq<Message>, keepRecent: int, i: int)
    requires 0 <= i < |messages|
  {
    i + keepRecent < |messages|
    && (messages[i].role == Tool || (messages[i].role == Assistant && messages[i].reasoning == ""))
  }

  /** What a replaced message becomes: its shape stays, its content is the summary or the note. */
  ghost function Replacement(e: Estimator, m: Message): Message {
    m.(content := if m.role == Tool then e.toolSummary(m.content) else e.assistantNote(e.Tokens(m.content)))
  }

  /** Any choice a compaction could make: some of the messages it may replace are replaced. */
  ghost predicate IsChoice(e: Estimator, messages: seq<Message>, keepRecent: int, other: seq<Message>) {
    |other| == |messages|
    && forall i | 0 <= i < |messages| ::
         other[i] == messages[i] || (MayReplace(messages, keepRecent, i) && other[i] == Replacement(e, messages[i]))
  }

  /** The compaction makes one of these choices, and replaces only what becomes smaller. */
  lemma CompactionIsChoice(e: Estimator, systemPrompt: string, messages: seq<Message>, keepRecent: int, budget: int,
                           after: seq<Message>, tools: nat, texts: nat)
    requires GreedilyCompacted(e, systemPrompt, messages, ProtectedStart(messages, keepRecent), budget, after, tools,
                               texts)
    ensures IsChoice(e, messages, keepRecent, after)
    ensures forall i | 0 <= i < |messages| && after[i] != messages[i] ::
              e.MessageSize(after[i]) < e.MessageSize(messages[i])
  {
  }

  /** Both passes run to the end leave each message at least as small as any choice would. */
  lemma FullPassesAreSmallest(e: Estimator, messages: seq<Message>, keepRecent: int, other: seq<Message>)
    requires IsChoice(e, messages, keepRecent, other)
    ensures var n, start := |messages|, ProtectedStart(messages, keepRecent);
            Total(e.Size(), PassCut(e, AssistantTexts, PassCut(e, ToolResults, messages, start, n), start, n))
            <= Total(e.Size(), other)
  {
    var n, start := |messages|, ProtectedStart(messages, keepRecent);
    var full := PassCut(e, AssistantTexts, PassCut(e, ToolResults, messages, start, n), start, n);
    PointwiseSmaller(e.Size(), full, other);
  }

  /**
   Optimality: a result still over budget means no choice whatever of old tool results and assistant texts
   without reasoning, each replaced by its summary or note, would be smaller.
   */
  lemma OverBudgetMeansNothingFits(e: Estimator, systemPrompt: string, messages: seq<Message>, keepRecent: int,
                                   budget: int, after: seq<Message>, tools: nat, texts: nat, other: seq<Message>)
    requires GreedilyCompacted(e, systemPrompt, messages, ProtectedStart(messages, keepRecent), budget, after, tools,
                               texts)
    requires RequestSize(e, systemPrompt, after) > budget && IsChoice(e, messages, keepRecent, other)
    ensures RequestSize(e, systemPrompt, other) >= RequestSize(e, systemPrompt, after)
  {
    TextsOnlyAfterTools(e, systemPrompt, messages, ProtectedStart(messages, keepRecent), budget, after, tools, texts);
    FullPassesAreSmallest(e, messages, keepRecent, other);
  }

  /** Every part of a message counts towards its size, and nothing is counted twice. */
  lemma EveryPartCounts(e: Estimator, m: Message)
    ensures e.MessageSize(m) == e.MessageSize(m.(content := "")) + e.Tokens(m.content)
    ensures e.MessageSize(m) == e.MessageSize(m.(reasoning := "")) + e.Tokens(m.reasoning)
    ensures e.MessageSize(m) == e.MessageSize(m.(toolCalls := [], toolCallId := None)) + e.MetadataSize(m)
    ensures m.toolCalls == [] ==> e.MetadataSize(m) == if m.toolCallId.None? then 0 else e.Tokens(m.toolCallId.value)
    ensures m.toolCalls != [] ==>
              e.MetadataSize(m) == e.MetadataSize(m.(toolCalls := [])) + e.Tokens(e.callsText(m.toolCalls))
    ensures e.MessageSize(Message(m.role, "", "", [], None))
         == 4 + e.Tokens(match m.role case User => "user" case Assistant => "assistant" case Tool => "tool")
  {
  }

  /** Compaction keeps the messages well paired. */
  lemma CompactionKeepsPairing(messages: seq<Message>, after: seq<Message>, protectedStart: int)
    requires WellPaired(messages) && OnlyOldContentChanges(messages, after, protectedStart)
    ensures WellPaired(after)
  {
    SameShapeKeepsPairing(messages, after);
  }
}
