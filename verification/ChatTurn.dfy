/**
 The loop of one chat turn (`streamPrepared` of `backend/src/ai/ai-chat-orchestrator.service.ts`).  The
 provider, the tools and the text detectors are arbitrary functions: what is proved holds for every
 behaviour of theirs.
 */
module ChatTurn {
  import opened Wrappers
  import opened StableJson
  import opened Trimming
  import opened ProviderMessages
  import opened ContextBudget
  import opened HistoryReplay
  import opened BulkCoverage
  import opened ToolCallSignature
  import SearchAllProgress

  const MAX_UNSAFE_WRITE_RESPONSE_RETRIES := 2
  const MAX_REPEATED_TOOL_CALL_REPAIR_RETRIES := 2
  const PLAN_TOOL := "prepare_mutation_plan"
  const WRITE_FALLBACK := "Je n'ai pas pu creer les previews backend necessaires. Aucune modification n'a ete executee."
  const BULK_FALLBACK_START :=
    "Je n'ai pas pu verifier la completude des previews de masse. "
    + "Aucune modification n'a ete executee. Cibles manquantes: "

  /** One provider response: text, reasoning and tool calls; or a failure; or the user's interruption. */
  datatype Answer = Answered(text: string, reasoning: string, calls: seq<ToolCall>) | Failed | Interrupted

  /** Tool arguments as parsed: not JSON, JSON that is no object, or an object. */
  datatype Arguments = Invalid | NotObject | Object(members: ObjectMembers)

  /** What is dispatched: the call itself, or the plan that stands for it. */
  datatype Dispatch = Direct(call: ToolCall) | Planned(call: ToolCall, plan: Plan)

  /** What a dispatch gives: the content of the tool message, what it adds to coverage, the items of a search. */
  datatype Execution = Execution(content: string, outcome: ToolOutcome, searchItemKeys: seq<string>)

  datatype Repair =
    | RepeatedToolCall | SearchNoProgress | BulkCompleteness
    | EmptyWrite | EmptyWriteAfterTool | UnstructuredPlan | UnsafeWrite

  datatype Provider = Provider(answer: (nat, seq<Message>) -> Answer)

  datatype Tools = Tools(
    execute: (nat, Dispatch) -> Execution,
    parse: string -> Arguments,
    rawPlan: ObjectMembers -> RawPlan,
    textualTarget: (seq<Message>, string, ToolCall) -> Option<TargetSet>,
    naming: Naming,
    nameText: string -> Text)

  datatype Wording = Wording(
    rawMarkup: string -> bool,
    asksForWrite: string -> bool,
    multiStep: string -> bool,
    addressesMissing: (string, seq<Ref>) -> bool,
    listRefs: seq<Ref> -> string,
    withoutImages: string -> string,
    skipped: (string, ToolCall) -> string,
    instruction: Repair -> string)
  {
    /** `isUnsafeWritePreviewAssistantText`. */
    predicate Unsafe(text: string) {
      Trim(text) != "" && (rawMarkup(Trim(text)) || asksForWrite(Trim(text)))
    }

    /** The unsafe-write detector flags the text: what is left of it without the space around it. */
    ghost predicate Flags(text: string) {
      exists t :: IsTrimmed(t, text) && t != "" && (rawMarkup(t) || asksForWrite(t))
    }

    lemma UnsafeMeansFlagged(text: string)
      ensures Unsafe(text) <==> Flags(text)
    {
      TrimIsExact(Trim(text), text);
      forall t | IsTrimmed(t, text)
        ensures t == Trim(text)
      {
        TrimIsExact(t, text);
      }
    }

    function BulkFallback(missing: seq<Ref>): string {
      BULK_FALLBACK_START + listRefs(missing) + "."
    }
  }

  datatype Settings = Settings(
    maxIterations: nat,
    searchThreshold: nat,
    guarded: bool,
    writeTools: set<string>,
    replayReasoning: bool,
    systemPrompt: string,
    estimator: Estimator,
    contextWindow: Option<int>,
    keepRecent: int)

  predicate IsRefBasedSingleMutationTool(s: Settings, name: string) {
    name in s.writeTools && name != PLAN_TOOL && name != "update_task_assignees" && name != "undo_preview"
  }

  /** The calls that may stand for a whole plan, and only when writes are guarded. */
  predicate MayPlan(s: Settings, arguments: Arguments) {
    s.guarded && PLAN_TOOL in s.writeTools && arguments.Object?
  }

  /** The turn's target sets, and the one the conversation's text names. */
  function PlanTargets(s: Settings, tools: Tools, messages: seq<Message>, targetSets: seq<TargetSet>, text: string,
                       call: ToolCall): seq<TargetSet>
  {
    if (call.name == PLAN_TOOL || IsRefBasedSingleMutationTool(s, call.name))
       && tools.textualTarget(messages, text, call).Some?
    then targetSets + [tools.textualTarget(messages, text, call).value]
    else targetSets
  }

  function PlanOf(s: Settings, tools: Tools, issue: Option<Issue>, call: ToolCall, arguments: Arguments): Option<Plan>
    requires arguments.Object?
  {
    if issue.None? then None
    else if call.name == PLAN_TOOL then BuildAugmentedPlan(tools.naming, issue.value, tools.rawPlan(arguments.members))
    else if IsRefBasedSingleMutationTool(s, call.name)
      then BuildBulkAutoplan(tools.naming, issue.value, tools.nameText(call.name), arguments.members)
    else None
  }

  /** `plan` is the plan the newest incomplete target set asks for in place of `call`. */
  ghost predicate IsPlanFor(plan: Option<Plan>, s: Settings, tools: Tools, messages: seq<Message>,
                            targetSets: seq<TargetSet>, coverage: Coverage, text: string, call: ToolCall,
                            arguments: Arguments)
  {
    if !MayPlan(s, arguments) then plan.None?
    else
      exists issue :: IsNewestIssue(issue, PlanTargets(s, tools, messages, targetSets, text, call), coverage, false)
                      && plan == PlanOf(s, tools, issue, call, arguments)
  }

  /**
   A plan that stands for a call leaves no missing reference out and adds none: it has exactly one
   operation for each, with the call's tool and input but for `ref`, or those of the model's own plan.
   */
  lemma PlanStandsForMissing(plan: Plan, s: Settings, tools: Tools, messages: seq<Message>, targetSets: seq<TargetSet>,
                             coverage: Coverage, text: string, call: ToolCall, arguments: Arguments, issue: Issue)
    requires IsPlanFor(Some(plan), s, tools, messages, targetSets, coverage, text, call, arguments)
    requires IsNewestIssue(Some(issue), PlanTargets(s, tools, messages, targetSets, text, call), coverage, false)
    ensures MayPlan(s, arguments)
    ensures if call.name == PLAN_TOOL then
              var operations := tools.rawPlan(arguments.members).operations;
              && operations != [] && operations[0].input.Some?
              && PlansFor(plan, issue.missingRefs, operations[0].toolName, operations[0].input.value)
            else
              PlansFor(plan, issue.missingRefs, tools.nameText(call.name), arguments.members)
  {
    var targets := PlanTargets(s, tools, messages, targetSets, text, call);
    var newest :| IsNewestIssue(newest, targets, coverage, false)
                  && Some(plan) == PlanOf(s, tools, newest, call, arguments);
    NewestIssueIsUnique(newest, Some(issue), targets, coverage, false);
    var k :| IsNewest(k, targets, coverage, false) && Reports(issue, targets[k], coverage);
    if call.name == PLAN_TOOL {
      AugmentedPlanIsExact(tools.naming, targets[k], coverage, issue, tools.rawPlan(arguments.members));
    } else {
      AutoplanIsExact(tools.naming, targets[k], coverage, issue, tools.nameText(call.name), arguments.members);
    }
  }

  /** The tools whose calls name one target by `ref`. */
  ghost predicate TakesOneRef(s: Settings, name: string) {
    name in s.writeTools && name !in {"prepare_mutation_plan", "update_task_assignees", "undo_preview"}
  }

  /** The target sets a plan may complete: the turn's, and last the one the conversation's text names. */
  ghost predicate ArePlanTargets(targets: seq<TargetSet>, s: Settings, tools: Tools, messages: seq<Message>,
                                 targetSets: seq<TargetSet>, text: string, call: ToolCall)
  {
    var textual := tools.textualTarget(messages, text, call);
    if (call.name == "prepare_mutation_plan" || TakesOneRef(s, call.name)) && textual.Some?
    then targets == targetSets + [textual.value] else targets == targetSets
  }

  /**
   A plan for the missing references may stand for the call: more are missing than its own plan has operations,
   and those are alike; or several are missing, and the call names one reference of the set.
   */
  ghost predicate IsReplaceable(target: TargetSet, missing: seq<Ref>, s: Settings, tools: Tools, call: ToolCall,
                                members: ObjectMembers)
  {
    if call.name == "prepare_mutation_plan" then
      var operations := tools.rawPlan(members).operations;
      0 < |operations| < |missing| && AlikeButRef(tools.naming, target, operations)
    else
      TakesOneRef(s, call.name) && |missing| > 1 && NamesOneOf(tools.naming, target, members)
  }

  lemma PlanOfIsExact(s: Settings, tools: Tools, issue: Issue, target: TargetSet, coverage: Coverage, call: ToolCall,
                      arguments: Arguments)
    requires arguments.Object? && Reports(issue, target, coverage)
    ensures PlanOf(s, tools, Some(issue), call, arguments).Some? <==>
              IsReplaceable(target, issue.missingRefs, s, tools, call, arguments.members)
  {
    if call.name == PLAN_TOOL {
      AugmentedPlanIsExact(tools.naming, target, coverage, issue, tools.rawPlan(arguments.members));
    } else {
      AutoplanIsExact(tools.naming, target, coverage, issue, tools.nameText(call.name), arguments.members);
    }
  }

  lemma NewestIsKnown(targets: seq<TargetSet>, coverage: Coverage, k: int, missing: seq<Ref>)
    requires IsNewest(k, targets, coverage, false) && AreMissing(missing, targets[k], coverage)
    ensures forall l, other | IsNewest(l, targets, coverage, false) && AreMissing(other, targets[l], coverage) ::
              l == k && other == missing
  {
    forall l, other | IsNewest(l, targets, coverage, false) && AreMissing(other, targets[l], coverage)
      ensures l == k && other == missing
    {
      assert l == k;
      MissingIsUnique(other, missing, targets[k], coverage);
    }
  }

  /**
   When a plan stands for a call: exactly with guarded writes and the plan tool among them, when a target set is
   incomplete and a plan for what the newest one leaves missing may stand for the call.
   */
  lemma PlanIsBuiltExactly(plan: Option<Plan>, s: Settings, tools: Tools, messages: seq<Message>,
                           targetSets: seq<TargetSet>, coverage: Coverage, text: string, call: ToolCall,
                           arguments: Arguments, targets: seq<TargetSet>)
    requires IsPlanFor(plan, s, tools, messages, targetSets, coverage, text, call, arguments)
    requires ArePlanTargets(targets, s, tools, messages, targetSets, text, call)
    ensures plan.Some? <==>
              && s.guarded && "prepare_mutation_plan" in s.writeTools && arguments.Object?
              && exists k, missing :: IsNewest(k, targets, coverage, false) && AreMissing(missing, targets[k], coverage)
                                      && IsReplaceable(targets[k], missing, s, tools, call, arguments.members)
  {
    if MayPlan(s, arguments) {
      assert targets == PlanTargets(s, tools, messages, targetSets, text, call);
      var issue :| IsNewestIssue(issue, targets, coverage, false) && plan == PlanOf(s, tools, issue, call, arguments);
      if issue.Some? {
        var k :| IsNewest(k, targets, coverage, false) && Reports(issue.value, targets[k], coverage);
        PlanOfIsExact(s, tools, issue.value, targets[k], coverage, call, arguments);
        NewestIsKnown(targets, coverage, k, issue.value.missingRefs);
      }
    }
  }

  /** What the tool calls of a turn have built so far. */
  datatype Progress = Progress(messages: seq<Message>, toolCallCount: nat, previewCount: nat, usedPlan: bool,
                               coverage: Coverage, targetSets: seq<TargetSet>, search: SearchAllProgress.Progress)

  /** The same while the calls of one response are run, with what the first search without progress asked for. */
  datatype Calling = Calling(progress: Progress, noted: Option<SearchAllProgress.Action>)

  /** What decides the repairs of a final response. */
  datatype Counts = Counts(previews: nat, toolCalls: nat, usedPlan: bool, bulk: nat, empty: nat, emptyAfterTool: nat,
                           plan: nat, unsafe: nat)

  datatype ErrorReason = ProviderFailed | NoProgress | TooManyIterations

  datatype End = Aborted | ErrorEnd(reason: ErrorReason) | Done(text: string)

  datatype Flow = Again | Stop(end: End)

  /** What a final response leads to, the repairs counted so far, and the messages added for the next round. */
  datatype Decision = Decision(flow: Flow, counts: Counts, added: seq<Message>)

  /** A turn between two requests. */
  datatype State = State(progress: Progress, counts: Counts, previousSignature: Option<string>, repeated: nat)
  {
    function WithProgress(p: Progress): State {
      this.(progress := p,
            counts := counts.(previews := p.previewCount, toolCalls := p.toolCallCount, usedPlan := p.usedPlan))
    }

    function WithMessages(messages: seq<Message>): State {
      this.(progress := progress.(messages := messages))
    }
  }

  /** One request: the turn before it, what was sent, the turn after its answer, and whether it goes on. */
  datatype Round = Round(before: State, sent: seq<Message>, after: State, flow: Flow)

  class Turn {
    const settings: Settings
    const provider: Provider
    const tools: Tools
    const wording: Wording
    const search: SearchAllProgress.State

    var messages: seq<Message>
    var previousSignature: Option<string>
    var unsafeRetries: nat
    var planRetries: nat
    var emptyRetries: nat
    var emptyAfterToolRetries: nat
    var bulkRetries: nat
    var repeatedRetries: nat
    var previewCount: nat
    var toolCallCount: nat
    var usedPlanTool: bool
    var targetSets: seq<TargetSet>
    var coverage: Coverage
    /** Every request sent to the provider, oldest first. */
    ghost var requests: seq<seq<Message>>

    ghost predicate Valid()
      reads this
    {
      && WellPaired(messages)
      && unsafeRetries <= MAX_UNSAFE_WRITE_RESPONSE_RETRIES && emptyRetries <= MAX_UNSAFE_WRITE_RESPONSE_RETRIES
      && emptyAfterToolRetries <= MAX_UNSAFE_WRITE_RESPONSE_RETRIES && bulkRetries <= MAX_UNSAFE_WRITE_RESPONSE_RETRIES
      && repeatedRetries <= MAX_REPEATED_TOOL_CALL_REPAIR_RETRIES && planRetries <= 1
    }

    constructor (settings: Settings, provider: Provider, tools: Tools, wording: Wording, providerMessages: seq<Message>)
      requires WellPaired(providerMessages)
      ensures Valid() && messages == providerMessages && requests == []
      ensures this.settings == settings && this.provider == provider && this.tools == tools && this.wording == wording
      ensures fresh(search) && Here() == Start(providerMessages)
    {
      this.settings, this.provider, this.tools, this.wording := settings, provider, tools, wording;
      search := new SearchAllProgress.State();
      messages := providerMessages;
      previousSignature := None;
      unsafeRetries, planRetries, emptyRetries, emptyAfterToolRetries, bulkRetries, repeatedRetries := 0, 0, 0, 0, 0, 0;
      previewCount, toolCallCount := 0, 0;
      usedPlanTool := false;
      targetSets := [];
      coverage := Coverage({}, map[], {}, {});
      requests := [];
    }

    /** The turn as it is now. */
    ghost function Here(): State
      reads this, search
    {
      State(Now(), Count(), previousSignature, repeatedRetries)
    }

    method Push(m: Message)
      requires Valid() && m.role != Tool
      modifies this`messages
      ensures Valid() && messages == old(messages) + [m]
    {
      PushKeepsPairing(messages, m);
      messages := messages + [m];
    }

    /** Asks the model again, with an instruction; its previous text, when given, goes before it. */
    method AskAgain(repair: Repair, said: Option<string>)
      requires Valid()
      modifies this`messages, this`previousSignature
      ensures Valid() && previousSignature == None
      ensures messages == old(messages)
                          + (if said.Some? then [AssistantMessage(wording.withoutImages(said.value))] else [])
                          + [UserMessage(wording.instruction(repair))]
    {
      if said.Some? {
        Push(AssistantMessage(wording.withoutImages(said.value)));
      }
      Push(UserMessage(wording.instruction(repair)));
      previousSignature := None;
    }

    /** Compacts the messages when they are over budget, then sends them. */
    method CallProvider(iteration: nat) returns (answer: Answer, ghost tools: nat, ghost texts: nat)
      requires Valid()
      modifies this`messages, this`requests
      ensures Valid() && requests == old(requests) + [messages] && answer == provider.answer(iteration, messages)
      ensures OnlyOldContentChanges(old(messages), messages, ProtectedStart(old(messages), settings.keepRecent))
      ensures if OverBudget(old(messages)) then
                GreedilyCompacted(settings.estimator, settings.systemPrompt, old(messages),
                                  ProtectedStart(old(messages), settings.keepRecent),
                                  settings.contextWindow.value * 4 / 5, messages, tools, texts)
              else
                messages == old(messages)
    {
      var budgeted, toolStop, textStop :=
        PrepareAiProviderMessages(settings.estimator, settings.systemPrompt, messages, settings.contextWindow,
                                  settings.keepRecent);
      CompactionKeepsPairing(messages, budgeted.messages, ProtectedStart(messages, settings.keepRecent));
      messages := budgeted.messages;
      requests := requests + [messages];
      answer := provider.answer(iteration, messages);
      tools, texts := toolStop, textStop;
    }

    ghost predicate OverBudget(sent: seq<Message>) {
      settings.contextWindow.Some? && settings.contextWindow.value > 0
      && RequestSize(settings.estimator, settings.systemPrompt, sent) > settings.contextWindow.value * 4 / 5
    }

    // ----- Tool calls -----

    /** The plan that stands for a call when target references are still missing. */
    method PlanFor(call: ToolCall, arguments: Arguments, text: string) returns (plan: Option<Plan>)
      requires Valid()
      ensures IsPlanFor(plan, settings, tools, messages, targetSets, coverage, text, call, arguments)
    {
      plan := None;
      if settings.guarded && PLAN_TOOL in settings.writeTools && arguments.Object? {
        var textual := None;
        if call.name == PLAN_TOOL || IsRefBasedSingleMutationTool(settings, call.name) {
          textual := tools.textualTarget(messages, text, call);
        }
        var targets := if textual.Some? then targetSets + [textual.value] else targetSets;
        var issue := FindBulkCoverageIssue(targets, coverage, false);
        if issue.Some? && call.name == PLAN_TOOL {
          plan := BuildAugmentedPlan(tools.naming, issue.value, tools.rawPlan(arguments.members));
        } else if issue.Some? && IsRefBasedSingleMutationTool(settings, call.name) {
          plan := BuildBulkAutoplan(tools.naming, issue.value, tools.nameText(call.name), arguments.members);
        }
        assert plan == PlanOf(settings, tools, issue, call, arguments);
      }
    }

    /** Previews and references of a tool result join the turn's coverage. */
    method Absorb(outcome: ToolOutcome)
      requires Valid()
      modifies this`coverage, this`targetSets, this`previewCount
      ensures Valid() && Now() == TakenIn(old(Now()), outcome)
    {
      previewCount := previewCount + |outcome.previews|;
      targetSets := targetSets + outcome.targetSets;
      coverage := coverage.(failed := coverage.failed + (set ref | ref in outcome.failedRefs));
      coverage := coverage.(excluded := coverage.excluded + (set ref | ref in outcome.excludedRefs));
      ghost var told := coverage;
      for k := 0 to |outcome.previews|
        invariant coverage == WithPreviews(told, outcome.previews[..k])
        invariant targetSets == old(targetSets) + outcome.targetSets
                  && previewCount == old(previewCount) + |outcome.previews|
        invariant Valid()
      {
        assert outcome.previews[..k + 1][..k] == outcome.previews[..k];
        coverage := WithPreview(coverage, outcome.previews[k]);
      }
      assert outcome.previews[..|outcome.previews|] == outcome.previews;
    }

    ghost function Now(): Progress
      reads this, search
    {
      Progress(messages, toolCallCount, previewCount, usedPlanTool, coverage, targetSets, search.View())
    }

    /** A turn that has taken in a tool result. */
    ghost function TakenIn(p: Progress, outcome: ToolOutcome): Progress {
      p.(previewCount := p.previewCount + |outcome.previews|, coverage := Absorbed(p.coverage, outcome),
         targetSets := p.targetSets + outcome.targetSets)
    }

    /** What running a dispatch for a call adds to a turn whose last message carries the call. */
    ghost function Answered(p: Progress, call: ToolCall, dispatch: Dispatch): Progress {
      var execution := tools.execute(p.toolCallCount + 1, dispatch);
      TakenIn(Dispatched(p, call, dispatch), execution.outcome)
        .(messages := p.messages + [ToolMessage(execution.content, call.id)])
    }

    ghost function Dispatched(p: Progress, call: ToolCall, dispatch: Dispatch): Progress {
      p.(toolCallCount := p.toolCallCount + 1,
         usedPlan := p.usedPlan || call.name == PLAN_TOOL || dispatch.Planned?)
    }

    /** Runs what is dispatched for the call the last message carries, and puts its result right after. */
    method DispatchCall(call: ToolCall, dispatch: Dispatch, ghost before: seq<Message>, ghost carrier: Message)
      returns (execution: Execution)
      requires Valid() && messages == before + [carrier] && WellPaired(before)
      requires carrier.role == Assistant && carrier.toolCalls == [call]
      modifies this`messages, this`coverage, this`targetSets, this`previewCount, this`toolCallCount, this`usedPlanTool
      ensures Valid() && execution == tools.execute(old(toolCallCount) + 1, dispatch)
      ensures Now() == Answered(old(Now()), call, dispatch)
    {
      execution := TakeResult(call, dispatch);
      PushResult(call, execution.content, before, carrier);
    }

    /** Runs a dispatch and takes its result in. */
    method TakeResult(call: ToolCall, dispatch: Dispatch) returns (execution: Execution)
      requires Valid()
      modifies this`coverage, this`targetSets, this`previewCount, this`toolCallCount, this`usedPlanTool
      ensures Valid() && execution == tools.execute(old(toolCallCount) + 1, dispatch)
      ensures Now() == TakenIn(Dispatched(old(Now()), call, dispatch), execution.outcome)
    {
      toolCallCount := toolCallCount + 1;
      execution := tools.execute(toolCallCount, dispatch);
      Absorb(execution.outcome);
      if call.name == PLAN_TOOL || dispatch.Planned? {
        usedPlanTool := true;
      }
    }

    method PushResult(call: ToolCall, content: string, ghost before: seq<Message>, ghost carrier: Message)
      requires Valid() && messages == before + [carrier] && WellPaired(before)
      requires carrier.role == Assistant && carrier.toolCalls == [call]
      modifies this`messages
      ensures Valid() && messages == old(messages) + [ToolMessage(content, call.id)]
    {
      assert carrier.toolCalls[0].id == call.id;
      CallAndAnswerKeepPairing(before, carrier, call.id, content);
      assert before + [carrier] + [ToolMessage(content, call.id)] == before + [carrier, ToolMessage(content, call.id)];
      messages := messages + [ToolMessage(content, call.id)];
    }

    /** A call without arguments has the empty object. */
    function Parsed(call: ToolCall): Arguments {
      tools.parse(if call.arguments == "" then "{}" else call.arguments)
    }

    /** The assistant message that carries a call. */
    function Carrier(call: ToolCall, content: string, reasoning: string): Message {
      Message(Assistant, content, if settings.replayReasoning && Trim(reasoning) != "" then reasoning else "",
              [call], None)
    }

    /** A call without a name or with invalid arguments is not run. */
    predicate Runs(call: ToolCall) {
      Trim(call.name) != "" && !Parsed(call).Invalid?
    }

    /** What is dispatched for a call: the plan that stands for it, or the call. */
    ghost predicate IsDispatchFor(dispatch: Dispatch, before: seq<Message>, targets: seq<TargetSet>, covered: Coverage,
                                  text: string, call: ToolCall)
    {
      exists plan :: IsPlanFor(plan, settings, tools, before, targets, covered, text, call, Parsed(call))
                     && dispatch == if plan.Some? then Planned(call, plan.value) else Direct(call)
    }

    /**
     One tool call: an assistant message that carries it, the dispatch, and its result right after; a
     call without a name or with invalid arguments becomes plain text instead.
     */
    method ExecuteCall(call: ToolCall, content: string, turnText: string, reasoning: string,
                       noted: Option<SearchAllProgress.Action>)
      returns (noted': Option<SearchAllProgress.Action>, ghost dispatch: Dispatch)
      requires Valid()
      modifies this`messages, this`coverage, this`targetSets, this`previewCount, this`toolCallCount, this`usedPlanTool,
               search
      ensures Valid()
      ensures MayDispatch(old(Now()), call, dispatch, content, turnText, reasoning)
      ensures Calling(Now(), noted') == AfterCall(Calling(old(Now()), noted), call, dispatch, content, reasoning)
    {
      dispatch := Direct(call);
      if Trim(call.name) == "" || Parsed(call).Invalid? {
        Push(AssistantMessage(wording.skipped(content, call)));
        return noted, dispatch;
      }
      var keys;
      keys, dispatch := RunCall(call, content, turnText, reasoning);
      noted' := NoteSearch(call, keys, noted);
    }

    /** Records a search, until one of the response's searches has found no progress. */
    method NoteSearch(call: ToolCall, searchItemKeys: seq<string>, noted: Option<SearchAllProgress.Action>)
      returns (noted': Option<SearchAllProgress.Action>)
      requires Valid()
      modifies search
      ensures Valid() && Calling(Now(), noted') == Noted(Calling(old(Now()), noted), call, searchItemKeys)
    {
      noted' := noted;
      if noted.None? {
        noted' := search.Record(settings.searchThreshold, call.name, searchItemKeys);
      }
    }

    ghost function Noted(c: Calling, call: ToolCall, searchItemKeys: seq<string>): Calling {
      if c.noted.Some? || call.name != "search_all" then c
      else
        var search := c.progress.search;
        Calling(c.progress.(search := SearchAllProgress.Recorded(search, settings.searchThreshold, searchItemKeys)),
                SearchAllProgress.ActionOf(search, settings.searchThreshold, searchItemKeys))
    }

    /** Carries the call, dispatches what stands for it, and answers it. */
    method RunCall(call: ToolCall, content: string, turnText: string, reasoning: string)
      returns (searchItemKeys: seq<string>, ghost dispatch: Dispatch)
      requires Valid() && Runs(call)
      modifies this`messages, this`coverage, this`targetSets, this`previewCount, this`toolCallCount, this`usedPlanTool
      ensures Valid() && MayDispatch(old(Now()), call, dispatch, content, turnText, reasoning)
      ensures Now() == Answered(Carried(old(Now()), call, content, reasoning), call, dispatch)
      ensures searchItemKeys == tools.execute(old(toolCallCount) + 1, dispatch).searchItemKeys
    {
      ghost var before := messages;
      var request := CarryCall(call, content, turnText, reasoning);
      dispatch := request;
      var execution := DispatchCall(call, request, before, Carrier(call, content, reasoning));
      searchItemKeys := execution.searchItemKeys;
    }

    /** Puts the message that carries the call, and decides what is dispatched for it. */
    method CarryCall(call: ToolCall, content: string, turnText: string, reasoning: string) returns (request: Dispatch)
      requires Valid() && Runs(call)
      modifies this`messages
      ensures Valid() && messages == old(messages) + [Carrier(call, content, reasoning)]
      ensures Now() == Carried(old(Now()), call, content, reasoning)
      ensures MayDispatch(old(Now()), call, request, content, turnText, reasoning)
    {
      ghost var before := Now();
      Push(Carrier(call, content, reasoning));
      var plan := PlanFor(call, Parsed(call), turnText);
      request := if plan.Some? then Planned(call, plan.value) else Direct(call);
      assert messages == Carried(before, call, content, reasoning).messages;
    }

    ghost function Carried(p: Progress, call: ToolCall, content: string, reasoning: string): Progress {
      p.(messages := p.messages + [Carrier(call, content, reasoning)])
    }

    /** What may be dispatched for a call, when it is run at all. */
    ghost predicate MayDispatch(p: Progress, call: ToolCall, dispatch: Dispatch, content: string, turnText: string,
                                reasoning: string)
    {
      Runs(call) ==>
        IsDispatchFor(dispatch, Carried(p, call, content, reasoning).messages, p.targetSets, p.coverage, turnText, call)
    }

    /**
     The turn after one call: its message and its result, or plain text for a call that is not run; a search is
     recorded until one of the response's searches has found no progress.
     */
    ghost function AfterCall(c: Calling, call: ToolCall, dispatch: Dispatch, content: string, reasoning: string)
      : Calling
    {
      var p := c.progress;
      if !Runs(call) then
        c.(progress := p.(messages := p.messages + [AssistantMessage(wording.skipped(content, call))]))
      else
        Noted(c.(progress := Answered(Carried(p, call, content, reasoning), call, dispatch)), call,
              tools.execute(p.toolCallCount + 1, dispatch).searchItemKeys)
    }

    /** The turn after the calls of one response, in order; the text goes with the first. */
    ghost function AfterCalls(p: Progress, calls: seq<ToolCall>, dispatches: seq<Dispatch>, text: string,
                              reasoning: string): Calling
      requires |dispatches| == |calls|
    {
      if calls == [] then Calling(p, None)
      else
        var n := |calls| - 1;
        AfterCall(AfterCalls(p, calls[..n], dispatches[..n], text, reasoning), calls[n], dispatches[n],
                  if n == 0 then text else "", reasoning)
    }

    /** What was dispatched for call `k` of a response was allowed as the turn was when its turn came. */
    ghost predicate IsDispatchedAt(p: Progress, calls: seq<ToolCall>, dispatches: seq<Dispatch>, k: nat, text: string,
                                   reasoning: string)
      requires k < |calls| && k < |dispatches|
    {
      MayDispatch(AfterCalls(p, calls[..k], dispatches[..k], text, reasoning).progress, calls[k], dispatches[k],
                  if k == 0 then text else "", text, reasoning)
    }

    ghost predicate AreDispatches(p: Progress, calls: seq<ToolCall>, dispatches: seq<Dispatch>, text: string,
                                  reasoning: string)
    {
      |dispatches| == |calls| && forall k | 0 <= k < |calls| :: IsDispatchedAt(p, calls, dispatches, k, text, reasoning)
    }

    lemma OneMoreCall(p: Progress, calls: seq<ToolCall>, k: nat, done: seq<Dispatch>, dispatch: Dispatch, text: string,
                      reasoning: string)
      requires k < |calls| && |done| == k
      ensures AfterCalls(p, calls[..k + 1], done + [dispatch], text, reasoning)
           == AfterCall(AfterCalls(p, calls[..k], done, text, reasoning), calls[k], dispatch,
                        if k == 0 then text else "", reasoning)
    {
      assert calls[..k + 1][..k] == calls[..k] && (done + [dispatch])[..k] == done;
    }

    lemma OneMoreDispatch(p: Progress, calls: seq<ToolCall>, k: nat, done: seq<Dispatch>, dispatch: Dispatch,
                          text: string, reasoning: string)
      requires k < |calls| && AreDispatches(p, calls[..k], done, text, reasoning)
      requires MayDispatch(AfterCalls(p, calls[..k], done, text, reasoning).progress, calls[k], dispatch,
                           if k == 0 then text else "", text, reasoning)
      ensures AreDispatches(p, calls[..k + 1], done + [dispatch], text, reasoning)
    {
      var next, dispatches := calls[..k + 1], done + [dispatch];
      forall l | 0 <= l < |next|
        ensures IsDispatchedAt(p, next, dispatches, l, text, reasoning)
      {
        if l < k {
          DispatchedAlike(p, calls[..k], done, next, dispatches, l, text, reasoning);
        } else {
          assert next[..l] == calls[..k] && dispatches[..l] == done;
        }
      }
    }

    lemma DispatchedAlike(p: Progress, calls: seq<ToolCall>, dispatches: seq<Dispatch>, more: seq<ToolCall>,
                          moreDispatches: seq<Dispatch>, k: nat, text: string, reasoning: string)
      requires k < |calls| && k < |dispatches| && calls <= more && dispatches <= moreDispatches
      requires IsDispatchedAt(p, calls, dispatches, k, text, reasoning)
      ensures IsDispatchedAt(p, more, moreDispatches, k, text, reasoning)
    {
      assert more[..k] == calls[..k] && moreDispatches[..k] == dispatches[..k];
    }

    lemma CallAddsAnswered(c: Calling, call: ToolCall, dispatch: Dispatch, content: string, reasoning: string)
      ensures GoesOnFrom(c.progress.messages, AfterCall(c, call, dispatch, content, reasoning).progress.messages)
      ensures |AfterCall(c, call, dispatch, content, reasoning).progress.messages| > |c.progress.messages|
    {
      var execution := tools.execute(c.progress.toolCallCount + 1, dispatch);
      var added := if Runs(call) then [Carrier(call, content, reasoning), ToolMessage(execution.content, call.id)]
                   else [AssistantMessage(wording.skipped(content, call))];
      assert AfterCall(c, call, dispatch, content, reasoning).progress.messages == c.progress.messages + added;
      CallIsComplete(call, content, reasoning, execution.content);
      AddingGoesOn(c.progress.messages, added);
    }

    lemma CallIsComplete(call: ToolCall, content: string, reasoning: string, result: string)
      ensures Complete([Carrier(call, content, reasoning), ToolMessage(result, call.id)])
      ensures Complete([AssistantMessage(wording.skipped(content, call))])
    {
    }

    lemma LastCall(p: Progress, calls: seq<ToolCall>, dispatches: seq<Dispatch>, text: string, reasoning: string,
                   before: Calling)
      requires |dispatches| == |calls| > 0
      requires before == AfterCalls(p, calls[..|calls| - 1], dispatches[..|calls| - 1], text, reasoning)
      ensures var after := AfterCalls(p, calls, dispatches, text, reasoning).progress.messages;
              GoesOnFrom(before.progress.messages, after) && |after| > |before.progress.messages|
    {
      var n := |calls| - 1;
      CallAddsAnswered(before, calls[n], dispatches[n], if n == 0 then text else "", reasoning);
    }

    /**
     What one call adds: with a name and arguments that parse, exactly its carrier and the result of what was
     dispatched for it, right after each other, and the result's previews, targets and coverage; otherwise plain
     text and nothing else.  Only a search is recorded, and none once one has found no progress.
     */
    lemma CallAddsExactly(c: Calling, call: ToolCall, dispatch: Dispatch, content: string, reasoning: string)
      ensures var p, next := c.progress, AfterCall(c, call, dispatch, content, reasoning);
              var after := next.progress;
              var execution := tools.execute(p.toolCallCount + 1, dispatch);
              if IsBlank(call.name) || tools.parse(if call.arguments == "" then "{}" else call.arguments).Invalid? then
                && next.noted == c.noted
                && after == p.(messages := p.messages
                                           + [Message(Assistant, wording.skipped(content, call), "", [], None)])
              else
                && after.messages
                   == p.messages
                      + [Message(Assistant, content,
                                 if settings.replayReasoning && !IsBlank(reasoning) then reasoning else "", [call],
                                 None),
                         Message(Tool, execution.content, "", [], Some(call.id))]
                && after.toolCallCount == p.toolCallCount + 1
                && after.previewCount == p.previewCount + |execution.outcome.previews|
                && after.targetSets == p.targetSets + execution.outcome.targetSets
                && after.coverage == Absorbed(p.coverage, execution.outcome)
                && (after.usedPlan <==> p.usedPlan || call.name == "prepare_mutation_plan" || dispatch.Planned?)
                && if call.name == "search_all" && c.noted.None? then
                     && after.search
                        == SearchAllProgress.Recorded(p.search, settings.searchThreshold, execution.searchItemKeys)
                     && next.noted
                        == SearchAllProgress.ActionOf(p.search, settings.searchThreshold, execution.searchItemKeys)
                   else
                     after.search == p.search && next.noted == c.noted
    {
      TrimIsExact("", call.name);
      TrimIsExact("", reasoning);
    }

    /** Running calls only adds messages: each call with its result, or plain text. */
    lemma {:induction false} CallsOnlyAdd(p: Progress, calls: seq<ToolCall>, dispatches: seq<Dispatch>, text: string,
                                          reasoning: string)
      requires |dispatches| == |calls|
      ensures var after := AfterCalls(p, calls, dispatches, text, reasoning).progress.messages;
              GoesOnFrom(p.messages, after) && |after| >= |p.messages| + |calls|
    {
      if calls == [] {
        SameShapeGoesOn(p.messages, p.messages);
      } else {
        var n := |calls| - 1;
        var before := AfterCalls(p, calls[..n], dispatches[..n], text, reasoning);
        CallsOnlyAdd(p, calls[..n], dispatches[..n], text, reasoning);
        LastCall(p, calls, dispatches, text, reasoning, before);
        GoingOnComposes(p.messages, before.progress.messages,
                        AfterCalls(p, calls, dispatches, text, reasoning).progress.messages);
      }
    }

    /** The text shown with a response's calls. */
    function TurnText(text: string): string {
      if settings.guarded && wording.rawMarkup(text) then "" else text
    }

    /** The tool calls of one response, one after the other. */
    method ExecuteCalls(calls: seq<ToolCall>, turnText: string, reasoning: string)
      returns (noted: Option<SearchAllProgress.Action>, ghost dispatches: seq<Dispatch>)
      requires Valid()
      modifies this`messages, this`coverage, this`targetSets, this`previewCount, this`toolCallCount, this`usedPlanTool,
               search
      ensures Valid() && AreDispatches(old(Now()), calls, dispatches, turnText, reasoning)
      ensures Calling(Now(), noted) == AfterCalls(old(Now()), calls, dispatches, turnText, reasoning)
    {
      noted, dispatches := None, [];
      for k := 0 to |calls|
        invariant Valid() && AreDispatches(old(Now()), calls[..k], dispatches, turnText, reasoning)
        invariant Calling(Now(), noted) == AfterCalls(old(Now()), calls[..k], dispatches, turnText, reasoning)
      {
        noted, dispatches := ExecuteNext(calls, k, turnText, reasoning, noted, dispatches, old(Now()));
      }
      assert calls[..|calls|] == calls;
    }

    method ExecuteNext(calls: seq<ToolCall>, k: nat, turnText: string, reasoning: string,
                       noted: Option<SearchAllProgress.Action>, ghost done: seq<Dispatch>, ghost start: Progress)
      returns (noted': Option<SearchAllProgress.Action>, ghost dispatches: seq<Dispatch>)
      requires Valid() && k < |calls| && AreDispatches(start, calls[..k], done, turnText, reasoning)
      requires Calling(Now(), noted) == AfterCalls(start, calls[..k], done, turnText, reasoning)
      modifies this`messages, this`coverage, this`targetSets, this`previewCount, this`toolCallCount, this`usedPlanTool,
               search
      ensures Valid() && AreDispatches(start, calls[..k + 1], dispatches, turnText, reasoning)
      ensures Calling(Now(), noted') == AfterCalls(start, calls[..k + 1], dispatches, turnText, reasoning)
    {
      ghost var dispatch: Dispatch;
      noted', dispatch := ExecuteCall(calls[k], if k == 0 then turnText else "", turnText, reasoning, noted);
      OneMoreCall(start, calls, k, done, dispatch, turnText, reasoning);
      OneMoreDispatch(start, calls, k, done, dispatch, turnText, reasoning);
      dispatches := done + [dispatch];
    }

    /** The same calls as before: none is run; the model is told, or the turn ends. */
    method HandleRepeat() returns (flow: Flow)
      requires Valid()
      modifies this`messages, this`repeatedRetries
      ensures Valid()
      ensures if old(repeatedRetries) < MAX_REPEATED_TOOL_CALL_REPAIR_RETRIES
              then flow == Again && messages == old(messages) + [UserMessage(wording.instruction(RepeatedToolCall))]
                   && repeatedRetries == old(repeatedRetries) + 1
              else flow == Stop(ErrorEnd(NoProgress)) && messages == old(messages)
                   && repeatedRetries == old(repeatedRetries)
    {
      if repeatedRetries < MAX_REPEATED_TOOL_CALL_REPAIR_RETRIES {
        repeatedRetries := repeatedRetries + 1;
        Push(UserMessage(wording.instruction(RepeatedToolCall)));
        return Again;
      }
      flow := Stop(ErrorEnd(NoProgress));
    }

    /** What a search without progress adds after the calls of its response. */
    function NoProgressNote(noted: Option<SearchAllProgress.Action>): seq<Message> {
      if noted == Some(SearchAllProgress.Repair) then [UserMessage(wording.instruction(SearchNoProgress))] else []
    }

    /** The response's calls were run, in order, and `after` is the turn when they had been. */
    ghost predicate AreRun(p: Progress, calls: seq<ToolCall>, dispatches: seq<Dispatch>, text: string,
                           reasoning: string, after: Calling)
    {
      AreDispatches(p, calls, dispatches, TurnText(text), reasoning)
      && after == AfterCalls(p, calls, dispatches, TurnText(text), reasoning)
    }

    /** What a response with tool calls leads to. */
    ghost predicate CallsLead(s: State, text: string, reasoning: string, calls: seq<ToolCall>, s': State, flow: Flow)
    {
      if s.previousSignature == Some(Signature(calls)) then
        if s.repeated < MAX_REPEATED_TOOL_CALL_REPAIR_RETRIES then
          && flow == Again
          && s' == s.WithMessages(s.progress.messages + [UserMessage(wording.instruction(RepeatedToolCall))])
                    .(repeated := s.repeated + 1)
        else
          flow == Stop(ErrorEnd(NoProgress)) && s' == s
      else
        exists dispatches, after :: AreRun(s.progress, calls, dispatches, text, reasoning, after)
                                    && flow == FlowAfter(after.noted) && s' == AfterResponse(s, calls, after)
    }

    function FlowAfter(noted: Option<SearchAllProgress.Action>): Flow {
      if noted == Some(SearchAllProgress.Fail) then Stop(ErrorEnd(NoProgress)) else Again
    }

    /** The turn for the next request, once the calls of a response have been run. */
    ghost function AfterResponse(s: State, calls: seq<ToolCall>, after: Calling): State {
      var p := after.progress;
      s.WithProgress(p.(messages := p.messages + NoProgressNote(after.noted)))
       .(repeated := 0,
         previousSignature := if after.noted == Some(SearchAllProgress.Repair) then None else Some(Signature(calls)))
    }

    /** The tool calls of one response, unless they repeat the previous response's. */
    method HandleToolCalls(text: string, reasoning: string, calls: seq<ToolCall>) returns (flow: Flow)
      requires Valid() && calls != []
      modifies this`messages, this`previousSignature, this`repeatedRetries, search
      modifies this`coverage, this`targetSets, this`previewCount, this`toolCallCount, this`usedPlanTool
      ensures Valid() && GoesOnFrom(old(messages), messages)
      ensures flow == Again || flow == Stop(ErrorEnd(NoProgress))
      ensures CallsLead(old(Here()), text, reasoning, calls, Here(), flow)
    {
      var signature := Signature(calls);
      if previousSignature == Some(signature) {
        flow := HandleRepeat();
        AddingGoesOn(old(messages), messages[|old(messages)|..]);
        return;
      }
      repeatedRetries := 0;
      previousSignature := Some(signature);
      ghost var after;
      flow, after := HandleNewCalls(text, reasoning, calls);
      assert Here() == AfterResponse(old(Here()), calls, after);
    }

    /** The calls are run; a search without progress then asks for another way, or ends the turn. */
    method HandleNewCalls(text: string, reasoning: string, calls: seq<ToolCall>)
      returns (flow: Flow, ghost after: Calling)
      requires Valid()
      modifies this`messages, this`previousSignature, search
      modifies this`coverage, this`targetSets, this`previewCount, this`toolCallCount, this`usedPlanTool
      ensures Valid() && GoesOnFrom(old(messages), messages)
      ensures exists dispatches :: AreRun(old(Now()), calls, dispatches, text, reasoning, after)
      ensures Now() == after.progress.(messages := after.progress.messages + NoProgressNote(after.noted))
      ensures flow == FlowAfter(after.noted)
      ensures previousSignature
           == if after.noted == Some(SearchAllProgress.Repair) then None else old(previousSignature)
    {
      ghost var before := Now();
      var noted;
      ghost var dispatches;
      noted, dispatches := ExecuteCalls(calls, TurnText(text), reasoning);
      after := Calling(Now(), noted);
      assert AreRun(before, calls, dispatches, text, reasoning, after);
      CallsOnlyAdd(before, calls, dispatches, TurnText(text), reasoning);
      AddingGoesOn(messages, NoProgressNote(noted));
      GoingOnComposes(before.messages, messages, messages + NoProgressNote(noted));
      assert messages + [] == messages;
      if noted == Some(SearchAllProgress.Fail) {
        return Stop(ErrorEnd(NoProgress)), after;
      }
      if noted == Some(SearchAllProgress.Repair) {
        AskAgain(SearchNoProgress, None);
      }
      flow := Again;
    }

    // ----- The final response -----

    /** What the loop promises of the text a guarded turn ends with. */
    ghost predicate SafeText(text: string)
      reads this
    {
      settings.guarded ==>
        && (previewCount == 0 ==> text == WRITE_FALLBACK || !wording.Flags(text))
        && (text == WRITE_FALLBACK || CoversMissing(text))
    }

    /**
     With an incomplete target set, the text addresses exactly the references the newest one leaves unhandled,
     or is the fallback that names them.
     */
    ghost predicate CoversMissing(text: string)
      reads this
    {
      forall k, missing | IsNewest(k, targetSets, coverage, true) && AreMissing(missing, targetSets[k], coverage) ::
        wording.addressesMissing(text, missing)
        || text == BULK_FALLBACK_START + wording.listRefs(missing) + "."
    }

    /** A text of the model's own is only ever replaced once its repairs are used up. */
    ghost predicate ReplacedOnlyAfterRepairs(text: string, given: string)
      reads this
    {
      text != given ==>
        settings.guarded
        && (bulkRetries == MAX_UNSAFE_WRITE_RESPONSE_RETRIES || unsafeRetries == MAX_UNSAFE_WRITE_RESPONSE_RETRIES)
    }

    /** References are missing and the text does not address them. */
    predicate LeavesMissing(text: string, issue: Option<Issue>) {
      settings.guarded && issue.Some? && !wording.addressesMissing(text, issue.value.missingRefs)
    }

    /** The text once its missing references are told, if only by the fallback. */
    function ToldText(given: string, issue: Option<Issue>): string {
      if LeavesMissing(given, issue) then wording.BulkFallback(issue.value.missingRefs) else given
    }

    ghost function Count(): Counts
      reads this
    {
      Counts(previewCount, toolCallCount, usedPlanTool, bulkRetries, emptyRetries, emptyAfterToolRetries, planRetries,
             unsafeRetries)
    }

    ghost function AskedAgain(repair: Repair, said: Option<string>): seq<Message> {
      (if said.Some? then [AssistantMessage(wording.withoutImages(said.value))] else [])
      + [UserMessage(wording.instruction(repair))]
    }

    /** A repair asked for is counted. */
    function Counted(c: Counts, repair: Repair): Counts {
      match repair
      case BulkCompleteness => c.(bulk := c.bulk + 1)
      case EmptyWrite => c.(empty := c.empty + 1)
      case EmptyWriteAfterTool => c.(emptyAfterTool := c.emptyAfterTool + 1)
      case UnstructuredPlan => c.(plan := c.plan + 1)
      case UnsafeWrite => c.(unsafe := c.unsafe + 1)
      case _ => c
    }

    ghost function Asking(c: Counts, repair: Repair, said: Option<string>): Decision {
      Decision(Again, Counted(c, repair), AskedAgain(repair, said))
    }

    /** Asked again, with a different instruction after a tool call, when the text is blank and there is no preview. */
    ghost function EmptyDecision(c: Counts, text: string): Option<Decision> {
      var blank := c.previews == 0 && Trim(text) == "";
      if blank && c.toolCalls == 0 && c.empty < MAX_UNSAFE_WRITE_RESPONSE_RETRIES then Some(Asking(c, EmptyWrite, None))
      else if blank && c.toolCalls > 0 && c.emptyAfterTool < MAX_UNSAFE_WRITE_RESPONSE_RETRIES
        then Some(Asking(c, EmptyWriteAfterTool, None))
      else None
    }

    /** Asked again when the text announces more than it planned, or asks for a write nothing was prepared for. */
    ghost function PreviewDecision(c: Counts, text: string): Decision {
      if c.plan == 0 && !c.usedPlan && c.previews == 1 && wording.multiStep(text)
      then Asking(c, UnstructuredPlan, Some(text))
      else if c.previews == 0 && wording.Unsafe(text) then
        if c.unsafe < MAX_UNSAFE_WRITE_RESPONSE_RETRIES then Asking(c, UnsafeWrite, Some(text))
        else Decision(Stop(Done(WRITE_FALLBACK)), c, [])
      else Decision(Stop(Done(text)), c, [])
    }

    ghost function ToldDecision(c: Counts, text: string): Decision {
      if EmptyDecision(c, text).Some? then EmptyDecision(c, text).value else PreviewDecision(c, text)
    }

    /** What a response without tool calls leads to: the first repair it needs and may still get, or the end. */
    ghost function FinalDecision(c: Counts, given: string, issue: Option<Issue>): Decision {
      if !settings.guarded then Decision(Stop(Done(given)), c, [])
      else if LeavesMissing(given, issue) && c.bulk < MAX_UNSAFE_WRITE_RESPONSE_RETRIES then
        Asking(c, BulkCompleteness, if Trim(given) != "" then Some(given) else None)
      else
        ToldDecision(c, ToldText(given, issue))
    }

    /**
     Whatever the provider answered: a turn that needs no repair, or has none left, ends with a text that
     is safe for what the turn did, and keeps the model's own text unless its repairs are used up.
     */
    lemma FinalTextIsSafe(given: string, issue: Option<Issue>)
      requires Valid() && FinalDecision(Count(), given, issue).flow.Stop?
      requires settings.guarded ==> IsNewestIssue(issue, targetSets, coverage, true)
      ensures var flow := FinalDecision(Count(), given, issue).flow;
              flow.end.Done? && SafeText(flow.end.text) && ReplacedOnlyAfterRepairs(flow.end.text, given)
    {
      wording.UnsafeMeansFlagged(FinalDecision(Count(), given, issue).flow.end.text);
      forall k, missing | settings.guarded && IsNewest(k, targetSets, coverage, true)
                          && AreMissing(missing, targetSets[k], coverage)
        ensures issue.Some? && issue.value.missingRefs == missing
      {
        assert issue.Some?;
        var l :| IsNewest(l, targetSets, coverage, true) && Reports(issue.value, targetSets[l], coverage);
        assert k == l;
        MissingIsUnique(issue.value.missingRefs, missing, targetSets[k], coverage);
      }
    }

    /** References are missing that the text does not address. */
    ghost predicate Unaddressed(text: string, issue: Option<Issue>) {
      issue.Some? && !wording.addressesMissing(text, issue.value.missingRefs)
    }

    /** A text that leaves missing references unaddressed is asked for again twice, before any other repair. */
    lemma IncompleteIsAskedFirst(c: Counts, given: string, issue: Option<Issue>)
      requires settings.guarded && Unaddressed(given, issue)
      ensures var d := FinalDecision(c, given, issue);
              && (c.bulk < 2 ==>
                    && d.flow == Again && d.counts == c.(bulk := c.bulk + 1)
                    && d.added == (if IsBlank(given) then [] else [AssistantMessage(wording.withoutImages(given))])
                                  + [UserMessage(wording.instruction(BulkCompleteness))])
              && (c.bulk >= 2 ==>
                    d == FinalDecision(c, BULK_FALLBACK_START + wording.listRefs(issue.value.missingRefs) + ".", None))
    {
      TrimIsExact("", given);
    }

    /** A blank text without a preview is asked for again twice, before and after tool calls each, then accepted. */
    lemma BlankTextIsAskedAgain(c: Counts, given: string, issue: Option<Issue>)
      requires settings.guarded && !Unaddressed(given, issue) && IsBlank(given) && c.previews == 0
      ensures var d := FinalDecision(c, given, issue);
              && (c.toolCalls == 0 && c.empty < 2 ==>
                    d == Decision(Again, c.(empty := c.empty + 1), [UserMessage(wording.instruction(EmptyWrite))]))
              && (c.toolCalls > 0 && c.emptyAfterTool < 2 ==>
                    d == Decision(Again, c.(emptyAfterTool := c.emptyAfterTool + 1),
                                  [UserMessage(wording.instruction(EmptyWriteAfterTool))]))
              && ((if c.toolCalls == 0 then c.empty else c.emptyAfterTool) >= 2 ==>
                    d == Decision(Stop(Done(given)), c, []))
    {
      TrimIsExact("", given);
    }

    /** One preview without a plan, and a text of several steps: asked for again, once. */
    lemma UnplannedStepsAreAskedOnce(c: Counts, given: string, issue: Option<Issue>)
      requires settings.guarded && !Unaddressed(given, issue)
      requires c.previews == 1 && !c.usedPlan && wording.multiStep(given)
      ensures FinalDecision(c, given, issue)
           == if c.plan == 0 then
                Decision(Again, c.(plan := 1), [AssistantMessage(wording.withoutImages(given)),
                                                UserMessage(wording.instruction(UnstructuredPlan))])
              else
                Decision(Stop(Done(given)), c, [])
    {
    }

    /** A flagged text without a preview is asked for again twice, then replaced. */
    lemma FlaggedTextIsAskedAgain(c: Counts, given: string, issue: Option<Issue>)
      requires settings.guarded && !Unaddressed(given, issue) && c.previews == 0 && wording.Flags(given)
      ensures FinalDecision(c, given, issue)
           == if c.unsafe < 2 then
                Decision(Again, c.(unsafe := c.unsafe + 1), [AssistantMessage(wording.withoutImages(given)),
                                                             UserMessage(wording.instruction(UnsafeWrite))])
              else
                Decision(Stop(Done(WRITE_FALLBACK)), c, [])
    {
      wording.UnsafeMeansFlagged(given);
    }

    /** Any other text, and every text of a turn that is not guarded, ends the turn as it is. */
    lemma OtherTextsEndTheTurn(c: Counts, given: string, issue: Option<Issue>)
      requires settings.guarded ==>
                 && !Unaddressed(given, issue) && (c.previews == 0 ==> !IsBlank(given) && !wording.Flags(given))
                 && !(c.previews == 1 && !c.usedPlan && wording.multiStep(given))
      ensures FinalDecision(c, given, issue) == Decision(Stop(Done(given)), c, [])
    {
      wording.UnsafeMeansFlagged(given);
      TrimIsExact("", given);
    }

    /** A blank text without a preview is asked for again, with a different instruction after a tool call. */
    method AskWhenEmpty(text: string) returns (asked: bool)
      requires Valid() && settings.guarded
      modifies this`messages, this`previousSignature, this`emptyRetries, this`emptyAfterToolRetries
      ensures Valid()
      ensures asked <==> EmptyDecision(old(Count()), text).Some?
      ensures previousSignature == if asked then None else old(previousSignature)
      ensures if asked then
                var d := EmptyDecision(old(Count()), text).value;
                Count() == d.counts && messages == old(messages) + d.added
              else
                Count() == old(Count()) && messages == old(messages)
    {
      asked := false;
      if previewCount == 0 && toolCallCount == 0 && Trim(text) == ""
         && emptyRetries < MAX_UNSAFE_WRITE_RESPONSE_RETRIES {
        emptyRetries := emptyRetries + 1;
        AskAgain(EmptyWrite, None);
        return true;
      }
      if previewCount == 0 && toolCallCount > 0 && Trim(text) == ""
         && emptyAfterToolRetries < MAX_UNSAFE_WRITE_RESPONSE_RETRIES {
        emptyAfterToolRetries := emptyAfterToolRetries + 1;
        AskAgain(EmptyWriteAfterTool, None);
        return true;
      }
    }

    /** A text that announces more steps than it planned, or asks for a write it did not prepare, is asked for again. */
    method AskForPreviews(told: string) returns (flow: Flow)
      requires Valid() && settings.guarded
      modifies this`messages, this`previousSignature, this`unsafeRetries, this`planRetries
      ensures Valid()
      ensures previousSignature == if flow == Again then None else old(previousSignature)
      ensures var d := PreviewDecision(old(Count()), told);
              flow == d.flow && Count() == d.counts && messages == old(messages) + d.added
    {
      var text := told;
      if planRetries == 0 && !usedPlanTool && previewCount == 1 && wording.multiStep(text) {
        planRetries := planRetries + 1;
        AskAgain(UnstructuredPlan, Some(text));
        return Again;
      }
      if previewCount == 0 && wording.Unsafe(text) {
        if unsafeRetries < MAX_UNSAFE_WRITE_RESPONSE_RETRIES {
          unsafeRetries := unsafeRetries + 1;
          AskAgain(UnsafeWrite, Some(text));
          return Again;
        }
        text := WRITE_FALLBACK;
      }
      flow := Stop(Done(text));
    }

    /** With references still missing: one more try, or a text that says so. */
    method CheckCoverage(given: string) returns (text: string, asked: bool, ghost issue: Option<Issue>)
      requires Valid() && settings.guarded
      modifies this`messages, this`previousSignature, this`bulkRetries
      ensures Valid() && IsNewestIssue(issue, targetSets, coverage, true)
      ensures asked <==> LeavesMissing(given, issue) && old(bulkRetries) < MAX_UNSAFE_WRITE_RESPONSE_RETRIES
      ensures previousSignature == if asked then None else old(previousSignature)
      ensures if asked then
                && bulkRetries == old(bulkRetries) + 1
                && messages == old(messages)
                   + AskedAgain(BulkCompleteness, if Trim(given) != "" then Some(given) else None)
              else
                text == ToldText(given, issue) && bulkRetries == old(bulkRetries) && messages == old(messages)
    {
      text, asked := given, false;
      var found := FindBulkCoverageIssue(targetSets, coverage, true);
      issue := found;
      if found.Some? && !wording.addressesMissing(text, found.value.missingRefs) {
        if bulkRetries < MAX_UNSAFE_WRITE_RESPONSE_RETRIES {
          bulkRetries := bulkRetries + 1;
          AskAgain(BulkCompleteness, if Trim(text) != "" then Some(text) else None);
          return text, true, issue;
        }
        text := wording.BulkFallback(found.value.missingRefs);
      }
    }

    /** A response without tool calls: the first repair that applies is asked for, or the turn ends. */
    method FinalResponse(given: string) returns (flow: Flow, ghost issue: Option<Issue>)
      requires Valid()
      modifies this`messages, this`previousSignature, this`unsafeRetries, this`planRetries, this`emptyRetries,
               this`emptyAfterToolRetries, this`bulkRetries
      ensures Valid()
      ensures settings.guarded ==> IsNewestIssue(issue, targetSets, coverage, true)
      ensures previousSignature == if flow == Again then None else old(previousSignature)
      ensures var d := FinalDecision(old(Count()), given, issue);
              flow == d.flow && Count() == d.counts && messages == old(messages) + d.added
    {
      issue := None;
      if !settings.guarded {
        return Stop(Done(given)), issue;
      }
      var text, asked, newest := CheckCoverage(given);
      issue := newest;
      if asked {
        return Again, issue;
      }
      flow := RepairTold(text);
    }

    method RepairTold(text: string) returns (flow: Flow)
      requires Valid() && settings.guarded
      modifies this`messages, this`previousSignature, this`unsafeRetries, this`planRetries, this`emptyRetries,
               this`emptyAfterToolRetries
      ensures Valid()
      ensures previousSignature == if flow == Again then None else old(previousSignature)
      ensures var d := ToldDecision(old(Count()), text);
              flow == d.flow && Count() == d.counts && messages == old(messages) + d.added
    {
      var asked := AskWhenEmpty(text);
      if asked {
        return Again;
      }
      flow := AskForPreviews(text);
    }

    lemma FinalAsksOrEnds(c: Counts, given: string, issue: Option<Issue>)
      ensures var d := FinalDecision(c, given, issue);
              if d.flow.Stop? then d.added == [] && d.counts == c
              else exists repair, said :: d.added == AskedAgain(repair, said)
    {
    }

    /** A final response adds no tool call and no result; one that ends the turn adds and counts nothing. */
    lemma FinalAddsPlain(c: Counts, given: string, issue: Option<Issue>, before: seq<Message>)
      ensures GoesOnFrom(before, before + FinalDecision(c, given, issue).added)
      ensures FinalDecision(c, given, issue).flow.Stop? ==> FinalDecision(c, given, issue).counts == c
    {
      var added := FinalDecision(c, given, issue).added;
      assert added == [] || (exists repair, said :: added == AskedAgain(repair, said)) by {
        FinalAsksOrEnds(c, given, issue);
      }
      assert Complete(added);
      AddingGoesOn(before, added);
    }

    /** What a response without tool calls leads to, for the newest incomplete target set. */
    ghost predicate FinalLeads(s: State, given: string, s': State, flow: Flow) {
      exists issue :: IsDecided(s, given, issue, s', flow)
    }

    ghost predicate IsDecided(s: State, given: string, issue: Option<Issue>, s': State, flow: Flow) {
      && (settings.guarded ==> IsNewestIssue(issue, s.progress.targetSets, s.progress.coverage, true))
      && flow == FinalDecision(s.counts, given, issue).flow
      && s' == AfterDecision(s, FinalDecision(s.counts, given, issue))
    }

    ghost function AfterDecision(s: State, d: Decision): State {
      s.WithMessages(s.progress.messages + d.added)
       .(counts := d.counts, previousSignature := if d.flow == Again then None else s.previousSignature)
    }

    /** A final response only ever adds messages, and ends the turn with a safe text or not at all. */
    method Conclude(given: string) returns (flow: Flow)
      requires Valid()
      modifies this`messages, this`previousSignature, this`unsafeRetries, this`planRetries, this`emptyRetries,
               this`emptyAfterToolRetries, this`bulkRetries
      ensures Valid() && GoesOnFrom(old(messages), messages)
      ensures FinalLeads(old(Here()), given, Here(), flow)
      ensures flow.Stop? ==> flow.end.Done? && SafeText(flow.end.text) && ReplacedOnlyAfterRepairs(flow.end.text, given)
    {
      ghost var issue;
      ghost var here := Here();
      flow, issue := FinalResponse(given);
      FinalAddsPlain(here.counts, given, issue, old(messages));
      assert IsDecided(here, given, issue, Here(), flow);
      if flow.Stop? {
        FinalTextIsSafe(given, issue);
      }
    }

    // ----- The loop -----

    /** Every request sent is well paired, and goes on from the one before it. */
    ghost predicate RequestsValid()
      reads this
    {
      InSequence(requests)
    }

    /** What is sent for the messages: the messages, or over budget their greedy compaction. */
    ghost predicate IsSent(before: seq<Message>, sent: seq<Message>) {
      if OverBudget(before) then
        exists tools, texts ::
          GreedilyCompacted(settings.estimator, settings.systemPrompt, before,
                            ProtectedStart(before, settings.keepRecent), settings.contextWindow.value * 4 / 5, sent,
                            tools, texts)
      else
        sent == before
    }

    /** What an answer leads to. */
    ghost predicate AnswerLeads(s: State, answer: Answer, aborted: bool, s': State, flow: Flow) {
      match answer
      case Interrupted => flow == Stop(Aborted) && s' == s
      case Failed => flow == Stop(ErrorEnd(ProviderFailed)) && s' == s
      case Answered(text, reasoning, calls) =>
        if aborted then flow == Stop(Aborted) && s' == s
        else if calls != [] then CallsLead(s, text, reasoning, calls, s', flow)
        else FinalLeads(s, text, s', flow)
    }

    /** Round `k`: not aborted before its request, what was sent, and what the answer led to. */
    ghost predicate IsRound(k: nat, r: Round, abortedAt: nat -> bool) {
      && !abortedAt(2 * k) && IsSent(r.before.progress.messages, r.sent)
      && AnswerLeads(r.before.WithMessages(r.sent), provider.answer(k, r.sent), abortedAt(2 * k + 1), r.after, r.flow)
    }

    ghost predicate AreAllowed(rounds: seq<Round>, abortedAt: nat -> bool) {
      forall k | 0 <= k < |rounds| :: IsRound(k, rounds[k], abortedAt)
    }

    lemma OneMoreAllowed(rounds: seq<Round>, abortedAt: nat -> bool, round: Round)
      requires AreAllowed(rounds, abortedAt) && IsRound(|rounds|, round, abortedAt)
      ensures AreAllowed(rounds + [round], abortedAt)
    {
      var more := rounds + [round];
      forall k | 0 <= k < |more|
        ensures IsRound(k, more[k], abortedAt)
      {
        if k < |rounds| {
          assert more[k] == rounds[k];
        } else {
          assert more[k] == round;
        }
      }
    }

    /** How the turn ends after its rounds: as the last one says, aborted before the next, or out of iterations. */
    ghost predicate EndsAfter(rounds: seq<Round>, abortedAt: nat -> bool, end: End) {
      if rounds != [] && rounds[|rounds| - 1].flow.Stop? then end == rounds[|rounds| - 1].flow.end
      else if |rounds| < settings.maxIterations then end == Aborted && abortedAt(2 * |rounds|)
      else end == ErrorEnd(TooManyIterations)
    }

    /** A turn that ends done ends on an answer without calls, with a safe text, the answer's own if it may be. */
    ghost predicate EndsWell(end: End, answer: Answer)
      reads this
    {
      end.Done? ==>
        && SafeText(end.text)
        && answer.Answered? && answer.calls == [] && ReplacedOnlyAfterRepairs(end.text, answer.text)
    }

    /** One round: a request, and what its answer asks for. */
    method Iterate(iteration: nat, abortedAt: nat -> bool) returns (flow: Flow, ghost round: Round)
      requires Valid() && !abortedAt(2 * iteration)
      modifies this, search
      ensures Valid() && round.before == old(Here()) && round.after == Here() && round.flow == flow
      ensures IsRound(iteration, round, abortedAt)
      ensures requests == old(requests) + [round.sent] && WellPaired(round.sent)
      ensures GoesOnFrom(old(messages), round.sent) && GoesOnFrom(round.sent, messages)
      ensures flow.Stop? ==> EndsWell(flow.end, provider.answer(iteration, round.sent))
      ensures flow != Stop(ErrorEnd(TooManyIterations))
    {
      ghost var before := Here();
      var answer, _, _ := CallProvider(iteration);
      ghost var sent := messages;
      SameShapeGoesOn(before.progress.messages, sent);
      assert Here() == before.WithMessages(sent);
      flow := TakeAnswer(answer, abortedAt(2 * iteration + 1));
      round := Round(before, sent, Here(), flow);
    }

    /** What the provider answered ends the turn, or adds messages for the next round. */
    method TakeAnswer(answer: Answer, aborted: bool) returns (flow: Flow)
      requires Valid()
      modifies this, search
      ensures Valid() && requests == old(requests) && GoesOnFrom(old(messages), messages)
      ensures AnswerLeads(old(Here()), answer, aborted, Here(), flow)
      ensures flow.Stop? ==> EndsWell(flow.end, answer)
      ensures flow != Stop(ErrorEnd(TooManyIterations))
    {
      SameShapeGoesOn(messages, messages);
      match answer {
        case Interrupted => return Stop(Aborted);
        case Failed => return Stop(ErrorEnd(ProviderFailed));
        case Answered(text, reasoning, calls) =>
          if aborted {
            return Stop(Aborted);
          }
          if |calls| > 0 {
            flow := HandleToolCalls(text, reasoning, calls);
          } else {
            flow := Conclude(text);
          }
      }
    }

    /**
     The turn.  It goes from request to request exactly as the rounds say and ends as they do.  Every request it
     sends is well paired and goes on from the one before, there are at most `maxIterations`, and a turn that
     ends done ends with a text that is safe for what it did.
     */
    method Run(abortedAt: nat -> bool) returns (end: End, ghost rounds: seq<Round>)
      requires Valid() && requests == []
      modifies this, search
      ensures Valid() && |requests| <= settings.maxIterations && RequestsValid()
      ensures AreChained(old(Here()), rounds, Here()) && AreAllowed(rounds, abortedAt)
      ensures EndsAfter(rounds, abortedAt, end)
      ensures |rounds| == |requests| && forall k | 0 <= k < |requests| :: requests[k] == rounds[k].sent
      ensures forall k | 0 <= k < |requests| :: GoesOnFrom(old(messages), requests[k])
      ensures end.Done? ==> SafeText(end.text)
      ensures end.Done? && settings.guarded && previewCount == 0 && !wording.Flags(WRITE_FALLBACK) ==>
                !wording.Flags(end.text)
      ensures end.Done? ==>
                && requests != []
                && var last := provider.answer(|requests| - 1, requests[|requests| - 1]);
                && last.Answered? && last.calls == [] && ReplacedOnlyAfterRepairs(end.text, last.text)
      ensures end == ErrorEnd(TooManyIterations) ==> |requests| == settings.maxIterations
    {
      end, rounds := GoRound(abortedAt);
    }

    method GoRound(abortedAt: nat -> bool) returns (end: End, ghost rounds: seq<Round>)
      requires Valid() && requests == []
      modifies this, search
      ensures Valid() && |rounds| <= settings.maxIterations && Underway(old(Here()), rounds, abortedAt)
      ensures EndsAfter(rounds, abortedAt, end)
      ensures if rounds == [] then !end.Done?
              else EndsWell(end, provider.answer(|rounds| - 1, rounds[|rounds| - 1].sent))
      ensures end == ErrorEnd(TooManyIterations) ==> |rounds| == settings.maxIterations
    {
      ghost var start := Here();
      NothingSentYet(abortedAt);
      rounds := [];
      for iteration := 0 to settings.maxIterations
        invariant Valid() && Underway(start, rounds, abortedAt)
        invariant |rounds| == iteration && (iteration > 0 ==> rounds[iteration - 1].flow == Again)
      {
        if abortedAt(2 * iteration) {
          return Aborted, rounds;
        }
        var flow;
        flow, rounds := NextRound(iteration, abortedAt, start, rounds);
        if flow.Stop? {
          return flow.end, rounds;
        }
      }
      end := ErrorEnd(TooManyIterations);
    }

    /** The turn has gone from `start` through these rounds. */
    ghost predicate Underway(start: State, rounds: seq<Round>, abortedAt: nat -> bool)
      reads this, search
    {
      && AreChained(start, rounds, Here()) && AreAllowed(rounds, abortedAt)
      && SentFrom(start.progress.messages, requests, messages)
      && |rounds| == |requests| && forall k | 0 <= k < |requests| :: requests[k] == rounds[k].sent
    }

    lemma NothingSentYet(abortedAt: nat -> bool)
      requires requests == []
      ensures Underway(Here(), [], abortedAt)
    {
      SameShapeGoesOn(messages, messages);
    }

    method NextRound(iteration: nat, abortedAt: nat -> bool, ghost start: State, ghost done: seq<Round>)
      returns (flow: Flow, ghost rounds: seq<Round>)
      requires Valid() && Underway(start, done, abortedAt) && |done| == iteration && !abortedAt(2 * iteration)
      requires done != [] ==> done[|done| - 1].flow == Again
      modifies this, search
      ensures Valid() && Underway(start, rounds, abortedAt)
      ensures |rounds| == iteration + 1 && rounds[iteration].flow == flow
      ensures flow.Stop? ==> EndsWell(flow.end, provider.answer(iteration, rounds[iteration].sent))
      ensures flow != Stop(ErrorEnd(TooManyIterations))
    {
      ghost var before := messages;
      ghost var earlier := requests;
      ghost var round;
      flow, round := Iterate(iteration, abortedAt);
      OneMoreRequest(start.progress.messages, earlier, before, round.sent, messages);
      OneMoreAllowed(done, abortedAt, round);
      OneMoreChained(start, done, round);
      rounds := done + [round];
    }
  }

  /** One round goes on where the other left off. */
  ghost predicate Joins(earlier: Round, later: Round) {
    earlier.flow == Again && later.before == earlier.after
  }

  /** Rounds one after the other, each but the last of which goes on. */
  ghost predicate AreChained(from: State, rounds: seq<Round>, to: State) {
    && (forall k, l | 0 <= k < |rounds| && 0 <= l < |rounds| && l == k + 1 :: Joins(rounds[k], rounds[l]))
    && (if rounds == [] then to == from else rounds[0].before == from && rounds[|rounds| - 1].after == to)
  }

  lemma OneMoreChained(from: State, rounds: seq<Round>, round: Round)
    requires AreChained(from, rounds, round.before)
    requires rounds != [] ==> rounds[|rounds| - 1].flow == Again
    ensures AreChained(from, rounds + [round], round.after)
  {
    var more := rounds + [round];
    forall k, l | 0 <= k < |more| && 0 <= l < |more| && l == k + 1
      ensures Joins(more[k], more[l])
    {
      assert more[k] == rounds[k];
      if l < |rounds| {
        assert more[l] == rounds[l];
      } else {
        assert more[l] == round;
      }
    }
  }

  /** A turn about to begin. */
  function Start(messages: seq<Message>): State {
    State(Progress(messages, 0, 0, false, Coverage({}, map[], {}, {}), [], SearchAllProgress.Initial),
          Counts(0, 0, false, 0, 0, 0, 0, 0), None, 0)
  }

  ghost predicate InSequence(requests: seq<seq<Message>>) {
    && (forall k | 0 <= k < |requests| :: WellPaired(requests[k]))
    && (forall k | 0 < k < |requests| :: GoesOnFrom(requests[k - 1], requests[k]))
  }

  /** The requests sent since `start`, the last of which the messages go on from. */
  ghost predicate SentFrom(start: seq<Message>, requests: seq<seq<Message>>, messages: seq<Message>) {
    && InSequence(requests) && (forall k | 0 <= k < |requests| :: GoesOnFrom(start, requests[k]))
    && GoesOnFrom(start, messages) && (requests != [] ==> GoesOnFrom(requests[|requests| - 1], messages))
  }

  lemma OneMoreRequest(start: seq<Message>, earlier: seq<seq<Message>>, before: seq<Message>, sent: seq<Message>,
                       after: seq<Message>)
    requires SentFrom(start, earlier, before) && WellPaired(sent) && GoesOnFrom(before, sent) && GoesOnFrom(sent, after)
    ensures SentFrom(start, earlier + [sent], after)
  {
    GoingOnComposes(start, before, sent);
    GoingOnComposes(start, sent, after);
    if earlier != [] {
      GoingOnComposes(earlier[|earlier| - 1], before, sent);
    }
  }

  /**
   A turn on a persisted conversation.  Whatever was persisted and whatever the provider answers, every
   request is well paired, and the calls it leaves unanswered are exactly those the history leaves.
   */
  method AnswerHistory(settings: Settings, provider: Provider, tools: Tools, wording: Wording, texts: Texts,
                       history: seq<Row>, abortedAt: nat -> bool)
    returns (turn: Turn, end: End, ghost rounds: seq<Round>)
    ensures fresh(turn) && turn.settings == settings && turn.provider == provider && turn.tools == tools
            && turn.wording == wording && turn.RequestsValid() && |turn.requests| <= settings.maxIterations
    ensures AreChained(Start(ReplayHistory(texts, settings.replayReasoning, history).messages), rounds, turn.Here())
    ensures turn.AreAllowed(rounds, abortedAt) && turn.EndsAfter(rounds, abortedAt, end) && |rounds| == |turn.requests|
    ensures forall k, a: nat, id | 0 <= k < |turn.requests| ::
              IsUnanswered(turn.requests[k], a, id)
              <==> IsUnanswered(ReplayHistory(texts, settings.replayReasoning, history).messages, a, id)
    ensures forall k | 0 <= k < |turn.requests| ::
              LeavesUnanswered(turn.requests[k]) <==> HistoryLeavesUnanswered(texts, settings.replayReasoning, history)
  {
    var replayed := Replay(texts, settings.replayReasoning, history);
    turn := new Turn(settings, provider, tools, wording, replayed);
    end, rounds := turn.Run(abortedAt);
    forall k, a: nat, id | 0 <= k < |turn.requests|
      ensures IsUnanswered(turn.requests[k], a, id) <==> IsUnanswered(replayed, a, id)
    {
      GoingOnLeavesUnanswered(replayed, turn.requests[k], a, id);
    }
    ReplayLeavesUnanswered(texts, settings.replayReasoning, history);
    forall k | 0 <= k < |turn.requests|
      ensures LeavesUnanswered(turn.requests[k]) <==> LeavesUnanswered(replayed)
    {
      GoingOnLeavesAlike(replayed, turn.requests[k]);
    }
  }
}
