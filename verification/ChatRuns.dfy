/**
 Whole turns: what holds of every sequence of requests the loop of `ChatTurn` can go through
 (`streamPrepared` of `backend/src/ai/ai-chat-orchestrator.service.ts`).
 */
module ChatRuns {
  import opened Wrappers
  import opened ProviderMessages
  import opened BulkCoverage
  import opened ToolCallSignature
  import opened ChatTurn
  import SearchAllProgress

  /** A turn that went from request to request, from one state to another. */
  ghost predicate IsRun(turn: Turn, from: State, rounds: seq<Round>, abortedAt: nat -> bool, to: State) {
    AreChained(from, rounds, to) && turn.AreAllowed(rounds, abortedAt)
  }

  /** What the provider answered in round `k`. */
  ghost function AnswerAt(turn: Turn, rounds: seq<Round>, k: nat): Answer
    requires k < |rounds|
  {
    turn.provider.answer(k, rounds[k].sent)
  }

  lemma WithoutLast(turn: Turn, from: State, rounds: seq<Round>, abortedAt: nat -> bool, to: State)
    requires IsRun(turn, from, rounds, abortedAt, to) && rounds != []
    ensures IsRun(turn, from, rounds[..|rounds| - 1], abortedAt, rounds[|rounds| - 1].before)
  {
    var n := |rounds| - 1;
    assert n > 0 ==> Joins(rounds[n - 1], rounds[n]);
    forall k | 0 <= k < n
      ensures turn.IsRound(k, rounds[..n][k], abortedAt)
    {
      assert rounds[..n][k] == rounds[k];
    }
  }

  // ----- How a turn ends -----

  ghost predicate GoesOn(turn: Turn, rounds: seq<Round>, abortedAt: nat -> bool, k: nat)
    requires k < |rounds|
  {
    AnswerAt(turn, rounds, k).Answered? && !abortedAt(2 * k) && !abortedAt(2 * k + 1)
  }

  lemma RoundEnds(turn: Turn, rounds: seq<Round>, abortedAt: nat -> bool, k: nat)
    requires k < |rounds| && turn.IsRound(k, rounds[k], abortedAt)
    ensures var answer, flow := AnswerAt(turn, rounds, k), rounds[k].flow;
            && !abortedAt(2 * k)
            && (flow == Stop(ErrorEnd(ProviderFailed)) <==> answer == Failed)
            && (flow == Stop(Aborted) <==> answer == Interrupted || (answer.Answered? && abortedAt(2 * k + 1)))
            && (flow == Stop(ErrorEnd(NoProgress)) ==> GoesOn(turn, rounds, abortedAt, k) && answer.calls != [])
            && (flow.Stop? && flow.end.Done? ==> GoesOn(turn, rounds, abortedAt, k) && answer.calls == [])
            && (flow == Again ==> GoesOn(turn, rounds, abortedAt, k))
            && flow != Stop(ErrorEnd(TooManyIterations))
  {
  }

  /**
   Why a turn ends: it is aborted exactly when the user interrupts it before a request, during it or after it;
   the provider failed exactly when its last answer did; and only an answer without calls ends it done.
   */
  lemma EndIsExact(turn: Turn, from: State, rounds: seq<Round>, abortedAt: nat -> bool, to: State, end: End)
    requires IsRun(turn, from, rounds, abortedAt, to) && turn.EndsAfter(rounds, abortedAt, end)
    requires |rounds| <= turn.settings.maxIterations
    ensures var n := |rounds|;
            && (end == ErrorEnd(ProviderFailed) <==> n > 0 && AnswerAt(turn, rounds, n - 1) == Failed)
            && (end == Aborted <==>
                  if n > 0 && rounds[n - 1].flow.Stop? then
                    || AnswerAt(turn, rounds, n - 1) == Interrupted
                    || (AnswerAt(turn, rounds, n - 1).Answered? && abortedAt(2 * n - 1))
                  else
                    n < turn.settings.maxIterations)
            && (n < turn.settings.maxIterations && (n > 0 ==> rounds[n - 1].flow == Again) ==> abortedAt(2 * n))
            && (end == ErrorEnd(NoProgress) ==>
                  n > 0 && GoesOn(turn, rounds, abortedAt, n - 1) && AnswerAt(turn, rounds, n - 1).calls != [])
            && (end.Done? ==>
                  n > 0 && GoesOn(turn, rounds, abortedAt, n - 1) && AnswerAt(turn, rounds, n - 1).calls == [])
            && (end == ErrorEnd(TooManyIterations) ==>
                  n == turn.settings.maxIterations && (n > 0 ==> GoesOn(turn, rounds, abortedAt, n - 1)))
  {
    if rounds != [] {
      RoundEnds(turn, rounds, abortedAt, |rounds| - 1);
    }
  }

  /** Every answer but the last let the turn go on, and the user did not interrupt it. */
  lemma OthersGoOn(turn: Turn, from: State, rounds: seq<Round>, abortedAt: nat -> bool, to: State, k: nat)
    requires IsRun(turn, from, rounds, abortedAt, to) && k < |rounds| - 1
    ensures GoesOn(turn, rounds, abortedAt, k)
  {
    assert Joins(rounds[k], rounds[k + 1]);
    RoundEnds(turn, rounds, abortedAt, k);
  }

  // ----- Repairs -----

  ghost function Repairs(c: Counts): nat {
    c.bulk + c.empty + c.emptyAfterTool + c.plan + c.unsafe
  }

  ghost predicate WithinLimits(c: Counts) {
    c.bulk <= 2 && c.empty <= 2 && c.emptyAfterTool <= 2 && c.plan <= 1 && c.unsafe <= 2
  }

  ghost predicate IsAskedAgain(turn: Turn, rounds: seq<Round>, k: nat)
    requires k < |rounds|
  {
    rounds[k].flow == Again && AnswerAt(turn, rounds, k).Answered? && AnswerAt(turn, rounds, k).calls == []
  }

  /** The rounds whose text without calls did not end the turn. */
  ghost function AskedAgain(turn: Turn, rounds: seq<Round>): set<nat> {
    set k: nat | k < |rounds| && IsAskedAgain(turn, rounds, k)
  }

  /** One more repair is counted exactly when the text is asked for again. */
  ghost predicate CountsOneMore(c: Counts, c': Counts, asked: bool) {
    WithinLimits(c') && Repairs(c') == Repairs(c) + (if asked then 1 else 0)
  }

  lemma ToldDecisionCounts(turn: Turn, c: Counts, text: string)
    requires WithinLimits(c)
    ensures var d := turn.ToldDecision(c, text);
            CountsOneMore(c, d.counts, d.flow == Again)
  {
    var asked := turn.EmptyDecision(c, text);
    if asked.Some? {
      assert asked.value.counts in {turn.Counted(c, EmptyWrite), turn.Counted(c, EmptyWriteAfterTool)};
    } else {
      var d := turn.PreviewDecision(c, text);
      assert d.flow == Again ==> d.counts in {turn.Counted(c, UnstructuredPlan), turn.Counted(c, UnsafeWrite)};
      assert d.flow != Again ==> d.counts == c;
    }
  }

  lemma DecisionCounts(turn: Turn, c: Counts, given: string, issue: Option<Issue>)
    requires WithinLimits(c)
    ensures var d := turn.FinalDecision(c, given, issue);
            CountsOneMore(c, d.counts, d.flow == Again) && (d.flow == Again ==> turn.settings.guarded)
  {
    if turn.settings.guarded {
      ToldDecisionCounts(turn, c, turn.ToldText(given, issue));
    }
  }

  lemma DecidedCounts(turn: Turn, s: State, given: string, issue: Option<Issue>, s': State, flow: Flow)
    requires turn.IsDecided(s, given, issue, s', flow) && WithinLimits(s.counts)
    ensures CountsOneMore(s.counts, s'.counts, flow == Again) && (flow == Again ==> turn.settings.guarded)
  {
    DecisionCounts(turn, s.counts, given, issue);
  }

  lemma FinalCounts(turn: Turn, s: State, given: string, s': State, flow: Flow)
    requires turn.FinalLeads(s, given, s', flow) && WithinLimits(s.counts)
    ensures CountsOneMore(s.counts, s'.counts, flow == Again) && (flow == Again ==> turn.settings.guarded)
  {
    var issue :| turn.IsDecided(s, given, issue, s', flow);
    DecidedCounts(turn, s, given, issue, s', flow);
  }

  /** A response with calls counts none of the repairs of texts. */
  lemma CallsCountNone(turn: Turn, s: State, text: string, reasoning: string, calls: seq<ToolCall>, s': State,
                       flow: Flow)
    requires turn.CallsLead(s, text, reasoning, calls, s', flow)
    ensures var c := s'.counts;
            s.counts == c.(previews := s.counts.previews, toolCalls := s.counts.toolCalls,
                           usedPlan := s.counts.usedPlan)
  {
  }

  lemma RoundCounts(turn: Turn, rounds: seq<Round>, abortedAt: nat -> bool, k: nat)
    requires k < |rounds| && turn.IsRound(k, rounds[k], abortedAt) && WithinLimits(rounds[k].before.counts)
    ensures CountsOneMore(rounds[k].before.counts, rounds[k].after.counts, IsAskedAgain(turn, rounds, k))
    ensures IsAskedAgain(turn, rounds, k) ==> turn.settings.guarded
  {
    var answer, s := AnswerAt(turn, rounds, k), rounds[k].before.WithMessages(rounds[k].sent);
    RoundEnds(turn, rounds, abortedAt, k);
    if GoesOn(turn, rounds, abortedAt, k) {
      if answer.calls == [] {
        FinalCounts(turn, s, answer.text, rounds[k].after, rounds[k].flow);
      } else {
        CallsCountNone(turn, s, answer.text, answer.reasoning, answer.calls, rounds[k].after, rounds[k].flow);
      }
    }
  }

  lemma OneMoreAsked(turn: Turn, rounds: seq<Round>)
    requires rounds != []
    ensures var n := |rounds| - 1;
            |AskedAgain(turn, rounds)|
            == |AskedAgain(turn, rounds[..n])| + (if IsAskedAgain(turn, rounds, n) then 1 else 0)
            && (AskedAgain(turn, rounds[..n]) == {} && !IsAskedAgain(turn, rounds, n) ==>
                  AskedAgain(turn, rounds) == {})
  {
    var n := |rounds| - 1;
    assert forall k: nat | k < n :: IsAskedAgain(turn, rounds, k) <==> IsAskedAgain(turn, rounds[..n], k);
    assert AskedAgain(turn, rounds)
        == AskedAgain(turn, rounds[..n]) + (if IsAskedAgain(turn, rounds, n) then {n} else {});
  }

  /** Every text without calls that does not end the turn uses up a repair, and at most nine ever do. */
  lemma {:induction false} RepairsAreBounded(turn: Turn, from: State, rounds: seq<Round>, abortedAt: nat -> bool,
                                             to: State)
    requires IsRun(turn, from, rounds, abortedAt, to) && WithinLimits(from.counts)
    ensures WithinLimits(to.counts) && Repairs(to.counts) == Repairs(from.counts) + |AskedAgain(turn, rounds)|
    ensures |AskedAgain(turn, rounds)| <= 9
    ensures !turn.settings.guarded ==> AskedAgain(turn, rounds) == {}
    decreases |rounds|
  {
    if rounds != [] {
      var n := |rounds| - 1;
      WithoutLast(turn, from, rounds, abortedAt, to);
      RepairsAreBounded(turn, from, rounds[..n], abortedAt, rounds[n].before);
      RoundCounts(turn, rounds, abortedAt, n);
      OneMoreAsked(turn, rounds);
    }
  }

  // ----- What a turn never forgets -----

  ghost predicate Grows(p: Progress, q: Progress) {
    && p.toolCallCount <= q.toolCallCount && p.previewCount <= q.previewCount && (p.usedPlan ==> q.usedPlan)
    && p.targetSets <= q.targetSets && p.search.seenItemKeys <= q.search.seenItemKeys
    && forall target, ref | IsHandled(target, p.coverage, ref) :: IsHandled(target, q.coverage, ref)
  }

  lemma CallGrows(turn: Turn, c: Calling, call: ToolCall, dispatch: Dispatch, content: string, reasoning: string)
    ensures Grows(c.progress, turn.AfterCall(c, call, dispatch, content, reasoning).progress)
  {
    var after := turn.AfterCall(c, call, dispatch, content, reasoning).progress;
    if turn.Runs(call) {
      var outcome := turn.tools.execute(c.progress.toolCallCount + 1, dispatch).outcome;
      forall target, ref | IsHandled(target, c.progress.coverage, ref)
        ensures IsHandled(target, after.coverage, ref)
      {
        AbsorbingIsExact(target, c.progress.coverage, outcome, ref);
      }
    }
  }

  lemma {:induction false} CallsGrow(turn: Turn, p: Progress, calls: seq<ToolCall>, dispatches: seq<Dispatch>,
                                     text: string, reasoning: string)
    requires |dispatches| == |calls|
    ensures Grows(p, turn.AfterCalls(p, calls, dispatches, text, reasoning).progress)
  {
    if calls != [] {
      var n := |calls| - 1;
      CallsGrow(turn, p, calls[..n], dispatches[..n], text, reasoning);
      CallGrows(turn, turn.AfterCalls(p, calls[..n], dispatches[..n], text, reasoning), calls[n], dispatches[n],
                if n == 0 then text else "", reasoning);
    }
  }

  /** What the calls of a response that is no repeat came to. */
  lemma CallsOf(turn: Turn, s: State, text: string, reasoning: string, calls: seq<ToolCall>, s': State, flow: Flow)
    returns (dispatches: seq<Dispatch>, after: Calling)
    requires turn.CallsLead(s, text, reasoning, calls, s', flow) && s.previousSignature != Some(Signature(calls))
    ensures turn.AreDispatches(s.progress, calls, dispatches, turn.TurnText(text), reasoning)
    ensures after == turn.AfterCalls(s.progress, calls, dispatches, turn.TurnText(text), reasoning)
    ensures flow == turn.FlowAfter(after.noted) && s' == turn.AfterResponse(s, calls, after)
  {
    dispatches, after :| turn.AreRun(s.progress, calls, dispatches, text, reasoning, after)
                         && flow == turn.FlowAfter(after.noted) && s' == turn.AfterResponse(s, calls, after);
  }

  lemma CallsLeadGrows(turn: Turn, s: State, text: string, reasoning: string, calls: seq<ToolCall>, s': State,
                       flow: Flow)
    requires turn.CallsLead(s, text, reasoning, calls, s', flow)
    ensures Grows(s.progress, s'.progress)
  {
    if s.previousSignature != Some(Signature(calls)) {
      var dispatches, after := CallsOf(turn, s, text, reasoning, calls, s', flow);
      CallsGrow(turn, s.progress, calls, dispatches, turn.TurnText(text), reasoning);
    }
  }

  /** A text without calls adds messages only; asking again lets the model repeat its calls. */
  lemma FinalKeepsProgress(turn: Turn, s: State, given: string, s': State, flow: Flow)
    requires turn.FinalLeads(s, given, s', flow)
    ensures s'.progress == s.progress.(messages := s'.progress.messages) && s.progress.messages <= s'.progress.messages
    ensures s'.previousSignature == (if flow == Again then None else s.previousSignature) && s'.repeated == s.repeated
  {
  }

  lemma RoundGrows(turn: Turn, rounds: seq<Round>, abortedAt: nat -> bool, k: nat)
    requires k < |rounds| && turn.IsRound(k, rounds[k], abortedAt)
    ensures Grows(rounds[k].before.progress, rounds[k].after.progress)
  {
    var answer, s := AnswerAt(turn, rounds, k), rounds[k].before.WithMessages(rounds[k].sent);
    RoundEnds(turn, rounds, abortedAt, k);
    if GoesOn(turn, rounds, abortedAt, k) {
      if answer.calls == [] {
        FinalKeepsProgress(turn, s, answer.text, rounds[k].after, rounds[k].flow);
      } else {
        CallsLeadGrows(turn, s, answer.text, answer.reasoning, answer.calls, rounds[k].after, rounds[k].flow);
      }
    }
  }

  /**
   A turn forgets no tool call, preview, target set or search item, and a reference once handled stays handled
   for every target set: compaction shortens what is sent and nothing else.
   */
  lemma {:induction false} NothingIsForgotten(turn: Turn, from: State, rounds: seq<Round>, abortedAt: nat -> bool,
                                              to: State)
    requires IsRun(turn, from, rounds, abortedAt, to)
    ensures Grows(from.progress, to.progress)
    decreases |rounds|
  {
    if rounds != [] {
      var n := |rounds| - 1;
      WithoutLast(turn, from, rounds, abortedAt, to);
      NothingIsForgotten(turn, from, rounds[..n], abortedAt, rounds[n].before);
      RoundGrows(turn, rounds, abortedAt, n);
    }
  }

  // ----- What a response with calls adds -----

  /**
   What is dispatched for call `k` of a response: the call itself, unless, with guarded writes, the newest target
   set still incomplete when its turn came lets a plan stand for it.
   */
  lemma DispatchIsExact(turn: Turn, p: Progress, calls: seq<ToolCall>, dispatches: seq<Dispatch>, text: string,
                        reasoning: string, k: nat, now: Progress, targets: seq<TargetSet>)
    requires turn.AreDispatches(p, calls, dispatches, text, reasoning) && k < |calls| && turn.Runs(calls[k])
    requires now == turn.Carried(turn.AfterCalls(p, calls[..k], dispatches[..k], text, reasoning).progress, calls[k],
                                 if k == 0 then text else "", reasoning)
    requires ArePlanTargets(targets, turn.settings, turn.tools, now.messages, now.targetSets, text, calls[k])
    ensures dispatches[k].call == calls[k]
    ensures dispatches[k].Planned? <==>
              && turn.settings.guarded && "prepare_mutation_plan" in turn.settings.writeTools
              && turn.Parsed(calls[k]).Object?
              && exists l, missing ::
                   IsNewest(l, targets, now.coverage, false) && AreMissing(missing, targets[l], now.coverage)
                   && IsReplaceable(targets[l], missing, turn.settings, turn.tools, calls[k],
                                    turn.Parsed(calls[k]).members)
  {
    assert turn.IsDispatchedAt(p, calls, dispatches, k, text, reasoning);
    PlannedExactly(turn, now, dispatches[k], text, calls[k], targets);
  }

  lemma PlannedExactly(turn: Turn, now: Progress, dispatch: Dispatch, text: string, call: ToolCall,
                       targets: seq<TargetSet>)
    requires turn.IsDispatchFor(dispatch, now.messages, now.targetSets, now.coverage, text, call)
    requires ArePlanTargets(targets, turn.settings, turn.tools, now.messages, now.targetSets, text, call)
    ensures dispatch.call == call
    ensures dispatch.Planned? <==>
              && turn.settings.guarded && "prepare_mutation_plan" in turn.settings.writeTools
              && turn.Parsed(call).Object?
              && exists l, missing ::
                   IsNewest(l, targets, now.coverage, false) && AreMissing(missing, targets[l], now.coverage)
                   && IsReplaceable(targets[l], missing, turn.settings, turn.tools, call, turn.Parsed(call).members)
  {
    var plan :| IsPlanFor(plan, turn.settings, turn.tools, now.messages, now.targetSets, now.coverage, text, call,
                          turn.Parsed(call))
                && dispatch == if plan.Some? then Planned(call, plan.value) else Direct(call);
    PlanIsBuiltExactly(plan, turn.settings, turn.tools, now.messages, now.targetSets, now.coverage, text, call,
                       turn.Parsed(call), targets);
  }

  /**
   What a response whose calls were run leads to: they are run with its text, or without it when writes are guarded and
   it holds raw tool markup; a search without progress is told to the model and lets it repeat itself, or ends the
   turn the second time.
   */
  lemma ResponseIsExact(turn: Turn, s: State, text: string, reasoning: string, calls: seq<ToolCall>, s': State,
                        flow: Flow)
    returns (dispatches: seq<Dispatch>, after: Calling)
    requires turn.CallsLead(s, text, reasoning, calls, s', flow) && s.previousSignature != Some(Signature(calls))
    ensures var shown := if turn.settings.guarded && turn.wording.rawMarkup(text) then "" else text;
            && turn.AreDispatches(s.progress, calls, dispatches, shown, reasoning)
            && after == turn.AfterCalls(s.progress, calls, dispatches, shown, reasoning)
    ensures s'.progress.messages
         == after.progress.messages
            + if after.noted == Some(SearchAllProgress.Repair)
              then [Message(User, turn.wording.instruction(SearchNoProgress), "", [], None)] else []
    ensures after.progress.search.repairRetries
         == s.progress.search.repairRetries + (if after.noted == Some(SearchAllProgress.Repair) then 1 else 0)
    ensures s'.progress == after.progress.(messages := s'.progress.messages) && s'.repeated == 0
    ensures s'.previousSignature
         == if after.noted == Some(SearchAllProgress.Repair) then None else Some(Signature(calls))
    ensures if after.noted == Some(SearchAllProgress.Fail) then flow == Stop(ErrorEnd(NoProgress)) else flow == Again
  {
    dispatches, after := CallsOf(turn, s, text, reasoning, calls, s', flow);
    NotedIsCounted(turn, s.progress, calls, dispatches, turn.TurnText(text), reasoning);
  }

  // ----- Repeated calls -----

  lemma {:induction false} SameCallsSign(a: seq<ToolCall>, b: seq<ToolCall>)
    requires SameCalls(a, b)
    ensures Signature(a) == Signature(b)
  {
    if |a| > 1 {
      assert SameCalls(a[1..], b[1..]) by {
        forall k | 0 <= k < |a[1..]|
          ensures a[1..][k].name == b[1..][k].name && a[1..][k].arguments == b[1..][k].arguments
        {
          assert a[1..][k] == a[k + 1] && b[1..][k] == b[k + 1];
        }
      }
      SameCallsSign(a[1..], b[1..]);
    }
  }

  /** The first search without progress that asks for another way is the one repair it counts. */
  lemma {:induction false} NotedIsCounted(turn: Turn, p: Progress, calls: seq<ToolCall>, dispatches: seq<Dispatch>,
                                          text: string, reasoning: string)
    requires |dispatches| == |calls|
    ensures var after := turn.AfterCalls(p, calls, dispatches, text, reasoning);
            after.progress.search.repairRetries
            == p.search.repairRetries + (if after.noted == Some(SearchAllProgress.Repair) then 1 else 0)
  {
    if calls != [] {
      var n := |calls| - 1;
      NotedIsCounted(turn, p, calls[..n], dispatches[..n], text, reasoning);
    }
  }

  /** The response of round `k` has these calls, and the turn is not aborted before they are looked at. */
  ghost predicate Calls(turn: Turn, rounds: seq<Round>, abortedAt: nat -> bool, k: nat, calls: seq<ToolCall>)
    requires k < |rounds|
  {
    GoesOn(turn, rounds, abortedAt, k) && calls != [] && SameCalls(AnswerAt(turn, rounds, k).calls, calls)
  }

  /** No search without progress was noted in round `k`. */
  ghost predicate IsUnnoted(rounds: seq<Round>, k: nat)
    requires k < |rounds|
  {
    rounds[k].after.progress.search.repairRetries == rounds[k].before.progress.search.repairRetries
  }

  lemma CallsAreSigned(turn: Turn, s: State, text: string, reasoning: string, calls: seq<ToolCall>, s': State,
                       flow: Flow)
    requires turn.CallsLead(s, text, reasoning, calls, s', flow)
    requires s'.progress.search.repairRetries == s.progress.search.repairRetries
    ensures s'.previousSignature == Some(Signature(calls))
  {
    if s.previousSignature != Some(Signature(calls)) {
      var dispatches, after := CallsOf(turn, s, text, reasoning, calls, s', flow);
      NotedIsCounted(turn, s.progress, calls, dispatches, turn.TurnText(text), reasoning);
    }
  }

  lemma CallsAreRemembered(turn: Turn, rounds: seq<Round>, abortedAt: nat -> bool, k: nat, calls: seq<ToolCall>)
    requires k < |rounds| && turn.IsRound(k, rounds[k], abortedAt)
    requires Calls(turn, rounds, abortedAt, k, calls) && IsUnnoted(rounds, k)
    ensures rounds[k].after.previousSignature == Some(Signature(calls))
  {
    var answer, s := AnswerAt(turn, rounds, k), rounds[k].before.WithMessages(rounds[k].sent);
    SameCallsSign(answer.calls, calls);
    CallsAreSigned(turn, s, answer.text, answer.reasoning, answer.calls, rounds[k].after, rounds[k].flow);
  }

  /**
   A response with the same calls as the one before it is never run: it adds no call, no preview and no coverage,
   only the instruction to do something else, which is given at most twice in a row.
   */
  lemma RepeatedCallsAreNotRun(turn: Turn, from: State, rounds: seq<Round>, abortedAt: nat -> bool, to: State, k: nat,
                               calls: seq<ToolCall>)
    requires IsRun(turn, from, rounds, abortedAt, to) && k + 1 < |rounds|
    requires Calls(turn, rounds, abortedAt, k, calls) && Calls(turn, rounds, abortedAt, k + 1, calls)
    requires IsUnnoted(rounds, k)
    ensures var before, after := rounds[k + 1].before, rounds[k + 1].after;
            && after.progress == before.progress.(messages := after.progress.messages)
            && after.previousSignature == before.previousSignature && after.counts == before.counts
            && if before.repeated < 2 then
                 && rounds[k + 1].flow == Again && after.repeated == before.repeated + 1
                 && after.progress.messages
                    == rounds[k + 1].sent + [UserMessage(turn.wording.instruction(RepeatedToolCall))]
               else
                 rounds[k + 1].flow == Stop(ErrorEnd(NoProgress)) && after.progress.messages == rounds[k + 1].sent
  {
    assert Joins(rounds[k], rounds[k + 1]);
    CallsAreRemembered(turn, rounds, abortedAt, k, calls);
    SameCallsSign(AnswerAt(turn, rounds, k + 1).calls, calls);
  }

  /** A model that gives the same calls four times in a row ends the turn. */
  lemma FourthRepeatEnds(turn: Turn, from: State, rounds: seq<Round>, abortedAt: nat -> bool, to: State, k: nat,
                         calls: seq<ToolCall>)
    requires IsRun(turn, from, rounds, abortedAt, to) && k + 3 < |rounds|
    requires forall l: nat | k <= l <= k + 3 :: Calls(turn, rounds, abortedAt, l, calls)
    requires IsUnnoted(rounds, k)
    ensures rounds[k + 3].flow == Stop(ErrorEnd(NoProgress))
  {
    RepeatedCallsAreNotRun(turn, from, rounds, abortedAt, to, k, calls);
    assert Joins(rounds[k + 1], rounds[k + 2]);
    RepeatedCallsAreNotRun(turn, from, rounds, abortedAt, to, k + 1, calls);
    assert Joins(rounds[k + 2], rounds[k + 3]);
    RepeatedCallsAreNotRun(turn, from, rounds, abortedAt, to, k + 2, calls);
  }
}
