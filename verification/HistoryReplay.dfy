/**
 Rebuilding the provider messages of a conversation from its persisted rows
 (`backend/src/ai/ai-chat-orchestrator.service.ts`).  Rows may be anything an interrupted or older turn
 left behind; what comes out is always well paired.
 */
module HistoryReplay {
  import opened Wrappers
  import opened ProviderMessages
  import opened Trimming

  datatype RowRole = UserRow | AssistantRow | ToolRow | OtherRow

  /** One persisted tool call: an object with string fields where they are strings, or something else. */
  datatype RawCall = RawCall(id: Option<string>, name: Option<string>, arguments: Option<string>) | NotAnObject

  /** `toolCalls` is none when the column holds no array; `reasoning` is what its provider metadata gives. */
  datatype Row = Row(role: RowRole, content: string, toolCalls: Option<seq<RawCall>>, reasoning: Option<string>)

  /**
   The text functions of the replay: whether arguments parse, the call id a persisted tool content
   names, the content of a user row, and a text without inline images.
   */
  datatype Texts = Texts(
    parses: string -> bool,
    toolCallIdOf: string -> Option<string>,
    userContent: string -> string,
    withoutImages: string -> string)

  function TextOr(text: Option<string>, default: string): string {
    if text.Some? then text.value else default
  }

  /** The replayable form of one persisted call, when its id and name are not blank and its arguments parse. */
  function SanitizedCall(t: Texts, raw: RawCall): Option<ToolCall> {
    if raw.NotAnObject? then None
    else
      var call := ToolCall(Trim(TextOr(raw.id, "")), Trim(TextOr(raw.name, "")), TextOr(raw.arguments, ""));
      if call.id == "" || call.name == "" || !t.parses(if call.arguments == "" then "{}" else call.arguments) then None
      else Some(call)
  }

  function Sanitized(t: Texts, raw: seq<RawCall>): seq<ToolCall> {
    if raw == [] then []
    else
      var last := SanitizedCall(t, raw[|raw| - 1]);
      Sanitized(t, raw[..|raw| - 1]) + if last.Some? then [last.value] else []
  }

  /** The call a persisted one stands for: id and name without space around them, not blank; arguments that parse. */
  ghost predicate StandsFor(t: Texts, raw: RawCall, call: ToolCall) {
    && raw.RawCall? && raw.id.Some? && raw.name.Some?
    && IsTrimmed(call.id, raw.id.value) && call.id != "" && IsTrimmed(call.name, raw.name.value) && call.name != ""
    && call.arguments == (if raw.arguments == None then "" else raw.arguments.value)
    && t.parses(if call.arguments == "" then "{}" else call.arguments)
  }

  lemma SanitizedCallIsExact(t: Texts, raw: RawCall, call: ToolCall)
    ensures SanitizedCall(t, raw) == Some(call) <==> StandsFor(t, raw, call)
  {
    if raw.RawCall? {
      TrimIsExact(call.id, TextOr(raw.id, ""));
      TrimIsExact(call.name, TextOr(raw.name, ""));
      TrimIsExact("", "");
    }
  }

  /** The calls replayed of an assistant row are exactly those its persisted calls stand for. */
  lemma {:induction false} SanitizedHolds(t: Texts, raw: seq<RawCall>, call: ToolCall)
    ensures call in Sanitized(t, raw) <==> exists k :: 0 <= k < |raw| && StandsFor(t, raw[k], call)
  {
    if raw != [] {
      var n := |raw| - 1;
      SanitizedHolds(t, raw[..n], call);
      SanitizedCallIsExact(t, raw[n], call);
      assert forall k | 0 <= k < n :: raw[..n][k] == raw[k];
    }
  }

  /** They come in the order they were persisted in. */
  lemma {:induction false} SanitizedInOrder(t: Texts, a: seq<RawCall>, b: seq<RawCall>)
    ensures Sanitized(t, a + b) == Sanitized(t, a) + Sanitized(t, b)
  {
    if b == [] {
      assert a + b == a;
    } else {
      var n := |b| - 1;
      SanitizedInOrder(t, a, b[..n]);
      assert (a + b)[..|a + b| - 1] == a + b[..n];
    }
  }

  /** `sanitizeReplayToolCalls`; no call left is the same as none. */
  method SanitizeReplayToolCalls(t: Texts, raw: Option<seq<RawCall>>) returns (calls: seq<ToolCall>)
    ensures calls == if raw.Some? then Sanitized(t, raw.value) else []
  {
    calls := [];
    if raw.None? {
      return;
    }
    for k := 0 to |raw.value|
      invariant calls == Sanitized(t, raw.value[..k])
    {
      assert raw.value[..k + 1][..k] == raw.value[..k];
      var call := SanitizedCall(t, raw.value[k]);
      if call.Some? {
        calls := calls + [call.value];
      }
    }
    assert raw.value[..|raw.value|] == raw.value;
  }

  function IdsOf(calls: seq<ToolCall>): set<string> {
    set i | 0 <= i < |calls| :: calls[i].id
  }

  /** The messages replayed so far, and the calls a tool row may still answer. */
  datatype Replayed = Replayed(messages: seq<Message>, open: set<string>)

  /**
   One row.  `needsReasoning`: the endpoint refuses assistant tool calls without their reasoning, so
   such a row is replayed as plain text, or dropped when blank.
   */
  function ReplayRow(t: Texts, needsReasoning: bool, r: Replayed, row: Row): Replayed {
    match row.role
    case OtherRow => r
    case UserRow => Replayed(r.messages + [UserMessage(t.userContent(row.content))], {})
    case AssistantRow =>
      var calls := if row.toolCalls.Some? then Sanitized(t, row.toolCalls.value) else [];
      if needsReasoning && calls != [] && row.reasoning.None? then
        Replayed(if Trim(row.content) == "" then r.messages
                 else r.messages + [AssistantMessage(t.withoutImages(row.content))], {})
      else
        var reasoning := if needsReasoning && calls != [] then row.reasoning.value else "";
        Replayed(r.messages + [Message(Assistant, t.withoutImages(row.content), reasoning, calls, None)], IdsOf(calls))
    case ToolRow =>
      var id := t.toolCallIdOf(row.content);
      if id.None? || id.value !in r.open then r
      else Replayed(r.messages + [ToolMessage(row.content, id.value)], r.open - {id.value})
  }

  function ReplayHistory(t: Texts, needsReasoning: bool, history: seq<Row>): Replayed {
    if history == [] then Replayed([], {})
    else ReplayRow(t, needsReasoning, ReplayHistory(t, needsReasoning, history[..|history| - 1]),
                   history[|history| - 1])
  }

  lemma ReplayRowKeepsPairing(t: Texts, needsReasoning: bool, r: Replayed, row: Row)
    requires WellPaired(r.messages) && Open(r.messages, r.open)
    ensures var after := ReplayRow(t, needsReasoning, r, row);
            WellPaired(after.messages) && Open(after.messages, after.open)
  {
    var after := ReplayRow(t, needsReasoning, r, row);
    if row.role == ToolRow {
      if after != r {
        var id := t.toolCallIdOf(row.content).value;
        AnswerKeepsPairing(r.messages, r.open, row.content, id);
      }
    } else if after.messages != r.messages {
      var m := after.messages[|r.messages|];
      assert after.messages == r.messages + [m];
      PushKeepsPairing(r.messages, m);
      if after.open != {} {
        assert OpenSince(after.messages, after.open, |r.messages|);
      }
    }
  }

  /** For any persisted history, the replayed messages are well paired. */
  lemma {:induction false} ReplayIsWellPaired(t: Texts, needsReasoning: bool, history: seq<Row>)
    ensures WellPaired(ReplayHistory(t, needsReasoning, history).messages)
    ensures Open(ReplayHistory(t, needsReasoning, history).messages, ReplayHistory(t, needsReasoning, history).open)
  {
    if history != [] {
      var init := history[..|history| - 1];
      ReplayIsWellPaired(t, needsReasoning, init);
      ReplayRowKeepsPairing(t, needsReasoning, ReplayHistory(t, needsReasoning, init), history[|history| - 1]);
    }
  }

  /** The loop over the history. */
  method Replay(t: Texts, needsReasoning: bool, history: seq<Row>) returns (messages: seq<Message>)
    ensures messages == ReplayHistory(t, needsReasoning, history).messages
    ensures WellPaired(messages)
  {
    messages := [];
    var replayable: set<string> := {};
    for k := 0 to |history|
      invariant Replayed(messages, replayable) == ReplayHistory(t, needsReasoning, history[..k])
    {
      assert history[..k + 1][..k] == history[..k] && history[..k + 1][k] == history[k];
      var row := history[k];
      match row.role {
        case UserRow =>
          messages := messages + [UserMessage(t.userContent(row.content))];
          replayable := {};
        case AssistantRow =>
          var calls := SanitizeReplayToolCalls(t, row.toolCalls);
          var reasoning: Option<string> := if needsReasoning && calls != [] then row.reasoning else None;
          if needsReasoning && calls != [] && reasoning.None? {
            if Trim(row.content) != "" {
              messages := messages + [AssistantMessage(t.withoutImages(row.content))];
            }
            replayable := {};
            continue;
          }
          messages := messages + [Message(Assistant, t.withoutImages(row.content), TextOr(reasoning, ""), calls, None)];
          replayable := IdsOf(calls);
        case ToolRow =>
          var id := t.toolCallIdOf(row.content);
          if id.None? || id.value !in replayable {
            continue;
          }
          messages := messages + [ToolMessage(row.content, id.value)];
          replayable := replayable - {id.value};
        case OtherRow =>
      }
    }
    assert history[..|history|] == history;
    ReplayIsWellPaired(t, needsReasoning, history);
  }

  // ----- Which replayed calls stay unanswered -----

  /** A tool row that names this call. */
  predicate Names(t: Texts, row: Row, id: string) {
    row.role == ToolRow && t.toolCallIdOf(row.content) == Some(id)
  }

  /** A row that ends the run of tool rows after an assistant row. */
  predicate EndsRun(row: Row) {
    row.role == UserRow || row.role == AssistantRow
  }

  ghost predicate InOneRun(history: seq<Row>, r: nat, k: int) {
    forall j | r < j < k && j < |history| :: !EndsRun(history[j])
  }

  /** A tool row names the call before the next user or assistant row. */
  ghost predicate NamedInRun(t: Texts, history: seq<Row>, r: nat, id: string) {
    exists k :: r < k < |history| && Names(t, history[k], id) && InOneRun(history, r, k)
  }

  /** Row `r` is replayed as the last of `before`, an assistant message that carries call `id`. */
  ghost predicate IsCarriedAt(t: Texts, needsReasoning: bool, history: seq<Row>, r: nat, before: seq<Message>,
                              id: string)
  {
    && r < |history| && history[r].role == AssistantRow
    && before == ReplayHistory(t, needsReasoning, history[..r + 1]).messages
    && id in ReplayHistory(t, needsReasoning, history[..r + 1]).open
  }

  /** How far the replay has got with the call `id` that the last message of `before` carries. */
  ghost predicate Tracked(t: Texts, history: seq<Row>, r: nat, before: seq<Message>, id: string, now: Replayed) {
    && before != [] && before <= now.messages
    && (AnsweredAt(now.messages, |before| - 1, id) <==> NamedInRun(t, history, r, id))
    && (if InOneRun(history, r, |history|)
        then OnlyToolsBetween(now.messages, |before| - 1, |now.messages|)
             && (id in now.open <==> !AnsweredAt(now.messages, |before| - 1, id))
        else now.open == {} || !OnlyToolsBetween(now.messages, |before| - 1, |now.messages|))
  }

  lemma NamedInRunGrows(t: Texts, history: seq<Row>, r: nat, id: string)
    requires r + 1 < |history|
    ensures var init, last := history[..|history| - 1], history[|history| - 1];
            && (InOneRun(history, r, |history|) <==> InOneRun(init, r, |init|) && !EndsRun(last))
            && (NamedInRun(t, history, r, id)
                <==> NamedInRun(t, init, r, id) || (Names(t, last, id) && InOneRun(init, r, |init|)))
  {
    var init, n := history[..|history| - 1], |history| - 1;
    assert InOneRun(history, r, n) <==> InOneRun(init, r, n);
    if k :| r < k < |init| && Names(t, init[k], id) && InOneRun(init, r, k) {
      assert Names(t, history[k], id) && InOneRun(history, r, k);
    }
    if k :| r < k < |history| && Names(t, history[k], id) && InOneRun(history, r, k) {
      if k < n {
        assert Names(t, init[k], id) && InOneRun(init, r, k);
      }
    }
    if Names(t, history[n], id) && InOneRun(init, r, n) {
      assert InOneRun(history, r, n);
    }
  }

  lemma TrackedGrows(t: Texts, needsReasoning: bool, history: seq<Row>, r: nat, before: seq<Message>, id: string,
                     now: Replayed)
    requires r + 1 < |history| && Tracked(t, history[..|history| - 1], r, before, id, now)
    requires before[|before| - 1].role == Assistant && Carries(before[|before| - 1], id)
    ensures Tracked(t, history, r, before, id, ReplayRow(t, needsReasoning, now, history[|history| - 1]))
  {
    NamedInRunGrows(t, history, r, id);
    var row := history[|history| - 1];
    var after := ReplayRow(t, needsReasoning, now, row);
    if after.messages != now.messages {
      var m := after.messages[|now.messages|];
      assert after.messages == now.messages + [m];
      AnsweredGrows(now.messages, m, |before| - 1, id);
    }
  }

  lemma TrackedAtStart(t: Texts, needsReasoning: bool, history: seq<Row>, before: seq<Message>, id: string)
    requires history != [] && IsCarriedAt(t, needsReasoning, history, |history| - 1, before, id)
    ensures Tracked(t, history, |history| - 1, before, id, ReplayHistory(t, needsReasoning, history))
  {
    assert history[..|history|] == history;
    CarriesItsCalls(t, needsReasoning, history, |history| - 1, before, id);
  }

  lemma {:induction false} ReplayIsTracked(t: Texts, needsReasoning: bool, history: seq<Row>, r: nat,
                                           before: seq<Message>, id: string)
    requires IsCarriedAt(t, needsReasoning, history, r, before, id)
    ensures Tracked(t, history, r, before, id, ReplayHistory(t, needsReasoning, history))
    decreases |history|
  {
    var n := |history| - 1;
    if r == n {
      TrackedAtStart(t, needsReasoning, history, before, id);
    } else {
      assert history[..n][..r + 1] == history[..r + 1];
      CarriesItsCalls(t, needsReasoning, history, r, before, id);
      ReplayIsTracked(t, needsReasoning, history[..n], r, before, id);
      TrackedGrows(t, needsReasoning, history, r, before, id, ReplayHistory(t, needsReasoning, history[..n]));
    }
  }

  /**
   A replayed call is answered exactly when a tool row names it before the next user or assistant row of
   the history.
   */
  lemma ReplayedCallIsAnswered(t: Texts, needsReasoning: bool, history: seq<Row>, r: nat, before: seq<Message>,
                               id: string)
    requires IsCarriedAt(t, needsReasoning, history, r, before, id)
    ensures before != [] && before <= ReplayHistory(t, needsReasoning, history).messages
    ensures AnsweredAt(ReplayHistory(t, needsReasoning, history).messages, |before| - 1, id) <==>
              NamedInRun(t, history, r, id)
  {
    ReplayIsTracked(t, needsReasoning, history, r, before, id);
  }

  /** Every message that carries a call is the replay of an assistant row. */
  lemma {:induction false} CarrierComesFromRow(t: Texts, needsReasoning: bool, history: seq<Row>, a: nat, id: string)
    returns (r: nat, before: seq<Message>)
    requires var messages := ReplayHistory(t, needsReasoning, history).messages;
             a < |messages| && Carries(messages[a], id)
    ensures IsCarriedAt(t, needsReasoning, history, r, before, id) && |before| == a + 1
    decreases |history|
  {
    var n := |history| - 1;
    var init := ReplayHistory(t, needsReasoning, history[..n]);
    if a < |init.messages| {
      r, before := CarrierComesFromRow(t, needsReasoning, history[..n], a, id);
      assert history[..n][..r + 1] == history[..r + 1];
    } else {
      r, before := n, ReplayHistory(t, needsReasoning, history).messages;
      assert history[..n + 1] == history;
    }
  }

  /**
   An assistant row that is replayed with its calls, one of them with this id: its reasoning is known when it is
   needed.
   */
  ghost predicate Offers(t: Texts, needsReasoning: bool, row: Row, id: string) {
    && row.role == AssistantRow && row.toolCalls.Some? && (needsReasoning ==> row.reasoning.Some?)
    && exists k, call :: 0 <= k < |row.toolCalls.value| && StandsFor(t, row.toolCalls.value[k], call) && call.id == id
  }

  lemma OpenAfterAssistant(t: Texts, needsReasoning: bool, history: seq<Row>, r: nat, id: string)
    requires r < |history| && history[r].role == AssistantRow
    ensures id in ReplayHistory(t, needsReasoning, history[..r + 1]).open <==> Offers(t, needsReasoning, history[r], id)
  {
    var row := history[r];
    assert history[..r + 1][..r] == history[..r] && history[..r + 1][r] == row;
    if row.toolCalls.Some? {
      var raw := row.toolCalls.value;
      var calls := Sanitized(t, raw);
      if i :| 0 <= i < |calls| && calls[i].id == id {
        SanitizedHolds(t, raw, calls[i]);
      }
      if k, call :| 0 <= k < |raw| && StandsFor(t, raw[k], call) && call.id == id {
        SanitizedHolds(t, raw, call);
        var i :| 0 <= i < |calls| && calls[i] == call;
        assert id in IdsOf(calls);
      }
    }
  }

  /** A persisted call that is replayed and that no tool row names before the next user or assistant row. */
  ghost predicate IsPersistedUnanswered(t: Texts, needsReasoning: bool, history: seq<Row>, r: nat, id: string) {
    r < |history| && Offers(t, needsReasoning, history[r], id) && !NamedInRun(t, history, r, id)
  }

  ghost predicate HistoryLeavesUnanswered(t: Texts, needsReasoning: bool, history: seq<Row>) {
    exists r: nat, id :: IsPersistedUnanswered(t, needsReasoning, history, r, id)
  }

  /** A replayed request leaves a call unanswered exactly when the history does. */
  lemma ReplayLeavesUnanswered(t: Texts, needsReasoning: bool, history: seq<Row>)
    ensures LeavesUnanswered(ReplayHistory(t, needsReasoning, history).messages)
       <==> HistoryLeavesUnanswered(t, needsReasoning, history)
  {
    var messages := ReplayHistory(t, needsReasoning, history).messages;
    if a: nat, id :| IsUnanswered(messages, a, id) {
      var r, before := CarrierComesFromRow(t, needsReasoning, history, a, id);
      ReplayedCallIsAnswered(t, needsReasoning, history, r, before, id);
      OpenAfterAssistant(t, needsReasoning, history, r, id);
      assert IsPersistedUnanswered(t, needsReasoning, history, r, id);
    }
    if r: nat, id :| IsPersistedUnanswered(t, needsReasoning, history, r, id) {
      var before := ReplayHistory(t, needsReasoning, history[..r + 1]).messages;
      OpenAfterAssistant(t, needsReasoning, history, r, id);
      CarriesItsCalls(t, needsReasoning, history, r, before, id);
      ReplayedCallIsAnswered(t, needsReasoning, history, r, before, id);
      assert IsUnanswered(messages, |before| - 1, id);
    }
  }

  /** The last message of `before` is an assistant message that carries the call. */
  lemma CarriesItsCalls(t: Texts, needsReasoning: bool, history: seq<Row>, r: nat, before: seq<Message>, id: string)
    requires IsCarriedAt(t, needsReasoning, history, r, before, id)
    ensures before != [] && before[|before| - 1].role == Assistant && Carries(before[|before| - 1], id)
  {
    assert history[..r + 1][..r] == history[..r] && history[..r + 1][r] == history[r];
    var row := history[r];
    var calls := if row.toolCalls.Some? then Sanitized(t, row.toolCalls.value) else [];
    assert before[|before| - 1].toolCalls == calls;
  }

  /** A call that the last assistant row offers, and that no tool row has named since. */
  ghost predicate IsOpen(t: Texts, needsReasoning: bool, history: seq<Row>, id: string) {
    exists r :: 0 <= r < |history| && Offers(t, needsReasoning, history[r], id)
                && InOneRun(history, r, |history|) && !NamedInRun(t, history, r, id)
  }

  /** The calls a tool row may still answer are exactly those. */
  lemma {:induction false} OpenIsExact(t: Texts, needsReasoning: bool, history: seq<Row>, id: string)
    ensures id in ReplayHistory(t, needsReasoning, history).open <==> IsOpen(t, needsReasoning, history, id)
  {
    if history != [] {
      var n := |history| - 1;
      var init, row := history[..n], history[n];
      OpenIsExact(t, needsReasoning, init, id);
      if row.role == AssistantRow {
        assert history[..n + 1] == history;
        OpenAfterAssistant(t, needsReasoning, history, n, id);
        assert InOneRun(history, n, |history|) && !NamedInRun(t, history, n, id);
      } else {
        forall r | 0 <= r < n && Offers(t, needsReasoning, history[r], id)
          ensures init[r] == history[r]
          ensures InOneRun(history, r, |history|) && !NamedInRun(t, history, r, id) <==>
                    InOneRun(init, r, n) && !NamedInRun(t, init, r, id) && !EndsRun(row) && !Names(t, row, id)
        {
          NamedInRunGrows(t, history, r, id);
        }
        OpenOfOneMore(t, needsReasoning, history, id);
      }
    }
  }

  lemma OpenOfOneMore(t: Texts, needsReasoning: bool, history: seq<Row>, id: string)
    requires history != [] && history[|history| - 1].role != AssistantRow
    requires var n := |history| - 1;
             forall r | 0 <= r < n && Offers(t, needsReasoning, history[r], id) ::
               history[..n][r] == history[r]
               && (InOneRun(history, r, |history|) && !NamedInRun(t, history, r, id) <==>
                     && InOneRun(history[..n], r, n) && !NamedInRun(t, history[..n], r, id)
                     && !EndsRun(history[n]) && !Names(t, history[n], id))
    ensures var n := |history| - 1;
            IsOpen(t, needsReasoning, history, id) <==>
              IsOpen(t, needsReasoning, history[..n], id) && !EndsRun(history[n]) && !Names(t, history[n], id)
  {
    var n := |history| - 1;
    if r :| 0 <= r < |history| && Offers(t, needsReasoning, history[r], id) && InOneRun(history, r, |history|)
            && !NamedInRun(t, history, r, id) {
      assert r < n && history[..n][r] == history[r];
    }
    if r :| 0 <= r < n && Offers(t, needsReasoning, history[..n][r], id) && InOneRun(history[..n], r, n)
            && !NamedInRun(t, history[..n], r, id) {
      assert history[..n][r] == history[r];
    }
  }

  /**
   What one row more adds to the replay: a user row its text; an assistant row its text with its calls, or only
   its text, unless blank, when its reasoning is missing; a tool row its result exactly when it names an open
   call; any other row nothing.
   */
  lemma RowIsReplayed(t: Texts, needsReasoning: bool, history: seq<Row>, row: Row)
    ensures var before := ReplayHistory(t, needsReasoning, history).messages;
            var after := ReplayHistory(t, needsReasoning, history + [row]).messages;
            match row.role {
              case UserRow => after == before + [Message(User, t.userContent(row.content), "", [], None)]
              case OtherRow => after == before
              case ToolRow =>
                && (forall id | Names(t, row, id) && IsOpen(t, needsReasoning, history, id) ::
                      after == before + [Message(Tool, row.content, "", [], Some(id))])
                && ((forall id | Names(t, row, id) :: !IsOpen(t, needsReasoning, history, id)) ==> after == before)
              case AssistantRow =>
                var calls := if row.toolCalls == None then [] else Sanitized(t, row.toolCalls.value);
                if calls == [] || !needsReasoning then
                  after == before + [Message(Assistant, t.withoutImages(row.content), "", calls, None)]
                else if row.reasoning.Some? then
                  after == before + [Message(Assistant, t.withoutImages(row.content), row.reasoning.value, calls, None)]
                else if IsBlank(row.content) then after == before
                else after == before + [Message(Assistant, t.withoutImages(row.content), "", [], None)]
            }
  {
    var all := history + [row];
    assert all[..|history|] == history && all[|history|] == row;
    TrimIsExact("", row.content);
    if row.role == ToolRow && t.toolCallIdOf(row.content).Some? {
      OpenIsExact(t, needsReasoning, history, t.toolCallIdOf(row.content).value);
    }
  }

  lemma ReplayOfTwo(t: Texts, needsReasoning: bool, history: seq<Row>, first: Row, second: Row)
    ensures ReplayHistory(t, needsReasoning, history + [first, second])
         == ReplayRow(t, needsReasoning, ReplayRow(t, needsReasoning, ReplayHistory(t, needsReasoning, history), first),
                      second)
  {
    var all := history + [first, second];
    assert all[..|all| - 1] == history + [first] && (history + [first])[..|history|] == history;
  }

  lemma SanitizedOne(t: Texts, raw: RawCall, call: ToolCall)
    requires SanitizedCall(t, raw) == Some(call)
    ensures Sanitized(t, [raw]) == [call]
  {
    assert [raw][..0] == [] && Sanitized(t, []) == [];
  }

  lemma CallThenResult(t: Texts, needsReasoning: bool, before: Replayed, assistant: Row, tool: Row, call: ToolCall)
    requires assistant.role == AssistantRow && tool.role == ToolRow
    requires assistant.toolCalls.Some? && Sanitized(t, assistant.toolCalls.value) == [call]
    requires t.toolCallIdOf(tool.content) == Some(call.id) && (needsReasoning ==> assistant.reasoning.Some?)
    ensures ReplayRow(t, needsReasoning, ReplayRow(t, needsReasoning, before, assistant), tool).messages
         == before.messages
            + [Message(Assistant, t.withoutImages(assistant.content),
                       if needsReasoning then assistant.reasoning.value else "", [call], None),
               ToolMessage(tool.content, call.id)]
  {
    assert [call][0].id in IdsOf([call]);
  }

  /**
   What the live loop persists comes back: an assistant row with one call whose id and name are not blank
   and whose arguments parse, and the tool row naming that call, are replayed as the trimmed call and its
   result, whatever came before them.
   */
  lemma PersistedCallIsReplayed(t: Texts, needsReasoning: bool, history: seq<Row>, content: string,
                                reasoning: Option<string>, persisted: ToolCall, call: ToolCall, result: string)
    requires call == ToolCall(Trim(persisted.id), Trim(persisted.name), persisted.arguments)
    requires call.id != "" && call.name != ""
    requires t.parses(if call.arguments == "" then "{}" else call.arguments)
    requires t.toolCallIdOf(result) == Some(call.id) && (needsReasoning ==> reasoning.Some?)
    ensures var raw := RawCall(Some(persisted.id), Some(persisted.name), Some(persisted.arguments));
            var rows := [Row(AssistantRow, content, Some([raw]), reasoning), Row(ToolRow, result, None, None)];
            ReplayHistory(t, needsReasoning, history + rows).messages
            == ReplayHistory(t, needsReasoning, history).messages
               + [Message(Assistant, t.withoutImages(content), if needsReasoning then reasoning.value else "",
                          [call], None),
                  ToolMessage(result, call.id)]
  {
    var raw := RawCall(Some(persisted.id), Some(persisted.name), Some(persisted.arguments));
    var assistant, tool := Row(AssistantRow, content, Some([raw]), reasoning), Row(ToolRow, result, None, None);
    ReplayOfTwo(t, needsReasoning, history, assistant, tool);
    SanitizedOne(t, raw, call);
    CallThenResult(t, needsReasoning, ReplayHistory(t, needsReasoning, history), assistant, tool, call);
  }
}
