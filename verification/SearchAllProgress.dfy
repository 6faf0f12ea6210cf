/**
 Noticing that a turn's `search_all` calls find nothing new
 (`backend/src/ai/ai-chat-orchestrator.service.ts`, `recordSearchAllProgress`).
 */
module SearchAllProgress {
  import opened Wrappers

  const MAX_REPAIR_RETRIES := 1

  datatype Action = Repair | Fail

  datatype Progress = Progress(calls: nat, noProgressCalls: nat, repairRetries: nat, seenItemKeys: set<string>)

  const Initial := Progress(0, 0, 0, {})

  function KeySet(itemKeys: seq<string>): set<string> {
    set k | 0 <= k < |itemKeys| :: itemKeys[k]
  }

  /** The length of the run of calls without a new item, this one included. */
  function Streak(p: Progress, itemKeys: seq<string>): nat {
    if KeySet(itemKeys) <= p.seenItemKeys then p.noProgressCalls + 1 else 0
  }

  function ActionOf(p: Progress, threshold: nat, itemKeys: seq<string>): Option<Action> {
    if Streak(p, itemKeys) < threshold then None
    else if p.repairRetries < MAX_REPAIR_RETRIES then Some(Repair)
    else Some(Fail)
  }

  function Recorded(p: Progress, threshold: nat, itemKeys: seq<string>): Progress {
    var repaired := ActionOf(p, threshold, itemKeys) == Some(Repair);
    Progress(p.calls + 1, if repaired then 0 else Streak(p, itemKeys), p.repairRetries + (if repaired then 1 else 0),
             p.seenItemKeys + KeySet(itemKeys))
  }

  class State {
    var calls: nat
    var noProgressCalls: nat
    var repairRetries: nat
    var seenItemKeys: set<string>

    ghost function View(): Progress
      reads this
    {
      Progress(calls, noProgressCalls, repairRetries, seenItemKeys)
    }

    constructor ()
      ensures View() == Initial
    {
      calls, noProgressCalls, repairRetries, seenItemKeys := 0, 0, 0, {};
    }

    /** Records one call; only `search_all` counts. */
    method Record(threshold: nat, toolName: string, itemKeys: seq<string>) returns (r: Option<Action>)
      modifies this
      ensures toolName != "search_all" ==> r == None && View() == old(View())
      ensures toolName == "search_all" ==>
                r == ActionOf(old(View()), threshold, itemKeys) && View() == Recorded(old(View()), threshold, itemKeys)
    {
      if toolName != "search_all" {
        return None;
      }
      var newKeys: set<string> := {};
      for k := 0 to |itemKeys|
        invariant newKeys == (set j | 0 <= j < k && itemKeys[j] !in seenItemKeys :: itemKeys[j])
      {
        if itemKeys[k] !in seenItemKeys {
          newKeys := newKeys + {itemKeys[k]};
        }
      }
      assert newKeys == KeySet(itemKeys) - seenItemKeys;
      assert KeySet(itemKeys) <= seenItemKeys + newKeys && newKeys !! seenItemKeys;
      seenItemKeys := seenItemKeys + KeySet(itemKeys);
      calls := calls + 1;
      if newKeys == {} {
        noProgressCalls := noProgressCalls + 1;
      } else {
        noProgressCalls := 0;
      }
      if noProgressCalls < threshold {
        return None;
      }
      if repairRetries < MAX_REPAIR_RETRIES {
        repairRetries := repairRetries + 1;
        noProgressCalls := 0;
        return Some(Repair);
      }
      r := Some(Fail);
    }
  }

  ghost function RecordedAll(threshold: nat, calls: seq<seq<string>>): Progress {
    if calls == [] then Initial
    else Recorded(RecordedAll(threshold, calls[..|calls| - 1]), threshold, calls[|calls| - 1])
  }

  lemma {:induction false} EveryCallIsCounted(threshold: nat, calls: seq<seq<string>>)
    ensures var p := RecordedAll(threshold, calls);
            p.calls == |calls| && p.repairRetries <= MAX_REPAIR_RETRIES
            && |calls| >= p.repairRetries * threshold + p.noProgressCalls
    ensures forall k, i | 0 <= k < |calls| && 0 <= i < |calls[k]| ::
              calls[k][i] in RecordedAll(threshold, calls).seenItemKeys
  {
    if calls != [] {
      var init := calls[..|calls| - 1];
      EveryCallIsCounted(threshold, init);
      assert forall k | 0 <= k < |init| :: init[k] == calls[k];
    }
  }

  /** An earlier call returned this item. */
  ghost predicate CameFrom(calls: seq<seq<string>>, key: string) {
    exists k :: 0 <= k < |calls| && key in calls[k]
  }

  /** Call `k` returned only items that earlier calls had returned. */
  ghost predicate FindsNothingNew(calls: seq<seq<string>>, k: int)
    requires 0 <= k < |calls|
  {
    forall key | key in calls[k] :: CameFrom(calls[..k], key)
  }

  /** The last `length` calls found nothing new. */
  ghost predicate IsRun(calls: seq<seq<string>>, length: int) {
    length <= |calls| && forall k | 0 <= k < |calls| && |calls| - length <= k :: FindsNothingNew(calls, k)
  }

  lemma RunGrows(calls: seq<seq<string>>, length: nat)
    requires calls != []
    ensures IsRun(calls, length + 1) <==>
              FindsNothingNew(calls, |calls| - 1) && IsRun(calls[..|calls| - 1], length)
  {
    var init := calls[..|calls| - 1];
    assert forall k | 0 <= k < |init| :: calls[..k] == init[..k] && calls[k] == init[k];
    assert forall k | 0 <= k < |init| :: FindsNothingNew(calls, k) <==> FindsNothingNew(init, k);
    if IsRun(calls, length + 1) {
      forall k | 0 <= k < |init| && |init| - length <= k
        ensures FindsNothingNew(init, k)
      {
        assert FindsNothingNew(calls, k);
      }
    }
  }

  lemma CameFromGrows(calls: seq<seq<string>>, key: string)
    requires calls != []
    ensures CameFrom(calls, key) <==> CameFrom(calls[..|calls| - 1], key) || key in calls[|calls| - 1]
  {
    var init := calls[..|calls| - 1];
    if k :| 0 <= k < |calls| && key in calls[k] {
      assert k < |init| ==> key in init[k];
    }
    if k :| 0 <= k < |init| && key in init[k] {
      assert key in calls[k];
    }
  }

  /** The longest run of calls without a new item that started after the first `since` calls. */
  ghost predicate IsLongestRun(calls: seq<seq<string>>, since: nat, length: nat) {
    since + length <= |calls| && IsRun(calls, length) && (since + length < |calls| ==> !IsRun(calls, length + 1))
  }

  /**
   What the counters mean, over any sequence of calls: the counter is the length of the longest run without a new
   item at the end, since the one repair when there was one; and a repair ended a run of `threshold` calls.
   */
  lemma {:induction false} RunIsExact(threshold: nat, calls: seq<seq<string>>) returns (since: nat)
    ensures var p := RecordedAll(threshold, calls);
            && IsLongestRun(calls, since, p.noProgressCalls) && p.calls == |calls|
            && p.repairRetries == (if since == 0 then 0 else 1)
            && (since > 0 ==> since >= threshold && IsRun(calls[..since], threshold))
            && forall key :: key in p.seenItemKeys <==> CameFrom(calls, key)
  {
    since := 0;
    if calls != [] {
      var n := |calls| - 1;
      var init, before := calls[..n], RecordedAll(threshold, calls[..n]);
      since := RunIsExact(threshold, init);
      forall key
        ensures CameFrom(calls, key) <==> CameFrom(init, key) || key in calls[n]
      {
        CameFromGrows(calls, key);
      }
      assert calls[..n] == init;
      assert FindsNothingNew(calls, n) <==> KeySet(calls[n]) <= before.seenItemKeys;
      RunGrows(calls, before.noProgressCalls);
      RunGrows(calls, before.noProgressCalls + 1);
      assert since > 0 ==> calls[..since] == init[..since];
      if ActionOf(before, threshold, calls[n]) == Some(Repair) {
        since := |calls|;
        assert calls[..since] == calls;
      }
    }
  }

  /**
   When a call without a new item is acted on: exactly at the end of a run of at least `threshold` such calls
   since the repair, when there was one; the first time with a repair, then by failing the turn.
   */
  lemma ActionIsExact(threshold: nat, calls: seq<seq<string>>, itemKeys: seq<string>) returns (since: nat)
    requires threshold > 0
    ensures since <= |calls| && (since > 0 ==> since >= threshold && IsRun(calls[..since], threshold))
    ensures var action := ActionOf(RecordedAll(threshold, calls), threshold, itemKeys);
            && (action.Some? <==> since + threshold <= |calls| + 1 && IsRun(calls + [itemKeys], threshold))
            && (action.Some? ==> action.value == if since == 0 then Repair else Fail)
  {
    since := RunIsExact(threshold, calls);
    var all, p := calls + [itemKeys], RecordedAll(threshold, calls);
    assert all[..|calls|] == calls && all[|calls|] == itemKeys;
    assert FindsNothingNew(all, |calls|) <==> KeySet(itemKeys) <= p.seenItemKeys;
    RunGrows(all, threshold - 1);
    if p.noProgressCalls + 1 < threshold && since + threshold <= |calls| + 1 {
      assert !IsRun(calls, p.noProgressCalls + 1);
      assert IsRun(calls, threshold - 1) ==> IsRun(calls, p.noProgressCalls + 1);
    }
  }

  /**
   A turn fails for lack of progress only after one repair, so never before two whole runs of
   `threshold` calls; it is repaired at most once.
   */
  lemma FailNeedsTwoRuns(threshold: nat, calls: seq<seq<string>>, itemKeys: seq<string>)
    requires ActionOf(RecordedAll(threshold, calls), threshold, itemKeys) == Some(Fail)
    ensures |calls| + 1 >= 2 * threshold
    ensures forall i | threshold > 0 && 0 <= i < |itemKeys| :: CameFrom(calls, itemKeys[i])
  {
    EveryCallIsCounted(threshold, calls);
    if threshold > 0 {
      SeenCameFromCalls(threshold, calls);
      forall i | 0 <= i < |itemKeys|
        ensures CameFrom(calls, itemKeys[i])
      {
        assert itemKeys[i] in KeySet(itemKeys);
        assert itemKeys[i] in RecordedAll(threshold, calls).seenItemKeys;
      }
    }
  }

  lemma {:induction false} SeenCameFromCalls(threshold: nat, calls: seq<seq<string>>)
    ensures forall key | key in RecordedAll(threshold, calls).seenItemKeys :: CameFrom(calls, key)
  {
    if calls != [] {
      var init, last := calls[..|calls| - 1], calls[|calls| - 1];
      SeenCameFromCalls(threshold, init);
      forall key | key in RecordedAll(threshold, calls).seenItemKeys
        ensures CameFrom(calls, key)
      {
        if key in KeySet(last) {
          assert key in calls[|calls| - 1];
        } else {
          assert CameFrom(init, key);
          var k :| 0 <= k < |init| && key in init[k];
          assert key in calls[k];
        }
      }
    }
  }
}
