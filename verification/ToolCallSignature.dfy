/**
 The signature by which a response is told to repeat the previous one's tool calls
 (`buildToolCallSignature` of `backend/src/ai/ai-chat-orchestrator.service.ts`).
 */
module ToolCallSignature {
  import opened ProviderMessages

  function Signature(calls: seq<ToolCall>): string {
    if calls == [] then ""
    else if |calls| == 1 then calls[0].name + "\0" + calls[0].arguments
    else calls[0].name + "\0" + calls[0].arguments + "\U{0001}" + Signature(calls[1..])
  }

  /** The same names and arguments, in the same order; the ids may differ. */
  ghost predicate SameCalls(a: seq<ToolCall>, b: seq<ToolCall>) {
    |a| == |b| && forall k | 0 <= k < |a| :: a[k].name == b[k].name && a[k].arguments == b[k].arguments
  }

  /** No name and no arguments hold one of the two characters the signature is built with. */
  ghost predicate HasNoSeparator(calls: seq<ToolCall>) {
    forall k | 0 <= k < |calls| ::
      && '\0' !in calls[k].name && '\0' !in calls[k].arguments
      && '\U{0001}' !in calls[k].name && '\U{0001}' !in calls[k].arguments
  }

  /** What follows the first call's name. */
  function AfterName(calls: seq<ToolCall>): string
    requires calls != []
  {
    if |calls| == 1 then calls[0].arguments else calls[0].arguments + "\U{0001}" + Signature(calls[1..])
  }

  lemma SignatureStarts(calls: seq<ToolCall>)
    requires calls != []
    ensures Signature(calls) == calls[0].name + "\0" + AfterName(calls)
  {
    if |calls| > 1 {
      Regroup(calls[0].name, "\0", calls[0].arguments, "\U{0001}", Signature(calls[1..]));
    }
  }

  lemma Regroup(a: string, b: string, c: string, d: string, e: string)
    ensures a + b + c + d + e == a + b + (c + d + e)
  {
  }

  /** Two texts cut at their first separator are equal only part by part. */
  lemma CutsAlike(a: string, x: string, b: string, y: string, c: char)
    requires c !in a && c !in b && a + [c] + x == b + [c] + y
    ensures a == b && x == y
  {
    var whole := a + [c] + x;
    assert whole[|a|] == c && (b + [c] + y)[|b|] == c;
    assert |a| == |b|;
    assert a == whole[..|a|] && b == whole[..|b|];
    assert x == whole[|a| + 1..] && y == whole[|b| + 1..];
  }

  lemma ArgumentsCutAlike(a: seq<ToolCall>, b: seq<ToolCall>)
    requires a != [] && b != [] && HasNoSeparator(a) && HasNoSeparator(b) && AfterName(a) == AfterName(b)
    ensures a[0].arguments == b[0].arguments && (|a| == 1 <==> |b| == 1) && Signature(a[1..]) == Signature(b[1..])
  {
    if |a| > 1 {
      SeparatorFollows(a);
    }
    if |b| > 1 {
      SeparatorFollows(b);
    }
    if |a| > 1 && |b| > 1 {
      CutsAlike(a[0].arguments, Signature(a[1..]), b[0].arguments, Signature(b[1..]), '\U{0001}');
    }
  }

  lemma SeparatorFollows(calls: seq<ToolCall>)
    requires |calls| > 1
    ensures '\U{0001}' in AfterName(calls)
  {
    assert AfterName(calls)[|calls[0].arguments|] == '\U{0001}';
  }

  lemma SameAfterFirst(a: seq<ToolCall>, b: seq<ToolCall>)
    requires a != [] && b != []
    ensures SameCalls(a, b) <==>
              a[0].name == b[0].name && a[0].arguments == b[0].arguments && SameCalls(a[1..], b[1..])
  {
    if SameCalls(a[1..], b[1..]) {
      assert forall k | 0 < k < |a| :: a[k] == a[1..][k - 1] && b[k] == b[1..][k - 1];
    }
  }

  /**
   For calls whose names and arguments hold no separator, the signatures are equal exactly when the calls have
   the same names and arguments in the same order.
   */
  lemma {:induction false} SignatureTellsCalls(a: seq<ToolCall>, b: seq<ToolCall>)
    requires HasNoSeparator(a) && HasNoSeparator(b)
    ensures Signature(a) == Signature(b) <==> SameCalls(a, b)
  {
    if a != [] {
      SignatureStarts(a);
    }
    if b != [] {
      SignatureStarts(b);
    }
    if a != [] && b != [] {
      SignatureTellsCalls(a[1..], b[1..]);
      SameAfterFirst(a, b);
      if Signature(a) == Signature(b) {
        CutsAlike(a[0].name, AfterName(a), b[0].name, AfterName(b), '\0');
        ArgumentsCutAlike(a, b);
      }
    }
  }

  // ----- Signatures of any calls -----

  /** Other calls with the same signature. */
  ghost predicate IsAmbiguous(calls: seq<ToolCall>) {
    exists other :: Signature(other) == Signature(calls) && !SameCalls(other, calls)
  }

  /**
   The exact condition: calls are determined by their signature if and only if there are none, or there is one
   whose name and arguments hold no NUL.  Two calls can always be read as one.
   */
  lemma SignatureIsAmbiguousExactly(calls: seq<ToolCall>)
    ensures !IsAmbiguous(calls) <==>
              calls == [] || (|calls| == 1 && '\0' !in calls[0].name && '\0' !in calls[0].arguments)
  {
    if calls == [] {
      forall other | other != []
        ensures Signature(other) != ""
      {
        SignatureStarts(other);
      }
    } else {
      SignatureStarts(calls);
      if |calls| > 1 {
        SplitMeansAmbiguous(calls, |calls[0].name|);
      } else {
        OneCallIsAmbiguousExactly(calls);
      }
    }
  }

  /** Cut at a NUL that does not end the first name, or cut at all when there are more calls, it reads otherwise. */
  lemma SplitMeansAmbiguous(calls: seq<ToolCall>, p: nat)
    requires p < |Signature(calls)| && Signature(calls)[p] == '\0'
    requires |calls| > 1 || (|calls| == 1 && p != |calls[0].name|)
    ensures IsAmbiguous(calls)
  {
    var other := [ToolCall("", Signature(calls)[..p], Signature(calls)[p + 1..])];
    assert Signature(other) == Signature(calls);
    assert |other[0].name| == p;
  }

  lemma OneCallIsAmbiguousExactly(calls: seq<ToolCall>)
    requires |calls| == 1
    ensures !IsAmbiguous(calls) <==> '\0' !in calls[0].name && '\0' !in calls[0].arguments
  {
    var name, arguments, signature := calls[0].name, calls[0].arguments, Signature(calls);
    assert signature == name + "\0" + arguments;
    if i :| 0 <= i < |name| && name[i] == '\0' {
      assert signature[i] == '\0';
      SplitMeansAmbiguous(calls, i);
    } else if i :| 0 <= i < |arguments| && arguments[i] == '\0' {
      assert signature[|name| + 1 + i] == '\0';
      SplitMeansAmbiguous(calls, |name| + 1 + i);
    } else {
      forall other | Signature(other) == signature
        ensures SameCalls(other, calls)
      {
        OneNulMeansOneCall(other, calls);
      }
    }
  }

  lemma SecondNul(calls: seq<ToolCall>) returns (at: nat)
    requires |calls| > 1
    ensures |calls[0].name| < at < |Signature(calls)| && Signature(calls)[at] == '\0'
  {
    SignatureStarts(calls);
    SignatureStarts(calls[1..]);
    var inRest := |calls[0].arguments| + 1 + |calls[1].name|;
    assert AfterName(calls)[inRest] == '\0';
    at := |calls[0].name| + 1 + inRest;
  }

  lemma OneNulMeansOneCall(other: seq<ToolCall>, calls: seq<ToolCall>)
    requires |calls| == 1 && Signature(other) == Signature(calls)
    requires forall i | 0 <= i < |Signature(calls)| && Signature(calls)[i] == '\0' :: i == |calls[0].name|
    ensures SameCalls(other, calls)
  {
    var signature := Signature(calls);
    SignatureStarts(calls);
    if other != [] {
      SignatureStarts(other);
      assert signature[|other[0].name|] == '\0';
      if |other| > 1 {
        var second := SecondNul(other);
      }
      assert other[0].name == signature[..|other[0].name|] && calls[0].name == signature[..|calls[0].name|];
      assert AfterName(other) == signature[|other[0].name| + 1..];
      assert AfterName(calls) == signature[|calls[0].name| + 1..];
    }
  }
}
