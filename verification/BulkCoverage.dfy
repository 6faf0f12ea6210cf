/**
 Coverage of a bulk target set during a write turn, and the plans built to close its gaps
 (`backend/src/ai/ai-chat-orchestrator.service.ts`).
 */
module BulkCoverage {
  import opened Wrappers
  import opened StableJson

  /** A reference as normalised by `normalizeBulkRef`: trimmed, upper case, not empty. */
  type Ref = Text

  datatype BulkTargets = BulkTargets(
    source: Text,
    title: Option<Text>,
    entityType: Option<Text>,
    refs: seq<Ref>,
    expectedCount: Option<int>,
    explicit: bool)

  /**
   A target set names no reference twice: its references come from `normalizeBulkRefs`, or from a scan
   that skips repeats.
   */
  type TargetSet = b: BulkTargets | Distinct(b.refs) witness BulkTargets([], None, None, [], None, false)

  /** The members of an object as JSON parses it: no key twice, at any depth. */
  type ObjectMembers = ms: seq<Member> | WellFormed(Obj(ms)) witness []

  /** What the turn has handled so far. */
  datatype Coverage = Coverage(covered: set<Ref>, coveredByType: map<Text, set<Ref>>, failed: set<Ref>,
                               excluded: set<Ref>)

  datatype Issue = Issue(target: TargetSet, coveredRefs: seq<Ref>, failedRefs: seq<Ref>, excludedRefs: seq<Ref>,
                         missingRefs: seq<Ref>)

  ghost predicate Distinct(refs: seq<Ref>) {
    forall i, j | 0 <= i < j < |refs| :: refs[i] != refs[j]
  }

  /** Each reference once, at its first place. */
  ghost function FirstRefs(values: seq<Option<Ref>>): seq<Ref> {
    if values == [] then []
    else
      var before, last := FirstRefs(values[..|values| - 1]), values[|values| - 1];
      if last.None? || last.value in before then before else before + [last.value]
  }

  /** `normalizeBulkRefs`: the references of the values, each once, in order; values without one are dropped. */
  method NormalizeBulkRefs(values: seq<Option<Ref>>) returns (refs: seq<Ref>)
    ensures refs == FirstRefs(values) && Distinct(refs)
    ensures forall ref :: ref in refs <==> Some(ref) in values
  {
    refs := [];
    var seen: set<Ref> := {};
    for n := 0 to |values|
      invariant refs == FirstRefs(values[..n]) && Distinct(refs)
      invariant forall ref :: ref in refs <==> ref in seen
      invariant forall ref :: ref in refs <==> Some(ref) in values[..n]
    {
      assert values[..n + 1] == values[..n] + [values[n]] && values[..n + 1][..n] == values[..n];
      if values[n].None? || values[n].value in seen {
        continue;
      }
      seen := seen + {values[n].value};
      refs := refs + [values[n].value];
    }
    assert values[..|values|] == values;
  }

  function Within(refs: seq<Ref>, handled: set<Ref>): (r: seq<Ref>) {
    if refs == [] then []
    else (if refs[0] in handled then [refs[0]] else []) + Within(refs[1..], handled)
  }

  function Outside(refs: seq<Ref>, handled: set<Ref>): (r: seq<Ref>) {
    if refs == [] then []
    else (if refs[0] in handled then [] else [refs[0]]) + Outside(refs[1..], handled)
  }

  function CoveredFor(target: TargetSet, c: Coverage): set<Ref> {
    c.covered + if target.entityType.Some? && target.entityType.value in c.coveredByType
                then c.coveredByType[target.entityType.value] else {}
  }

  /** The references of the set nothing has covered, failed or excluded. */
  function Missing(target: TargetSet, c: Coverage): seq<Ref> {
    Outside(target.refs, CoveredFor(target, c) + c.failed + c.excluded)
  }

  /** The issue of one target set. */
  function IssueOf(target: TargetSet, c: Coverage, requireExistingCoverage: bool): Option<Issue> {
    if target.refs == [] && (target.expectedCount.None? || target.expectedCount.value <= 1) then None
    else
      var covered := Within(target.refs, CoveredFor(target, c));
      var failed := Within(target.refs, c.failed);
      var excluded := Within(target.refs, c.excluded);
      var missing := Missing(target, c);
      if !target.explicit && requireExistingCoverage && covered == [] then None
      else if missing == []
              && !(target.expectedCount.Some? && |covered| + |failed| + |excluded| < target.expectedCount.value)
      then None
      else Some(Issue(target, covered, failed, excluded, missing))
  }

  // ----- What an issue is -----

  /** A preview covers the reference, on its own or for the set's entity type. */
  ghost predicate IsCovered(target: BulkTargets, c: Coverage, ref: Ref) {
    ref in c.covered
    || exists t :: target.entityType == Some(t) && t in c.coveredByType && ref in c.coveredByType[t]
  }

  ghost predicate IsHandled(target: BulkTargets, c: Coverage, ref: Ref) {
    IsCovered(target, c, ref) || ref in c.failed || ref in c.excluded
  }

  /** `part` is exactly the references of `refs` that `keep` holds of, in their order. */
  ghost predicate Selects(part: seq<Ref>, refs: seq<Ref>, keep: Ref -> bool) {
    && Distinct(part) && (forall ref :: ref in part <==> ref in refs && keep(ref))
    && forall i, j, p, q | 0 <= i < j < |part| && 0 <= p < |refs| && 0 <= q < |refs|
                           && part[i] == refs[p] && part[j] == refs[q] :: p < q
  }

  /** How many references of the set were covered, failed or excluded, each reason counted on its own. */
  ghost function HandledCount(target: BulkTargets, c: Coverage): nat {
    |set ref | ref in target.refs && IsCovered(target, c, ref)| + |set ref | ref in target.refs && ref in c.failed|
    + |set ref | ref in target.refs && ref in c.excluded|
  }

  /**
   The set is incomplete: a reference of it is not handled, or fewer are than expected.  A set that is not
   explicit counts only once a reference of it is covered, when existing coverage is required; and an
   expected count of at most one says nothing of a set without references.
   */
  ghost predicate IsIncomplete(target: BulkTargets, c: Coverage, requireExistingCoverage: bool) {
    && (target.explicit || !requireExistingCoverage || exists ref :: ref in target.refs && IsCovered(target, c, ref))
    && ((exists ref :: ref in target.refs && !IsHandled(target, c, ref))
        || (target.expectedCount.Some? && HandledCount(target, c) < target.expectedCount.value
            && (target.refs != [] || target.expectedCount.value > 1)))
  }

  /** Exactly the references of the set that are not handled, in their order. */
  ghost predicate AreMissing(missing: seq<Ref>, target: BulkTargets, c: Coverage) {
    Selects(missing, target.refs, ref => !IsHandled(target, c, ref))
  }

  /** What is reported of a set: its references by what became of them, the missing ones being those not handled. */
  ghost predicate Reports(issue: Issue, target: TargetSet, c: Coverage) {
    && issue.target == target
    && Selects(issue.coveredRefs, target.refs, ref => IsCovered(target, c, ref))
    && Selects(issue.failedRefs, target.refs, ref => ref in c.failed)
    && Selects(issue.excludedRefs, target.refs, ref => ref in c.excluded)
    && AreMissing(issue.missingRefs, target, c)
  }

  /** The last incomplete set. */
  ghost predicate IsNewest(k: int, targets: seq<TargetSet>, c: Coverage, requireExistingCoverage: bool) {
    && 0 <= k < |targets| && IsIncomplete(targets[k], c, requireExistingCoverage)
    && forall l | k < l < |targets| :: !IsIncomplete(targets[l], c, requireExistingCoverage)
  }

  /** The newest incomplete set decides. */
  ghost predicate IsNewestIssue(r: Option<Issue>, targets: seq<TargetSet>, c: Coverage, requireExistingCoverage: bool) {
    match r
    case None => forall k | 0 <= k < |targets| :: !IsIncomplete(targets[k], c, requireExistingCoverage)
    case Some(issue) => exists k :: IsNewest(k, targets, c, requireExistingCoverage) && Reports(issue, targets[k], c)
  }

  lemma {:induction false} OutsideSelects(refs: seq<Ref>, handled: set<Ref>)
    requires Distinct(refs)
    ensures Selects(Outside(refs, handled), refs, ref => ref !in handled)
  {
    if refs != [] {
      OutsideSelects(refs[1..], handled);
      SelectsAfter(Outside(refs[1..], handled), refs, ref => ref !in handled);
    }
  }

  lemma {:induction false} WithinSelects(refs: seq<Ref>, handled: set<Ref>)
    requires Distinct(refs)
    ensures Selects(Within(refs, handled), refs, ref => ref in handled)
  {
    if refs != [] {
      WithinSelects(refs[1..], handled);
      SelectsAfter(Within(refs[1..], handled), refs, ref => ref in handled);
    }
  }

  /** A selection from the later references, the first before it when it is kept. */
  lemma SelectsAfter(part: seq<Ref>, refs: seq<Ref>, keep: Ref -> bool)
    requires refs != [] && Distinct(refs) && Selects(part, refs[1..], keep)
    ensures Selects((if keep(refs[0]) then [refs[0]] else []) + part, refs, keep)
  {
    var whole := (if keep(refs[0]) then [refs[0]] else []) + part;
    var skip := |whole| - |part|;
    assert refs == [refs[0]] + refs[1..] && refs[0] !in refs[1..];
    assert forall i | 0 <= i < |whole| :: whole[i] == if i < skip then refs[0] else part[i - skip];
    forall i, j, p, q | 0 <= i < j < |whole| && 0 <= p < |refs| && 0 <= q < |refs|
                        && whole[i] == refs[p] && whole[j] == refs[q]
      ensures p < q
    {
      assert whole[j] == part[j - skip] && part[j - skip] in part;
      assert q > 0 && refs[1..][q - 1] == part[j - skip];
      if i >= skip {
        assert part[i - skip] in part;
        assert p > 0 && refs[1..][p - 1] == part[i - skip];
      }
    }
  }

  lemma SelectedCount(part: seq<Ref>, refs: seq<Ref>, keep: Ref -> bool, kept: set<Ref>)
    requires Selects(part, refs, keep) && forall ref :: ref in kept <==> ref in refs && keep(ref)
    ensures |part| == |kept|
  {
    DistinctCount(part);
    assert (set ref | ref in part) == kept;
  }

  lemma {:induction false} DistinctCount(part: seq<Ref>)
    requires Distinct(part)
    ensures |part| == |set ref | ref in part|
  {
    if part != [] {
      var rest := part[1..];
      DistinctCount(rest);
      assert part == [part[0]] + rest && part[0] !in rest;
      assert (set ref | ref in part) == {part[0]} + (set ref | ref in rest);
    }
  }

  /** The references an issue reports of a set, each kind as it is. */
  lemma PartsAreSelected(target: TargetSet, c: Coverage)
    ensures Selects(Within(target.refs, CoveredFor(target, c)), target.refs, ref => IsCovered(target, c, ref))
    ensures Selects(Within(target.refs, c.failed), target.refs, ref => ref in c.failed)
    ensures Selects(Within(target.refs, c.excluded), target.refs, ref => ref in c.excluded)
    ensures Selects(Missing(target, c), target.refs, ref => !IsHandled(target, c, ref))
  {
    WithinSelects(target.refs, CoveredFor(target, c));
    WithinSelects(target.refs, c.failed);
    WithinSelects(target.refs, c.excluded);
    OutsideSelects(target.refs, CoveredFor(target, c) + c.failed + c.excluded);
  }

  lemma PartsAreCounted(target: TargetSet, c: Coverage)
    ensures HandledCount(target, c) == |Within(target.refs, CoveredFor(target, c))| + |Within(target.refs, c.failed)|
                                       + |Within(target.refs, c.excluded)|
  {
    PartsAreSelected(target, c);
    SelectedCount(Within(target.refs, CoveredFor(target, c)), target.refs, ref => IsCovered(target, c, ref),
                  set ref | ref in target.refs && IsCovered(target, c, ref));
    SelectedCount(Within(target.refs, c.failed), target.refs, ref => ref in c.failed,
                  set ref | ref in target.refs && ref in c.failed);
    SelectedCount(Within(target.refs, c.excluded), target.refs, ref => ref in c.excluded,
                  set ref | ref in target.refs && ref in c.excluded);
  }

  lemma SelectionIsEmpty(part: seq<Ref>, refs: seq<Ref>, keep: Ref -> bool)
    requires Selects(part, refs, keep)
    ensures part == [] <==> forall ref | ref in refs :: !keep(ref)
  {
    if part != [] {
      assert part[0] in part;
    }
  }

  /** The search finds an issue exactly for an incomplete set, and reports it as it is. */
  lemma IssueOfIsExact(target: TargetSet, c: Coverage, requireExistingCoverage: bool)
    ensures var r := IssueOf(target, c, requireExistingCoverage);
            && (r.Some? <==> IsIncomplete(target, c, requireExistingCoverage))
            && (r.Some? ==> Reports(r.value, target, c))
  {
    PartsAreSelected(target, c);
    PartsAreCounted(target, c);
    SelectionIsEmpty(Within(target.refs, CoveredFor(target, c)), target.refs, ref => IsCovered(target, c, ref));
    SelectionIsEmpty(Missing(target, c), target.refs, ref => !IsHandled(target, c, ref));
  }

  lemma FirstIsMember(refs: seq<Ref>)
    ensures refs != [] ==> refs[0] in refs
  {
  }

  /** The newest incomplete target set, reported as it is; none exactly when every set is complete. */
  method FindBulkCoverageIssue(targets: seq<TargetSet>, c: Coverage, requireExistingCoverage: bool)
    returns (r: Option<Issue>)
    ensures IsNewestIssue(r, targets, c, requireExistingCoverage)
  {
    var k := |targets|;
    while k > 0
      invariant 0 <= k <= |targets|
      invariant forall l | k <= l < |targets| :: !IsIncomplete(targets[l], c, requireExistingCoverage)
    {
      k := k - 1;
      IssueOfIsExact(targets[k], c, requireExistingCoverage);
      r := IssueOf(targets[k], c, requireExistingCoverage);
      if r.Some? {
        return;
      }
    }
    r := None;
  }

  lemma RestIsSelected(part: seq<Ref>, refs: seq<Ref>, keep: Ref -> bool, others: Ref -> bool)
    requires part != [] && Selects(part, refs, keep)
    requires forall ref :: others(ref) <==> keep(ref) && ref != part[0]
    ensures Selects(part[1..], refs, others)
  {
    assert part == [part[0]] + part[1..] && part[0] !in part[1..];
  }

  lemma FirstIsDetermined(a: seq<Ref>, b: seq<Ref>, refs: seq<Ref>, keep: Ref -> bool)
    requires Selects(a, refs, keep) && Selects(b, refs, keep) && a != [] && b != []
    ensures a[0] == b[0]
  {
    assert a[0] in b && b[0] in a;
    var i, j :| 0 <= i < |a| && a[i] == b[0] && 0 <= j < |b| && b[j] == a[0];
    assert a[0] in refs && b[0] in refs;
    var p, q :| 0 <= p < |refs| && refs[p] == a[0] && 0 <= q < |refs| && refs[q] == b[0];
    assert i > 0 ==> q > p;
    assert j > 0 ==> p > q;
  }

  /** One selection only: what is reported of a set is determined by it. */
  lemma {:induction false} SelectionIsUnique(a: seq<Ref>, b: seq<Ref>, refs: seq<Ref>, keep: Ref -> bool)
    requires Selects(a, refs, keep) && Selects(b, refs, keep)
    ensures a == b
    decreases |a|
  {
    SelectionIsEmpty(a, refs, keep);
    SelectionIsEmpty(b, refs, keep);
    if a != [] {
      FirstIsDetermined(a, b, refs, keep);
      var others := ref => keep(ref) && ref != a[0];
      RestIsSelected(a, refs, keep, others);
      RestIsSelected(b, refs, keep, others);
      SelectionIsUnique(a[1..], b[1..], refs, others);
      assert a == [a[0]] + a[1..] && b == [b[0]] + b[1..];
    }
  }

  lemma MissingIsUnique(a: seq<Ref>, b: seq<Ref>, target: BulkTargets, c: Coverage)
    requires AreMissing(a, target, c) && AreMissing(b, target, c)
    ensures a == b
  {
    SelectionIsUnique(a, b, target.refs, ref => !IsHandled(target, c, ref));
  }

  lemma NewestIssueIsUnique(a: Option<Issue>, b: Option<Issue>, targets: seq<TargetSet>, c: Coverage,
                            requireExisting: bool)
    requires IsNewestIssue(a, targets, c, requireExisting) && IsNewestIssue(b, targets, c, requireExisting)
    ensures a == b
  {
    if a.Some? && b.Some? {
      var k :| IsNewest(k, targets, c, requireExisting) && Reports(a.value, targets[k], c);
      var l :| IsNewest(l, targets, c, requireExisting) && Reports(b.value, targets[l], c);
      assert k == l;
      var target := targets[k];
      SelectionIsUnique(a.value.coveredRefs, b.value.coveredRefs, target.refs, ref => IsCovered(target, c, ref));
      SelectionIsUnique(a.value.failedRefs, b.value.failedRefs, target.refs, ref => ref in c.failed);
      SelectionIsUnique(a.value.excludedRefs, b.value.excludedRefs, target.refs, ref => ref in c.excluded);
      MissingIsUnique(a.value.missingRefs, b.value.missingRefs, target, c);
    }
  }

  // ----- Plans -----

  datatype Operation = Operation(id: Text, toolName: Text, input: seq<Member>)

  /** `others` are the members a plan keeps of the model's own. */
  datatype Plan = Plan(
    summary: Json,
    title: Json,
    others: seq<Member>,
    expectedTargetRefs: seq<Ref>,
    operations: seq<Operation>)

  /**
   One operation as the model wrote it: its trimmed tool name, its input when that is an object, and
   whether it depends on others.
   */
  datatype RawOperation = RawOperation(toolName: Text, input: Option<ObjectMembers>, dependsOnOthers: bool)

  /**
   A plan as the model wrote it: its summary and label when they are truthy, its operations, and its other
   members.
   */
  datatype RawPlan = RawPlan(summary: Option<Json>, title: Option<Json>, others: seq<Member>,
                             operations: seq<RawOperation>)

  /**
   `normalizeBulkRef` on a JSON value, the id given to an operation, the default label of a set, and a
   plan's summary.
   */
  datatype Naming = Naming(
    normalize: Json -> Option<Ref>,
    operationId: (Text, Ref, nat) -> Text,
    defaultLabel: Text,
    summary: (Text, Text) -> Text)

  const REF: Text := [114, 101, 102]  // "ref"

  const PLACEHOLDER: Text := [95, 95, 82, 69, 70, 95, 95]  // "__REF__"

  function ValueAt(members: seq<Member>, key: Text): Option<Json> {
    if members == [] then None
    else if members[0].key == key then Some(members[0].value)
    else ValueAt(members[1..], key)
  }

  function RefOf(n: Naming, input: seq<Member>): Option<Ref> {
    var value := ValueAt(input, REF);
    if value.Some? then n.normalize(value.value) else None
  }

  function LabelOf(n: Naming, target: TargetSet): Text {
    if target.title.Some? then target.title.value
    else if target.entityType.Some? then target.entityType.value
    else n.defaultLabel
  }

  /** One operation per missing reference: the same tool, the same input but for `ref`. */
  function OperationsFor(n: Naming, toolName: Text, input: seq<Member>, missing: seq<Ref>, from: nat)
    : (ops: seq<Operation>)
    ensures |ops| == |missing|
    ensures forall i | 0 <= i < |missing| ::
              ops[i] == Operation(n.operationId(toolName, missing[i], from + i + 1), toolName,
                                  SetMember(input, REF, Str(missing[i])))
  {
    if missing == [] then []
    else [Operation(n.operationId(toolName, missing[0], from + 1), toolName, SetMember(input, REF, Str(missing[0])))]
         + OperationsFor(n, toolName, input, missing[1..], from + 1)
  }

  function BuildBulkAutoplan(n: Naming, issue: Issue, toolName: Text, input: seq<Member>): Option<Plan> {
    if |issue.missingRefs| <= 1 then None
    else if !HasKey(input, REF) then None
    else
      var requested := RefOf(n, input);
      if requested.Some? && |issue.target.refs| > 0 && requested.value !in issue.target.refs then None
      else
        var heading := LabelOf(n, issue.target);
        Some(Plan(Str(n.summary(toolName, heading)), Str(heading), [], issue.missingRefs,
                  OperationsFor(n, toolName, input, issue.missingRefs, 0)))
  }

  /** An operation the augmentation may stand for: a named tool, a reference of the set, no dependency. */
  predicate SoundOperation(n: Naming, issue: Issue, op: RawOperation) {
    op.toolName != [] && op.input.Some? && RefOf(n, op.input.value).Some? && !op.dependsOnOthers
    && RefOf(n, op.input.value).value in issue.target.refs
  }

  function Shape(input: seq<Member>): Text {
    Print(Obj(SetMember(input, REF, Str(PLACEHOLDER))))
  }

  /** Every operation is sound, and all have one tool and one shape. */
  predicate PassShapeTest(n: Naming, issue: Issue, operations: seq<RawOperation>) {
    && (forall k | 0 <= k < |operations| :: SoundOperation(n, issue, operations[k]))
    && forall k | 0 <= k < |operations| ::
         && operations[k].toolName == operations[0].toolName
         && Shape(operations[k].input.value) == Shape(operations[0].input.value)
  }

  function BuildAugmentedPlan(n: Naming, issue: Issue, given: RawPlan): Option<Plan> {
    var operations := given.operations;
    if |issue.missingRefs| <= |operations| || operations == [] then None
    else if !PassShapeTest(n, issue, operations) then None
    else
      var first := operations[0];
      var heading := LabelOf(n, issue.target);
      Some(Plan(if given.summary.Some? then given.summary.value else Str(n.summary(first.toolName, heading)),
                if given.title.Some? then given.title.value else Str(heading),
                given.others, issue.missingRefs,
                OperationsFor(n, first.toolName, first.input.value, issue.missingRefs, 0)))
  }

  /**
   A plan for these references: exactly one operation for each, all with one tool, and inputs that are
   the given one but for `ref`.
   */
  ghost predicate PlansFor(plan: Plan, missing: seq<Ref>, toolName: Text, input: seq<Member>) {
    && plan.expectedTargetRefs == missing && |plan.operations| == |missing|
    && (forall i | 0 <= i < |missing| ::
          && plan.operations[i].toolName == toolName
          && Member(REF, Str(missing[i])) in plan.operations[i].input && DistinctKeys(plan.operations[i].input)
          && AgreeBut(plan.operations[i].input, input, REF))
    && (forall ref | ref in missing :: exists i :: 0 <= i < |missing| && missing[i] == ref
                                                   && forall j | 0 <= j < |missing| && missing[j] == ref :: i == j)
  }

  /** Each operation's id is made of the tool, its reference and its place, counted from one. */
  ghost predicate AreNumbered(n: Naming, plan: Plan, toolName: Text) {
    forall i | 0 <= i < |plan.operations| ::
      i < |plan.expectedTargetRefs|
      && plan.operations[i].id == n.operationId(toolName, plan.expectedTargetRefs[i], i + 1)
  }

  lemma SetMemberAgrees(input: seq<Member>, key: Text, value: Json)
    requires DistinctKeys(input)
    ensures AgreeBut(SetMember(input, key, value), input, key)
  {
    SetMemberSets(input, key, value);
    SetMemberKeys(input, key, value);
    forall m | m in SetMember(input, key, value) && m.key != key
      ensures exists n :: n in input && n.key == m.key && Equivalent(m.value, n.value)
    {
      EquivalentIsReflexive(m.value);
    }
  }

  lemma OperationsPlan(n: Naming, plan: Plan, toolName: Text, input: seq<Member>, missing: seq<Ref>)
    requires plan.expectedTargetRefs == missing && plan.operations == OperationsFor(n, toolName, input, missing, 0)
    requires DistinctKeys(input) && Distinct(missing)
    ensures PlansFor(plan, missing, toolName, input)
  {
    forall i | 0 <= i < |missing|
      ensures Member(REF, Str(missing[i])) in plan.operations[i].input && DistinctKeys(plan.operations[i].input)
      ensures AgreeBut(plan.operations[i].input, input, REF)
    {
      SetMemberSets(input, REF, Str(missing[i]));
      SetMemberAgrees(input, REF, Str(missing[i]));
    }
  }

  lemma {:induction false} ValueAtFinds(members: seq<Member>, key: Text)
    requires DistinctKeys(members)
    ensures forall value :: ValueAt(members, key) == Some(value) <==> Member(key, value) in members
    ensures HasKey(members, key) <==> ValueAt(members, key).Some?
  {
    if members != [] {
      assert members == [members[0]] + members[1..];
      ValueAtFinds(members[1..], key);
      if HasKey(members, key) {
        var i :| 0 <= i < |members| && members[i].key == key;
        assert i > 0 ==> members[1..][i - 1].key == key;
      }
      if HasKey(members[1..], key) {
        var i :| 0 <= i < |members[1..]| && members[1..][i].key == key;
        assert members[i + 1].key == key;
      }
    }
  }

  /** The input has this value under `ref`. */
  ghost predicate HasRef(input: seq<Member>, value: Json) {
    Member(REF, value) in input
  }

  /** The input has a `ref`, and it names no reference foreign to the set. */
  ghost predicate NamesOneOf(n: Naming, target: BulkTargets, input: seq<Member>) {
    && (exists value :: HasRef(input, value))
    && forall value | HasRef(input, value) ::
         n.normalize(value).None? || target.refs == [] || n.normalize(value).value in target.refs
  }

  /** The auto-plan's label: the set's title, its entity type, or the default, whichever comes first. */
  ghost predicate IsLabel(heading: Text, n: Naming, target: BulkTargets) {
    && (target.title.Some? ==> heading == target.title.value)
    && (target.title.None? && target.entityType.Some? ==> heading == target.entityType.value)
    && (target.title.None? && target.entityType.None? ==> heading == n.defaultLabel)
  }

  /**
   The auto-plan: it is built from a single call exactly when more than one reference is missing and the call
   has a `ref` that names no reference foreign to the set; then it has exactly one operation for each missing
   reference, with that call's tool and input otherwise.
   */
  lemma AutoplanIsExact(n: Naming, target: TargetSet, c: Coverage, issue: Issue, toolName: Text, input: ObjectMembers)
    requires Reports(issue, target, c)
    ensures BuildBulkAutoplan(n, issue, toolName, input).Some? <==>
              |issue.missingRefs| > 1 && NamesOneOf(n, target, input)
    ensures BuildBulkAutoplan(n, issue, toolName, input).Some? ==>
              var plan := BuildBulkAutoplan(n, issue, toolName, input).value;
              && PlansFor(plan, issue.missingRefs, toolName, input) && AreNumbered(n, plan, toolName)
              && plan.others == []
              && exists heading :: IsLabel(heading, n, target) && plan.title == Str(heading)
                                 && plan.summary == Str(n.summary(toolName, heading))
  {
    ValueAtFinds(input, REF);
    var value := ValueAt(input, REF);
    assert forall other :: HasRef(input, other) <==> value == Some(other);
    if HasKey(input, REF) {
      assert HasRef(input, value.value);
    }
    if BuildBulkAutoplan(n, issue, toolName, input).Some? {
      assert IsLabel(LabelOf(n, target), n, target);
      OperationsPlan(n, BuildBulkAutoplan(n, issue, toolName, input).value, toolName, input, issue.missingRefs);
    }
  }

  /** An operation an augmentation may stand for: a named tool, a reference of the set, no dependency. */
  ghost predicate MayStand(n: Naming, target: BulkTargets, op: RawOperation) {
    op.toolName != [] && op.input.Some? && !op.dependsOnOthers
    && exists value, ref :: HasRef(op.input.value, value) && n.normalize(value) == Some(ref) && ref in target.refs
  }

  /** Each operation may stand for others, all with one tool and inputs that differ at most in `ref`. */
  ghost predicate AlikeButRef(n: Naming, target: BulkTargets, operations: seq<RawOperation>) {
    forall k | 0 <= k < |operations| ::
      && MayStand(n, target, operations[k]) && operations[0].input.Some?
      && operations[k].toolName == operations[0].toolName
      && AgreeBut(operations[k].input.value, operations[0].input.value, REF)
  }

  lemma SoundMeansMayStand(n: Naming, issue: Issue, op: RawOperation)
    ensures SoundOperation(n, issue, op) <==> MayStand(n, issue.target, op)
  {
    if op.input.Some? {
      ValueAtFinds(op.input.value, REF);
      var value := ValueAt(op.input.value, REF);
      assert forall other :: HasRef(op.input.value, other) <==> value == Some(other);
      if SoundOperation(n, issue, op) {
        assert HasRef(op.input.value, value.value);
      }
    }
  }

  /**
   The augmented plan: it is built exactly when the model's operations are fewer than the missing
   references and alike but for `ref`; then it plans for the missing references, and keeps whatever else
   the model wrote.
   */
  lemma AugmentedPlanIsExact(n: Naming, target: TargetSet, c: Coverage, issue: Issue, given: RawPlan)
    requires Reports(issue, target, c)
    ensures BuildAugmentedPlan(n, issue, given).Some? <==>
              0 < |given.operations| < |issue.missingRefs| && AlikeButRef(n, target, given.operations)
    ensures BuildAugmentedPlan(n, issue, given).Some? ==>
              var plan, first := BuildAugmentedPlan(n, issue, given).value, given.operations[0];
              && PlansFor(plan, issue.missingRefs, first.toolName, first.input.value)
              && AreNumbered(n, plan, first.toolName) && plan.others == given.others
              && exists heading :: IsLabel(heading, n, target)
                                 && plan.title == (if given.title.Some? then given.title.value else Str(heading))
                                 && plan.summary == (if given.summary.Some? then given.summary.value
                                                     else Str(n.summary(first.toolName, heading)))
  {
    ShapesTellAlike(n, issue, given.operations);
    if BuildAugmentedPlan(n, issue, given).Some? {
      var plan, first := BuildAugmentedPlan(n, issue, given).value, given.operations[0];
      assert IsLabel(LabelOf(n, target), n, target);
      OperationsPlan(n, plan, first.toolName, first.input.value, issue.missingRefs);
    }
  }

  lemma ShapesTellAlike(n: Naming, issue: Issue, operations: seq<RawOperation>)
    ensures PassShapeTest(n, issue, operations) <==> AlikeButRef(n, issue.target, operations)
  {
    forall k | 0 <= k < |operations|
      ensures SoundOperation(n, issue, operations[k]) <==> MayStand(n, issue.target, operations[k])
    {
      SoundMeansMayStand(n, issue, operations[k]);
    }
    forall k | 0 <= k < |operations| && SoundOperation(n, issue, operations[k])
               && SoundOperation(n, issue, operations[0])
      ensures Shape(operations[k].input.value) == Shape(operations[0].input.value)
         <==> AgreeBut(operations[k].input.value, operations[0].input.value, REF)
    {
      ShapeTestIsExact(operations[k].input.value, operations[0].input.value, REF, PLACEHOLDER);
    }
  }

  // ----- What a tool result adds -----

  /** A preview's normalised reference and its entity type, when it has them. */
  datatype Preview = Preview(ref: Option<Ref>, entityType: Option<Text>)

  datatype ToolOutcome = ToolOutcome(previews: seq<Preview>, failedRefs: seq<Ref>, excludedRefs: seq<Ref>,
                                     targetSets: seq<TargetSet>)

  function WithPreview(c: Coverage, p: Preview): Coverage {
    if p.ref.None? then c
    else
      var covered := c.(covered := c.covered + {p.ref.value});
      if p.entityType.None? then covered
      else
        var known := if p.entityType.value in c.coveredByType then c.coveredByType[p.entityType.value] else {};
        covered.(coveredByType := c.coveredByType[p.entityType.value := known + {p.ref.value}])
  }

  function WithPreviews(c: Coverage, previews: seq<Preview>): Coverage {
    if previews == [] then c else WithPreview(WithPreviews(c, previews[..|previews| - 1]), previews[|previews| - 1])
  }

  function Absorbed(c: Coverage, outcome: ToolOutcome): Coverage {
    WithPreviews(c.(failed := c.failed + (set ref | ref in outcome.failedRefs),
                    excluded := c.excluded + (set ref | ref in outcome.excludedRefs)),
                 outcome.previews)
  }

  /** One of the previews is of this reference, and of this entity type when one is given. */
  ghost predicate IsPreviewed(previews: seq<Preview>, ref: Ref, entityType: Option<Text>) {
    exists k :: 0 <= k < |previews| && previews[k].ref == Some(ref)
                && (entityType.Some? ==> previews[k].entityType == entityType)
  }

  ghost predicate IsTyped(c: Coverage, t: Text, ref: Ref) {
    t in c.coveredByType && ref in c.coveredByType[t]
  }

  lemma PreviewedUpTo(previews: seq<Preview>, ref: Ref, entityType: Option<Text>)
    requires previews != []
    ensures var last := previews[|previews| - 1];
            IsPreviewed(previews, ref, entityType) <==>
              IsPreviewed(previews[..|previews| - 1], ref, entityType)
              || (last.ref == Some(ref) && (entityType.Some? ==> last.entityType == entityType))
  {
    var init := previews[..|previews| - 1];
    if k :| 0 <= k < |previews| && previews[k].ref == Some(ref)
            && (entityType.Some? ==> previews[k].entityType == entityType) {
      assert k < |init| ==> init[k] == previews[k];
    }
    if k :| 0 <= k < |init| && init[k].ref == Some(ref) && (entityType.Some? ==> init[k].entityType == entityType) {
      assert previews[k] == init[k];
    }
  }

  /** Exactly the references of the previews join those covered, and those covered for their entity type. */
  lemma {:induction false} PreviewsCover(c: Coverage, previews: seq<Preview>)
    ensures var after := WithPreviews(c, previews);
            && after.failed == c.failed && after.excluded == c.excluded
            && (forall ref :: ref in after.covered <==> ref in c.covered || IsPreviewed(previews, ref, None))
            && (forall t, ref :: IsTyped(after, t, ref) <==> IsTyped(c, t, ref) || IsPreviewed(previews, ref, Some(t)))
  {
    if previews != [] {
      PreviewsCover(c, previews[..|previews| - 1]);
      forall ref
        ensures var last := previews[|previews| - 1];
                IsPreviewed(previews, ref, None) <==>
                  IsPreviewed(previews[..|previews| - 1], ref, None) || last.ref == Some(ref)
      {
        PreviewedUpTo(previews, ref, None);
      }
      forall t, ref
        ensures var last := previews[|previews| - 1];
                IsPreviewed(previews, ref, Some(t)) <==>
                  IsPreviewed(previews[..|previews| - 1], ref, Some(t)) || last == Preview(Some(ref), Some(t))
      {
        PreviewedUpTo(previews, ref, Some(t));
      }
    }
  }

  /**
   After a tool result a reference is handled exactly when it was before, or the result previews it, reports it
   failed or excludes it; so one once handled is never missing again.
   */
  lemma AbsorbingIsExact(target: BulkTargets, c: Coverage, outcome: ToolOutcome, ref: Ref)
    ensures IsHandled(target, Absorbed(c, outcome), ref) <==>
              IsHandled(target, c, ref) || ref in outcome.failedRefs || ref in outcome.excludedRefs
              || exists k :: 0 <= k < |outcome.previews| && outcome.previews[k].ref == Some(ref)
  {
    var told := c.(failed := c.failed + (set ref | ref in outcome.failedRefs),
                   excluded := c.excluded + (set ref | ref in outcome.excludedRefs));
    PreviewsCover(told, outcome.previews);
    var after := Absorbed(c, outcome);
    assert forall t :: IsTyped(after, t, ref) <==> IsTyped(c, t, ref) || IsPreviewed(outcome.previews, ref, Some(t));
    if t :| target.entityType == Some(t) && IsTyped(c, t, ref) {
      assert IsTyped(after, t, ref);
    }
    assert IsCovered(target, c, ref) <==>
        ref in c.covered || (target.entityType.Some? && IsTyped(c, target.entityType.value, ref));
    assert IsCovered(target, after, ref) <==>
        ref in after.covered || (target.entityType.Some? && IsTyped(after, target.entityType.value, ref));
  }

  /**
   Auto-plan closes the gap: when each of its operations yields a preview of its reference or an error
   naming it, every reference of that set is handled at the next coverage check.
   */
  lemma PlanClosesGap(target: TargetSet, c: Coverage, issue: Issue, plan: Plan, toolName: Text, input: seq<Member>,
                      outcome: ToolOutcome)
    requires Reports(issue, target, c) && PlansFor(plan, issue.missingRefs, toolName, input)
    requires forall i | 0 <= i < |plan.operations| ::
               plan.expectedTargetRefs[i] in outcome.failedRefs
               || exists k :: 0 <= k < |outcome.previews| && outcome.previews[k].ref == Some(plan.expectedTargetRefs[i])
    ensures forall ref | ref in target.refs :: IsHandled(target, Absorbed(c, outcome), ref)
  {
    forall ref | ref in target.refs
      ensures IsHandled(target, Absorbed(c, outcome), ref)
    {
      AbsorbingIsExact(target, c, outcome, ref);
      if ref in issue.missingRefs {
        var i :| 0 <= i < |issue.missingRefs| && issue.missingRefs[i] == ref;
        assert plan.expectedTargetRefs[i] == ref;
      }
    }
  }
}
