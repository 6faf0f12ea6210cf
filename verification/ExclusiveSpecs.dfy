/**
 Which database specs must run alone (`exclusiveReason` of `backend/scripts/run-ci-tests.js`): a worklist
 over the spec and the test helpers it imports, cycles included.
 */
module ExclusiveSpecs {
  import opened Wrappers

  type Path = string

  /**
   A source file: what each exclusive pattern matches in it, and for each relative import the paths it
   may resolve to, in the order they are tried.
   */
  datatype Source = Source(matches: seq<Option<string>>, imports: seq<seq<Path>>)

  type Files = map<Path, Source>

  datatype Reason = Reason(statement: string, inHelper: Option<Path>)

  /** The k-th pattern matches, and none before it does. */
  ghost predicate IsFirstMatch(matches: seq<Option<string>>, k: int) {
    0 <= k < |matches| && matches[k].Some? && forall j | 0 <= j < k :: matches[j].None?
  }

  /** What the first matching pattern matched. */
  function FirstMatch(matches: seq<Option<string>>): (r: Option<string>)
    ensures r.None? <==> forall k | 0 <= k < |matches| :: matches[k].None?
    ensures r.Some? ==> exists k :: IsFirstMatch(matches, k) && matches[k] == r
  {
    if matches == [] then None
    else if matches[0].Some? then
      assert IsFirstMatch(matches, 0);
      matches[0]
    else
      var r := FirstMatch(matches[1..]);
      assert r.Some? ==> exists k :: IsFirstMatch(matches, k) && matches[k] == r by {
        if k :| IsFirstMatch(matches[1..], k) && matches[1..][k] == r {
          assert IsFirstMatch(matches, k + 1);
        }
      }
      r
  }

  /** The k-th candidate is a file, and none before it is. */
  ghost predicate IsFirstFile(files: Files, candidates: seq<Path>, k: int) {
    0 <= k < |candidates| && candidates[k] in files && forall j | 0 <= j < k :: candidates[j] !in files
  }

  /** The first candidate that is a file. */
  function FirstFile(files: Files, candidates: seq<Path>): (r: Option<Path>)
    ensures r.None? <==> forall p | p in candidates :: p !in files
    ensures r.Some? ==> exists k :: IsFirstFile(files, candidates, k) && candidates[k] == r.value
  {
    if candidates == [] then None
    else if candidates[0] in files then
      assert IsFirstFile(files, candidates, 0);
      Some(candidates[0])
    else
      var r := FirstFile(files, candidates[1..]);
      assert r.Some? ==> exists k :: IsFirstFile(files, candidates, k) && candidates[k] == r.value by {
        if k :| IsFirstFile(files, candidates[1..], k) && r == Some(candidates[1..][k]) {
          assert IsFirstFile(files, candidates, k + 1);
        }
      }
      r
  }

  /** An import resolves to the first candidate that is a file, whatever the later ones are. */
  lemma FirstFileIsFirst(files: Files, candidates: seq<Path>, p: Path)
    ensures FirstFile(files, candidates) == Some(p) <==>
              exists k :: IsFirstFile(files, candidates, k) && candidates[k] == p
  {
    if k :| IsFirstFile(files, candidates, k) && candidates[k] == p {
      assert candidates[k] in candidates;
      var l :| IsFirstFile(files, candidates, l) && candidates[l] == FirstFile(files, candidates).value;
      assert k == l;
    }
  }

  /** `a` imports the test helper `b`: it is the first existing candidate of one of its imports. */
  ghost predicate Imports(files: Files, inTests: Path -> bool, a: Path, b: Path) {
    a in files && inTests(b)
    && exists i, k :: 0 <= i < |files[a].imports| && IsFirstFile(files, files[a].imports[i], k)
                      && files[a].imports[i][k] == b
  }

  ghost predicate IsChain(files: Files, inTests: Path -> bool, chain: seq<Path>) {
    chain != [] && forall k | 0 <= k < |chain| - 1 :: Imports(files, inTests, chain[k], chain[k + 1])
  }

  /** A chain of imports leads from `spec` to `p`. */
  ghost predicate Reaches(files: Files, inTests: Path -> bool, spec: Path, p: Path) {
    exists chain :: IsChain(files, inTests, chain) && chain[0] == spec && chain[|chain| - 1] == p
  }

  ghost predicate Matches(files: Files, p: Path) {
    p in files && exists k :: 0 <= k < |files[p].matches| && files[p].matches[k].Some?
  }

  lemma ReachesItself(files: Files, inTests: Path -> bool, spec: Path)
    ensures Reaches(files, inTests, spec, spec)
  {
    assert IsChain(files, inTests, [spec]);
  }

  lemma ReachesFurther(files: Files, inTests: Path -> bool, spec: Path, a: Path, b: Path)
    requires Reaches(files, inTests, spec, a) && Imports(files, inTests, a, b)
    ensures Reaches(files, inTests, spec, b)
  {
    var chain :| IsChain(files, inTests, chain) && chain[0] == spec && chain[|chain| - 1] == a;
    var longer := chain + [b];
    forall k | 0 <= k < |longer| - 1
      ensures Imports(files, inTests, longer[k], longer[k + 1])
    {
      if k < |chain| - 1 {
        assert Imports(files, inTests, chain[k], chain[k + 1]);
      }
    }
    assert IsChain(files, inTests, longer);
  }

  /** A set that holds the start and is closed under imports holds every end of a chain. */
  lemma {:induction false} ClosedHoldsChain(files: Files, inTests: Path -> bool, closed: set<Path>, chain: seq<Path>)
    requires IsChain(files, inTests, chain) && chain[0] in closed
    requires forall a, b | a in closed && Imports(files, inTests, a, b) :: b in closed
    ensures chain[|chain| - 1] in closed
  {
    if |chain| > 1 {
      var rest := chain[1..];
      assert Imports(files, inTests, chain[0], chain[1]);
      forall k | 0 <= k < |rest| - 1
        ensures Imports(files, inTests, rest[k], rest[k + 1])
      {
        assert Imports(files, inTests, chain[k + 1], chain[k + 2]);
      }
      ClosedHoldsChain(files, inTests, closed, rest);
    }
  }

  /**
   Terminates on any finite import graph; null exactly when no file reachable from the spec matches an
   exclusive pattern, and otherwise what the first matching pattern matched in a reachable file.
   */
  method ExclusiveReason(files: Files, inTests: Path -> bool, spec: Path) returns (reason: Option<Reason>)
    requires spec in files
    ensures reason.None? <==> forall p | Reaches(files, inTests, spec, p) :: !Matches(files, p)
    ensures reason.Some? ==>
              exists p, k :: Reaches(files, inTests, spec, p) && p in files && IsFirstMatch(files[p].matches, k)
                             && reason.value == Reason(files[p].matches[k].value, if p == spec then None else Some(p))
  {
    var seen: set<Path> := {};
    var pending := [spec];
    ReachesItself(files, inTests, spec);
    while pending != []
      invariant seen <= files.Keys && spec in seen + (set p | p in pending)
      invariant forall p | p in pending :: p in files && Reaches(files, inTests, spec, p)
      invariant forall p | p in seen :: Reaches(files, inTests, spec, p) && !Matches(files, p)
      invariant forall a, b | a in seen && Imports(files, inTests, a, b) :: b in seen || b in pending
      decreases files.Keys - seen, |pending|
    {
      var current := pending[|pending| - 1];
      ghost var waiting := pending;
      pending := pending[..|pending| - 1];
      assert forall p | p in waiting :: p in pending || p == current;
      if current in seen {
        continue;
      }
      seen := seen + {current};
      var matched := FirstMatch(files[current].matches);
      if matched.Some? {
        ghost var k :| IsFirstMatch(files[current].matches, k) && files[current].matches[k] == matched;
        return Some(Reason(matched.value, if current == spec then None else Some(current)));
      }
      pending := PushImports(files, inTests, spec, current, pending);
    }
    forall p | Reaches(files, inTests, spec, p)
      ensures !Matches(files, p)
    {
      var chain :| IsChain(files, inTests, chain) && chain[0] == spec && chain[|chain| - 1] == p;
      ClosedHoldsChain(files, inTests, seen, chain);
    }
    reason := None;
  }

  /** Adds the helpers `current` imports to what is pending. */
  method PushImports(files: Files, inTests: Path -> bool, ghost spec: Path, current: Path, pending: seq<Path>)
    returns (after: seq<Path>)
    requires current in files && Reaches(files, inTests, spec, current)
    requires forall p | p in pending :: p in files && Reaches(files, inTests, spec, p)
    ensures forall p | p in after :: p in files && Reaches(files, inTests, spec, p)
    ensures forall p | p in pending :: p in after
    ensures forall b | Imports(files, inTests, current, b) :: b in after
  {
    after := pending;
    for k := 0 to |files[current].imports|
      invariant forall p | p in after :: p in files && Reaches(files, inTests, spec, p)
      invariant forall p | p in pending :: p in after
      invariant forall j | 0 <= j < k ::
                  var target := FirstFile(files, files[current].imports[j]);
                  target.Some? && inTests(target.value) ==> target.value in after
    {
      var target := FirstFile(files, files[current].imports[k]);
      if target.Some? && inTests(target.value) {
        assert Imports(files, inTests, current, target.value);
        ReachesFurther(files, inTests, spec, current, target.value);
        after := after + [target.value];
      }
    }
  }
}
