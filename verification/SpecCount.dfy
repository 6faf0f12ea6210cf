/**
 What `main` of `backend/scripts/run-ci-tests.js` does around the scheduler: it sorts the discovered specs
 into three queues, and at the end checks that every discovered spec ran exactly once.
 */
module SpecCount {
  import opened Wrappers
  import opened SpecScheduler

  function Filter(files: seq<File>, keep: File -> bool): (kept: seq<File>)
    ensures forall f :: f in kept <==> f in files && keep(f)
  {
    if files == [] then []
    else if keep(files[0]) then [files[0]] + Filter(files[1..], keep)
    else Filter(files[1..], keep)
  }

  /** The filter and its complement share out the list, duplicates included. */
  lemma {:induction false} FilterSharesOut(files: seq<File>, keep: File -> bool, drop: File -> bool)
    requires forall f :: f in files ==> drop(f) == !keep(f)
    ensures multiset(Filter(files, keep)) + multiset(Filter(files, drop)) == multiset(files)
    ensures |Filter(files, keep)| + |Filter(files, drop)| == |files|
  {
    if files != [] {
      assert files == [files[0]] + files[1..];
      FilterSharesOut(files[1..], keep, drop);
    }
  }

  lemma {:induction false} FilterTimes(files: seq<File>, keep: File -> bool, f: File)
    ensures multiset(Filter(files, keep))[f] == if keep(f) then multiset(files)[f] else 0
  {
    if files != [] {
      assert files == [files[0]] + files[1..];
      FilterTimes(files[1..], keep, f);
    }
  }

  // ----- The three queues -----

  /** `needsDb` is what the pattern over the spec's text says, `reason` what `exclusiveReason` returns. */
  datatype Sorting = Sorting(needsDb: File -> bool, reason: File -> Option<string>)

  function DatabaseSpecs(specs: seq<File>, how: Sorting): seq<File> {
    Filter(specs, how.needsDb)
  }

  function UnitQueue(specs: seq<File>, how: Sorting): seq<File> {
    Filter(specs, f => f !in DatabaseSpecs(specs, how))
  }

  function ExclusiveQueue(specs: seq<File>, how: Sorting): seq<File> {
    Filter(DatabaseSpecs(specs, how), f => how.reason(f).Some?)
  }

  function DatabaseQueue(specs: seq<File>, how: Sorting): seq<File> {
    Filter(DatabaseSpecs(specs, how), f => how.reason(f).None?)
  }

  /** No spec is lost or put in two queues, also when one is listed twice. */
  lemma QueuesShareOut(specs: seq<File>, how: Sorting)
    ensures multiset(UnitQueue(specs, how)) + multiset(DatabaseQueue(specs, how)) + multiset(ExclusiveQueue(specs, how))
         == multiset(specs)
  {
    var db := DatabaseSpecs(specs, how);
    FilterSharesOut(specs, how.needsDb, f => f !in db);
    FilterSharesOut(db, f => how.reason(f).Some?, f => how.reason(f).None?);
  }

  /** A spec without a database is a unit spec; one with a reason to run alone is exclusive. */
  ghost predicate IsSortedAs(f: File, kind: Kind, how: Sorting) {
    match kind
    case Unit => !how.needsDb(f)
    case Database => how.needsDb(f) && how.reason(f) == None
    case Exclusive => how.needsDb(f) && how.reason(f) != None
  }

  /** Each queue holds exactly the specs of its kind, as often as they are listed. */
  lemma QueuesHold(specs: seq<File>, how: Sorting, f: File)
    ensures multiset(UnitQueue(specs, how))[f] == if IsSortedAs(f, Unit, how) then multiset(specs)[f] else 0
    ensures multiset(DatabaseQueue(specs, how))[f] == if IsSortedAs(f, Database, how) then multiset(specs)[f] else 0
    ensures multiset(ExclusiveQueue(specs, how))[f] == if IsSortedAs(f, Exclusive, how) then multiset(specs)[f] else 0
  {
    var db := DatabaseSpecs(specs, how);
    FilterTimes(specs, how.needsDb, f);
    FilterTimes(specs, g => g !in db, f);
    FilterTimes(db, g => how.reason(g).Some?, f);
    FilterTimes(db, g => how.reason(g).None?, f);
    assert f in specs <==> multiset(specs)[f] > 0;
  }

  // ----- The check at the end -----

  /** The files in the order their specs ended. */
  function FilesOf(results: seq<Done>): (files: seq<File>)
    ensures |files| == |results|
    ensures forall k | 0 <= k < |results| :: files[k] == results[k].task.file
  {
    seq(|results|, k requires 0 <= k < |results| => results[k].task.file)
  }

  function CountOf(results: seq<Done>, kind: Kind): nat {
    if results == [] then 0
    else CountOf(results[..|results| - 1], kind) + if results[|results| - 1].task.kind == kind then 1 else 0
  }

  lemma {:induction false} EveryResultIsCounted(results: seq<Done>)
    ensures CountOf(results, Unit) + CountOf(results, Database) + CountOf(results, Exclusive) == |results|
  {
    if results != [] {
      EveryResultIsCounted(results[..|results| - 1]);
    }
  }

  predicate CheckPasses(results: seq<Done>, leftOut: nat, discovered: nat) {
    && CountOf(results, Unit) + CountOf(results, Database) + CountOf(results, Exclusive) + leftOut == discovered
    && |set f | f in FilesOf(results)| == |results|
  }

  ghost predicate Distinct(files: seq<File>) {
    forall j, k | 0 <= j < k < |files| :: files[j] != files[k]
  }

  lemma DistinctGrows(front: seq<File>, last: File)
    ensures Distinct(front + [last]) <==> Distinct(front) && last !in front
  {
    var files, n := front + [last], |front|;
    assert forall j | 0 <= j < n :: files[j] == front[j];
    assert Distinct(files) ==> forall k | 0 <= k < n :: files[k] != files[n];
  }

  lemma {:induction false} DistinctHasFullSet(files: seq<File>)
    ensures |set f | f in files| <= |files|
    ensures |set f | f in files| == |files| <==> Distinct(files)
  {
    if files != [] {
      var n := |files| - 1;
      var front := files[..n];
      DistinctHasFullSet(front);
      assert files == front + [files[n]];
      assert (set f | f in files) == (set f | f in front) + {files[n]};
      DistinctGrows(front, files[n]);
    }
  }

  lemma {:induction false} DistinctOccursOnce(files: seq<File>, f: File)
    requires Distinct(files)
    ensures multiset(files)[f] == if f in files then 1 else 0
  {
    if files != [] {
      var n := |files| - 1;
      assert files == files[..n] + [files[n]];
      DistinctOccursOnce(files[..n], f);
      assert forall k | 0 <= k < n :: files[k] != files[n];
    }
  }

  /**
   Whatever the scheduler did, provided it ran no file but the ones kept: the closing check passes exactly
   when every kept spec ran exactly once, and none was listed twice.
   */
  lemma CheckIsExact(specs: seq<File>, leftOut: nat, results: seq<Done>)
    requires forall f :: f in FilesOf(results) ==> f in specs
    ensures CheckPasses(results, leftOut, |specs| + leftOut)
         <==> Distinct(specs) && multiset(FilesOf(results)) == multiset(specs)
  {
    var files := FilesOf(results);
    EveryResultIsCounted(results);
    DistinctHasFullSet(files);
    DistinctHasFullSet(specs);
    var ran, listed := set f | f in files, set f | f in specs;
    if CheckPasses(results, leftOut, |specs| + leftOut) {
      SubsetOfSameSize(ran, listed);
      assert multiset(files) == multiset(specs) by {
        forall f: File
          ensures multiset(files)[f] == multiset(specs)[f]
        {
          DistinctOccursOnce(files, f);
          DistinctOccursOnce(specs, f);
          assert f in files <==> f in ran;
          assert f in specs <==> f in listed;
        }
      }
    }
    if Distinct(specs) && multiset(files) == multiset(specs) {
      assert |files| == |multiset(files)| == |multiset(specs)| == |specs|;
      assert ran == listed by {
        forall f: File
          ensures f in ran <==> f in listed
        {
          assert f in files <==> f in multiset(files);
        }
      }
    }
  }

  lemma SubsetOfSameSize(a: set<File>, b: set<File>)
    requires a <= b && |b| <= |a|
    ensures a == b
  {
    assert |b - a| == |b| - |a|;
  }

  // ----- From discovery to the check -----

  lemma {:induction false} ListedTimes(files: seq<File>, kind: Kind, t: Task)
    ensures Listed(files, kind, t) == if t.kind == kind then multiset(files)[t.file] else 0
  {
    if files != [] {
      assert files == [files[0]] + files[1..];
      ListedTimes(files[1..], kind, t);
    }
  }

  /** Every result of file `f` is of one of the three kinds. */
  lemma {:induction false} EndedTimes(results: seq<Done>, f: File)
    ensures Ended(results, Task(f, Unit)) + Ended(results, Task(f, Database)) + Ended(results, Task(f, Exclusive))
         == multiset(FilesOf(results))[f]
  {
    if results != [] {
      var front, last := results[..|results| - 1], results[|results| - 1].task;
      EndedTimes(front, f);
      assert FilesOf(results) == FilesOf(front) + [last.file];
      match last.kind
      case Unit => assert last.file == f <==> last == Task(f, Unit);
      case Database => assert last.file == f <==> last == Task(f, Database);
      case Exclusive => assert last.file == f <==> last == Task(f, Exclusive);
    }
  }

  /** The specs `main` goes on with: without the races when a lane is a developer's own database. */
  function KeptSpecs(discovered: seq<File>, race: File -> bool, refused: bool): seq<File> {
    if refused then Filter(discovered, f => !race(f)) else discovered
  }

  lemma QueuedSpecsRun(specs: seq<File>, how: Sorting, from: State, steps: seq<Step>, s: State)
    requires multiset(from.unit) == multiset(UnitQueue(specs, how))
    requires multiset(from.database) == multiset(DatabaseQueue(specs, how))
    requires from.exclusive == ExclusiveQueue(specs, how)
    requires Initial(from) && Leads(from, steps, s) && forall step :: !Enabled(s, step)
    ensures multiset(FilesOf(s.results)) == multiset(specs)
  {
    EveryRunRunsEachSpecOnce(from, steps, s);
    QueuesShareOut(specs, how);
    FilesRun(from, s.results);
  }

  /**
   End to end, for every interleaving and every order of the unit and database queues: the specs that ran
   are the specs kept, each as often as it was listed, so the closing check fails only when the discovery
   listed one twice.
   */
  lemma EveryKeptSpecRuns(
      discovered: seq<File>, race: File -> bool, refused: bool, specs: seq<File>, how: Sorting,
      from: State, steps: seq<Step>, s: State)
    requires specs == KeptSpecs(discovered, race, refused)
    requires multiset(from.unit) == multiset(UnitQueue(specs, how))
    requires multiset(from.database) == multiset(DatabaseQueue(specs, how))
    requires from.exclusive == ExclusiveQueue(specs, how)
    requires Initial(from) && Leads(from, steps, s) && forall step :: !Enabled(s, step)
    ensures multiset(FilesOf(s.results)) == multiset(specs) && |specs| <= |discovered|
    ensures CheckPasses(s.results, |discovered| - |specs|, |discovered|) <==> Distinct(specs)
  {
    FilterSharesOut(discovered, f => !race(f), race);
    QueuedSpecsRun(specs, how, from, steps, s);
    forall f | f in FilesOf(s.results)
      ensures f in specs
    {
      assert f in multiset(FilesOf(s.results));
    }
    CheckIsExact(specs, |discovered| - |specs|, s.results);
  }

  /**
   Each discovered spec runs as its kind and as often as it was listed, and not at all as another kind; the races
   do not run when they are refused.
   */
  lemma EverySpecRunsAsItsKind(
      discovered: seq<File>, race: File -> bool, refused: bool, how: Sorting, from: State, steps: seq<Step>, s: State,
      f: File, kind: Kind)
    requires var specs := KeptSpecs(discovered, race, refused);
             && multiset(from.unit) == multiset(UnitQueue(specs, how))
             && multiset(from.database) == multiset(DatabaseQueue(specs, how))
             && from.exclusive == ExclusiveQueue(specs, how)
    requires Initial(from) && Leads(from, steps, s) && forall step :: !Enabled(s, step)
    ensures Ended(s.results, Task(f, kind))
         == if IsSortedAs(f, kind, how) && !(refused && race(f)) then multiset(discovered)[f] else 0
  {
    EveryRunRunsEachSpecOnce(from, steps, s);
    QueuedTimes(from, f);
    QueuesHold(KeptSpecs(discovered, race, refused), how, f);
    FilterTimes(discovered, g => !race(g), f);
  }

  lemma FilesRun(from: State, results: seq<Done>)
    requires forall t :: Ended(results, t) == Queued(from, t)
    ensures multiset(FilesOf(results)) == multiset(from.unit) + multiset(from.database) + multiset(from.exclusive)
  {
    forall f: File
      ensures multiset(FilesOf(results))[f]
                == multiset(from.unit)[f] + multiset(from.database)[f] + multiset(from.exclusive)[f]
    {
      EndedTimes(results, f);
      QueuedTimes(from, f);
    }
  }

  lemma QueuedTimes(from: State, f: File)
    ensures Queued(from, Task(f, Unit)) == multiset(from.unit)[f]
    ensures Queued(from, Task(f, Database)) == multiset(from.database)[f]
    ensures Queued(from, Task(f, Exclusive)) == multiset(from.exclusive)[f]
  {
    forall k: Kind
      ensures Queued(from, Task(f, k)) == match k
                                          case Unit => multiset(from.unit)[f]
                                          case Database => multiset(from.database)[f]
                                          case Exclusive => multiset(from.exclusive)[f]
    {
      ListedTimes(from.unit, Unit, Task(f, k));
      ListedTimes(from.database, Database, Task(f, k));
      ListedTimes(from.exclusive, Exclusive, Task(f, k));
    }
  }
}
