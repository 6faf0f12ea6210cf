/**
 The CI spec scheduler (`schedule` of `backend/scripts/run-ci-tests.js`): cooperative workers pull from
 three queues, behind the phase in which lane 1 runs the exclusive specs.  A worker runs without
 interruption up to its next await; which worker goes on next is arbitrary.
 */
module SpecScheduler {
  /** A spec's path, which is never empty (an empty one would end a queue early): it ends in `.spec.ts`. */
  datatype File = File(path: string)

  datatype Kind = Unit | Database | Exclusive

  datatype Task = Task(file: File, kind: Kind)

  /** `Waiting` awaits the end of the exclusive phase. */
  datatype Worker = NotStarted | Running(task: Task) | Waiting | Finished

  /** A spec that ended, on the lane whose database it had (0: none). */
  datatype Done = Done(task: Task, lane: nat)

  datatype State = State(
    unit: seq<File>,
    database: seq<File>,
    exclusive: seq<File>,
    exclusiveFinished: bool,
    lanes: nat,
    workers: seq<Worker>,
    results: seq<Done>)

  datatype Step = Start(w: nat) | SpecEnds(w: nat) | PhaseEnds(w: nat)

  // ----- What a worker does up to its next await -----

  function At(s: State, w: nat, worker: Worker): State
    requires w < |s.workers|
  {
    s.(workers := s.workers[w := worker])
  }

  function LaneNext(s: State, w: nat): State
    requires w < |s.workers|
  {
    if s.exclusiveFinished && s.database != []
    then At(s.(database := s.database[1..]), w, Running(Task(s.database[0], Database)))
    else if s.unit != [] then At(s.(unit := s.unit[1..]), w, Running(Task(s.unit[0], Unit)))
    else if !s.exclusiveFinished then At(s, w, Waiting)
    else At(s, w, Finished)
  }

  function UnitNext(s: State, w: nat): State
    requires w < |s.workers|
  {
    if s.unit != [] then At(s.(unit := s.unit[1..]), w, Running(Task(s.unit[0], Unit))) else At(s, w, Finished)
  }

  function ExclusiveNext(s: State, w: nat): State
    requires w < |s.workers|
  {
    if s.exclusive != [] then At(s.(exclusive := s.exclusive[1..]), w, Running(Task(s.exclusive[0], Exclusive)))
    else LaneNext(s.(exclusiveFinished := true), w)
  }

  predicate Enabled(s: State, step: Step) {
    match step
    case Start(w) => w < |s.workers| && s.workers[w] == NotStarted
    case SpecEnds(w) => w < |s.workers| && s.workers[w].Running?
    case PhaseEnds(w) => w < |s.workers| && s.workers[w] == Waiting && s.exclusiveFinished
  }

  function Next(s: State, step: Step): State
    requires Enabled(s, step)
  {
    match step
    case Start(w) =>
      if w == 0 && s.exclusive != [] then ExclusiveNext(s, w)
      else if w < s.lanes then LaneNext(s, w)
      else UnitNext(s, w)
    case SpecEnds(w) =>
      var task := s.workers[w].task;
      var ended := s.(results := s.results + [Done(task, if task.kind == Unit then 0 else w + 1)]);
      if task.kind == Exclusive then ExclusiveNext(ended, w)
      else if w < s.lanes then LaneNext(ended, w)
      else UnitNext(ended, w)
    case PhaseEnds(w) => LaneNext(s, w)
  }

  // ----- Tasks and where they are -----

  /** How often task `t` is in a queue of its kind. */
  ghost function Listed(files: seq<File>, kind: Kind, t: Task): nat {
    if files == [] then 0 else (if Task(files[0], kind) == t then 1 else 0) + Listed(files[1..], kind, t)
  }

  ghost function Holding(worker: Worker, t: Task): nat {
    if worker == Running(t) then 1 else 0
  }

  /** How many workers run task `t`. */
  ghost function InHand(workers: seq<Worker>, t: Task): nat {
    if workers == [] then 0 else InHand(workers[..|workers| - 1], t) + Holding(workers[|workers| - 1], t)
  }

  /** How often task `t` has ended. */
  ghost function Ended(results: seq<Done>, t: Task): nat {
    if results == [] then 0
    else Ended(results[..|results| - 1], t) + if results[|results| - 1].task == t then 1 else 0
  }

  ghost function Queued(s: State, t: Task): nat {
    Listed(s.unit, Unit, t) + Listed(s.database, Database, t) + Listed(s.exclusive, Exclusive, t)
  }

  /** How often task `t` is anywhere. */
  ghost function Times(s: State, t: Task): nat {
    Queued(s, t) + InHand(s.workers, t) + Ended(s.results, t)
  }

  lemma {:induction false} InHandOfUpdate(workers: seq<Worker>, w: nat, worker: Worker, t: Task)
    requires w < |workers|
    ensures InHand(workers[w := worker], t) == InHand(workers, t) - Holding(workers[w], t) + Holding(worker, t)
  {
    var n := |workers| - 1;
    if w == n {
      assert workers[w := worker][..n] == workers[..n];
    } else {
      assert workers[w := worker][..n] == workers[..n][w := worker];
      InHandOfUpdate(workers[..n], w, worker, t);
    }
  }

  // ----- Safety -----

  ghost predicate WorkerValid(s: State, w: nat)
    requires w < |s.workers|
  {
    match s.workers[w]
    case NotStarted => true
    case Running(task) =>
      match task.kind {
        case Unit => true
        case Database => w < s.lanes && s.exclusiveFinished
        case Exclusive => w == 0 && !s.exclusiveFinished
      }
    case Waiting => 0 < w < s.lanes && s.unit == []
    case Finished => s.unit == [] && (w < s.lanes ==> s.exclusiveFinished && s.database == [])
  }

  predicate RunsExclusive(worker: Worker) {
    worker.Running? && worker.task.kind == Exclusive
  }

  predicate RunsDatabase(worker: Worker) {
    worker.Running? && worker.task.kind == Database
  }

  ghost predicate Inv(s: State) {
    && 1 <= s.lanes <= |s.workers|
    && (forall w: nat | w < |s.workers| :: WorkerValid(s, w))
    && (s.exclusiveFinished ==> s.exclusive == [])
    && (!s.exclusiveFinished ==> (s.workers[0] == NotStarted && s.exclusive != []) || RunsExclusive(s.workers[0]))
    && ResultsValid(s.results, s.exclusiveFinished, s.lanes)
  }

  ghost predicate ResultsValid(results: seq<Done>, exclusiveFinished: bool, lanes: nat) {
    && (!exclusiveFinished ==> forall k | 0 <= k < |results| :: results[k].task.kind != Database)
    && (forall j, k | 0 <= j < k < |results| ::
          !(results[j].task.kind == Database && results[k].task.kind == Exclusive))
    && (forall k | 0 <= k < |results| :: LaneOk(results[k], lanes))
  }

  predicate LaneOk(done: Done, lanes: nat) {
    match done.task.kind
    case Unit => done.lane == 0
    case Database => 1 <= done.lane <= lanes
    case Exclusive => done.lane == 1
  }

  lemma RecordingKeepsResults(results: seq<Done>, exclusiveFinished: bool, lanes: nat, done: Done)
    requires ResultsValid(results, exclusiveFinished, lanes) && LaneOk(done, lanes)
    requires match done.task.kind
               case Unit => true case Database => exclusiveFinished case Exclusive => !exclusiveFinished
    ensures ResultsValid(results + [done], exclusiveFinished, lanes)
  {
  }

  lemma LaneNextKeeps(s: State, w: nat)
    requires w < s.lanes <= |s.workers| && (s.exclusiveFinished || w != 0)
    requires forall v: nat | v < |s.workers| && v != w :: WorkerValid(s, v)
    ensures var after := LaneNext(s, w);
            && (forall v: nat | v < |s.workers| :: WorkerValid(after, v))
            && after.exclusiveFinished == s.exclusiveFinished && after.exclusive == s.exclusive
            && after.results == s.results
            && (w != 0 ==> after.workers[0] == s.workers[0])
  {
    var after := LaneNext(s, w);
    forall v: nat | v < |s.workers|
      ensures WorkerValid(after, v)
    {
      if v != w {
        assert after.workers[v] == s.workers[v] && WorkerValid(s, v);
      }
    }
  }

  lemma UnitNextKeeps(s: State, w: nat)
    requires 1 <= s.lanes <= w < |s.workers|
    requires forall v: nat | v < |s.workers| && v != w :: WorkerValid(s, v)
    ensures var after := UnitNext(s, w);
            && (forall v: nat | v < |s.workers| :: WorkerValid(after, v))
            && after.workers[0] == s.workers[0]
  {
    var after := UnitNext(s, w);
    forall v: nat | v < |s.workers|
      ensures WorkerValid(after, v)
    {
      if v != w {
        assert after.workers[v] == s.workers[v] && WorkerValid(s, v);
      }
    }
  }

  lemma ExclusiveNextKeeps(s: State)
    requires 1 <= s.lanes <= |s.workers| && !s.exclusiveFinished
    requires forall v: nat | v < |s.workers| && v != 0 :: WorkerValid(s, v)
    ensures var after := ExclusiveNext(s, 0);
            && (forall v: nat | v < |s.workers| :: WorkerValid(after, v))
            && (after.exclusiveFinished <==> s.exclusive == [])
            && (after.exclusiveFinished ==> after.exclusive == [])
            && (!after.exclusiveFinished ==> RunsExclusive(after.workers[0]))
  {
    if s.exclusive == [] {
      var lifted := s.(exclusiveFinished := true);
      forall v: nat | v < |s.workers| && v != 0
        ensures WorkerValid(lifted, v)
      {
        assert WorkerValid(s, v);
      }
      LaneNextKeeps(lifted, 0);
    } else {
      var after := ExclusiveNext(s, 0);
      forall v: nat | v < |s.workers| && v != 0
        ensures WorkerValid(after, v)
      {
        assert after.workers[v] == s.workers[v] && WorkerValid(s, v);
      }
    }
  }

  lemma StartKeepsInv(s: State, w: nat)
    requires Inv(s) && Enabled(s, Start(w))
    ensures Inv(Next(s, Start(w)))
  {
    if w == 0 && s.exclusive != [] {
      ExclusiveNextKeeps(s);
    } else if w < s.lanes {
      LaneNextKeeps(s, w);
    } else {
      UnitNextKeeps(s, w);
    }
  }

  lemma SpecEndsKeepsInv(s: State, w: nat)
    requires Inv(s) && Enabled(s, SpecEnds(w))
    ensures Inv(Next(s, SpecEnds(w)))
  {
    var task := s.workers[w].task;
    var ended := s.(results := s.results + [Done(task, if task.kind == Unit then 0 else w + 1)]);
    assert WorkerValid(s, w);
    RecordingKeepsResults(s.results, s.exclusiveFinished, s.lanes, ended.results[|s.results|]);
    forall v: nat | v < |s.workers|
      ensures WorkerValid(ended, v)
    {
      assert WorkerValid(s, v);
    }
    if task.kind == Exclusive {
      ExclusiveNextKeeps(ended);
    } else if w < s.lanes {
      LaneNextKeeps(ended, w);
    } else {
      UnitNextKeeps(ended, w);
    }
  }

  lemma StepKeepsInv(s: State, step: Step)
    requires Inv(s) && Enabled(s, step)
    ensures Inv(Next(s, step))
  {
    match step
    case Start(w) => StartKeepsInv(s, w);
    case SpecEnds(w) => SpecEndsKeepsInv(s, w);
    case PhaseEnds(w) =>
      assert WorkerValid(s, w);
      LaneNextKeeps(s, w);
  }

  // ----- Conservation and termination -----

  /** Handing a spec from a queue to a worker that has none loses none and doubles none. */
  lemma HandingConserves(s: State, after: State, w: nat, t: Task)
    requires w < |s.workers| == |after.workers| && !s.workers[w].Running?
    requires after.workers == s.workers[w := after.workers[w]] && after.results == s.results
    requires Queued(s, t) == Queued(after, t) + Holding(after.workers[w], t)
    ensures Times(after, t) == Times(s, t)
  {
    InHandOfUpdate(s.workers, w, after.workers[w], t);
  }

  lemma LaneNextConserves(s: State, w: nat, t: Task)
    requires w < |s.workers| && !s.workers[w].Running?
    ensures Times(LaneNext(s, w), t) == Times(s, t)
  {
    HandingConserves(s, LaneNext(s, w), w, t);
  }

  lemma UnitNextConserves(s: State, w: nat, t: Task)
    requires w < |s.workers| && !s.workers[w].Running?
    ensures Times(UnitNext(s, w), t) == Times(s, t)
  {
    HandingConserves(s, UnitNext(s, w), w, t);
  }

  lemma ExclusiveNextConserves(s: State, w: nat, t: Task)
    requires w < |s.workers| && !s.workers[w].Running?
    ensures Times(ExclusiveNext(s, w), t) == Times(s, t)
  {
    if s.exclusive == [] {
      LaneNextConserves(s.(exclusiveFinished := true), w, t);
    } else {
      HandingConserves(s, ExclusiveNext(s, w), w, t);
    }
  }

  /** The state in which the worker of an ended spec has recorded it and holds none. */
  function Recorded(s: State, w: nat): State
    requires w < |s.workers| && s.workers[w].Running?
  {
    var task := s.workers[w].task;
    At(s, w, NotStarted).(results := s.results + [Done(task, if task.kind == Unit then 0 else w + 1)])
  }

  lemma RecordedConserves(s: State, w: nat, t: Task)
    requires w < |s.workers| && s.workers[w].Running?
    ensures Times(Recorded(s, w), t) == Times(s, t)
  {
    InHandOfUpdate(s.workers, w, NotStarted, t);
    var results := Recorded(s, w).results;
    assert results[..|s.results|] == s.results;
  }

  lemma SpecEndsFromRecorded(s: State, w: nat)
    requires w < |s.workers| && s.workers[w].Running?
    ensures Next(s, SpecEnds(w))
         == if s.workers[w].task.kind == Exclusive then ExclusiveNext(Recorded(s, w), w)
            else if w < s.lanes then LaneNext(Recorded(s, w), w)
            else UnitNext(Recorded(s, w), w)
  {
    var after := Next(s, SpecEnds(w));
    assert Recorded(s, w).workers[w := after.workers[w]] == after.workers;
  }

  lemma SpecEndsConserves(s: State, w: nat, t: Task)
    requires Enabled(s, SpecEnds(w))
    ensures Times(Next(s, SpecEnds(w)), t) == Times(s, t)
  {
    SpecEndsFromRecorded(s, w);
    RecordedConserves(s, w, t);
    var r := Recorded(s, w);
    if s.workers[w].task.kind == Exclusive {
      ExclusiveNextConserves(r, w, t);
    } else if w < s.lanes {
      LaneNextConserves(r, w, t);
    } else {
      UnitNextConserves(r, w, t);
    }
  }

  lemma StepConserves(s: State, step: Step, t: Task)
    requires Enabled(s, step)
    ensures Times(Next(s, step), t) == Times(s, t)
  {
    match step
    case Start(w) =>
      if w == 0 && s.exclusive != [] {
        ExclusiveNextConserves(s, w, t);
      } else if w < s.lanes {
        LaneNextConserves(s, w, t);
      } else {
        UnitNextConserves(s, w, t);
      }
    case SpecEnds(w) => SpecEndsConserves(s, w, t);
    case PhaseEnds(w) => LaneNextConserves(s, w, t);
  }

  ghost function Weight(worker: Worker): nat {
    match worker
    case NotStarted => 3
    case Running(_) => 2
    case Waiting => 1
    case Finished => 0
  }

  ghost function Weights(workers: seq<Worker>): nat {
    if workers == [] then 0 else Weights(workers[..|workers| - 1]) + Weight(workers[|workers| - 1])
  }

  lemma {:induction false} WeightsOfUpdate(workers: seq<Worker>, w: nat, worker: Worker)
    requires w < |workers|
    ensures Weights(workers[w := worker]) == Weights(workers) - Weight(workers[w]) + Weight(worker)
  {
    var n := |workers| - 1;
    if w == n {
      assert workers[w := worker][..n] == workers[..n];
    } else {
      assert workers[w := worker][..n] == workers[..n][w := worker];
      WeightsOfUpdate(workers[..n], w, worker);
    }
  }

  ghost function QueueLength(s: State): nat {
    |s.unit| + |s.database| + |s.exclusive|
  }

  /** The work still ahead; a step takes some of it away. */
  ghost function Ahead(s: State): nat {
    3 * QueueLength(s) + Weights(s.workers)
  }

  lemma GoingOnAdvances(s: State, after: State, w: nat)
    requires w < |s.workers| == |after.workers| && after.workers == s.workers[w := after.workers[w]]
    requires 3 * QueueLength(after) + Weight(after.workers[w]) < 3 * QueueLength(s) + Weight(s.workers[w])
    ensures Ahead(after) < Ahead(s)
  {
    WeightsOfUpdate(s.workers, w, after.workers[w]);
  }

  lemma LaneNextWeighs(s: State, w: nat)
    requires w < |s.workers|
    ensures 3 * QueueLength(LaneNext(s, w)) + Weight(LaneNext(s, w).workers[w])
            <= 3 * QueueLength(s) + (if s.exclusiveFinished then 0 else 1)
    ensures 3 * QueueLength(UnitNext(s, w)) + Weight(UnitNext(s, w).workers[w]) <= 3 * QueueLength(s)
    ensures 3 * QueueLength(ExclusiveNext(s, w)) + Weight(ExclusiveNext(s, w).workers[w]) <= 3 * QueueLength(s)
  {
  }

  lemma StepWeighs(s: State, step: Step)
    requires Enabled(s, step)
    ensures var w, after := step.w, Next(s, step);
            |after.workers| == |s.workers|
            && 3 * QueueLength(after) + Weight(after.workers[w]) < 3 * QueueLength(s) + Weight(s.workers[w])
  {
    if step.SpecEnds? {
      SpecEndsFromRecorded(s, step.w);
      LaneNextWeighs(Recorded(s, step.w), step.w);
    } else {
      LaneNextWeighs(s, step.w);
    }
  }

  lemma StepMovesOneWorker(s: State, step: Step)
    requires Enabled(s, step)
    ensures |Next(s, step).workers| == |s.workers|
    ensures Next(s, step).workers == s.workers[step.w := Next(s, step).workers[step.w]]
  {
  }

  lemma StepAdvances(s: State, step: Step)
    requires Enabled(s, step)
    ensures Ahead(Next(s, step)) < Ahead(s)
  {
    StepWeighs(s, step);
    StepMovesOneWorker(s, step);
    GoingOnAdvances(s, Next(s, step), step.w);
  }

  // ----- Whole runs -----

  ghost predicate Initial(s: State) {
    && 1 <= s.lanes <= |s.workers| && (forall w | 0 <= w < |s.workers| :: s.workers[w] == NotStarted)
    && s.results == [] && (s.exclusiveFinished <==> s.exclusive == [])
  }

  ghost predicate Leads(from: State, steps: seq<Step>, to: State)
    decreases |steps|
  {
    if steps == [] then to == from
    else Enabled(from, steps[0]) && Leads(Next(from, steps[0]), steps[1..], to)
  }

  lemma {:induction false} RunKeepsInv(from: State, steps: seq<Step>, to: State)
    requires Inv(from) && Leads(from, steps, to)
    ensures Inv(to)
    decreases |steps|
  {
    if steps != [] {
      StepKeepsInv(from, steps[0]);
      RunKeepsInv(Next(from, steps[0]), steps[1..], to);
    }
  }

  lemma {:induction false} RunConserves(from: State, steps: seq<Step>, to: State, t: Task)
    requires Leads(from, steps, to)
    ensures Times(to, t) == Times(from, t)
    decreases |steps|
  {
    if steps != [] {
      StepConserves(from, steps[0], t);
      RunConserves(Next(from, steps[0]), steps[1..], to, t);
    }
  }

  lemma {:induction false} RunAdvances(from: State, steps: seq<Step>, to: State)
    requires Leads(from, steps, to)
    ensures |steps| + Ahead(to) <= Ahead(from)
    decreases |steps|
  {
    if steps != [] {
      StepAdvances(from, steps[0]);
      RunAdvances(Next(from, steps[0]), steps[1..], to);
    }
  }

  /** Some database spec has been started. */
  ghost predicate DatabaseBegun(s: State) {
    || (exists v: nat :: v < |s.workers| && RunsDatabase(s.workers[v]))
    || (exists k :: 0 <= k < |s.results| && s.results[k].task.kind == Database)
  }

  /** Whether an exclusive spec runs or is still to run. */
  ghost predicate ExclusiveLeft(s: State) {
    s.exclusive != [] || exists v: nat :: v < |s.workers| && RunsExclusive(s.workers[v])
  }

  /**
   Safety, over all interleavings: two workers never run an exclusive spec together, nor an exclusive
   and a database spec; no database spec is started while an exclusive one runs or is still to run; and
   a database spec never ended before an exclusive one.
   */
  lemma ExclusiveSpecsRunAlone(from: State, steps: seq<Step>, s: State)
    requires Initial(from) && Leads(from, steps, s)
    ensures forall v: nat, w: nat | v < |s.workers| && w < |s.workers| && v != w && RunsExclusive(s.workers[w]) ::
              !RunsExclusive(s.workers[v]) && !RunsDatabase(s.workers[v])
    ensures DatabaseBegun(s) ==> !ExclusiveLeft(s)
    ensures forall j, k | 0 <= j < k < |s.results| ::
              !(s.results[j].task.kind == Database && s.results[k].task.kind == Exclusive)
  {
    RunKeepsInv(from, steps, s);
    forall v: nat | v < |s.workers|
      ensures RunsExclusive(s.workers[v]) ==> v == 0 && !s.exclusiveFinished
      ensures RunsDatabase(s.workers[v]) ==> s.exclusiveFinished
    {
      assert WorkerValid(s, v);
    }
  }

  /** No run goes on for ever, and none stops early: as long as a worker has not finished, some step is possible. */
  lemma SomeStepIsPossible(from: State, steps: seq<Step>, s: State)
    requires Initial(from) && Leads(from, steps, s)
    ensures |steps| <= Ahead(from)
    ensures (exists w: nat :: w < |s.workers| && s.workers[w] != Finished) ==> exists step :: Enabled(s, step)
  {
    RunKeepsInv(from, steps, s);
    RunAdvances(from, steps, s);
    if w: nat :| w < |s.workers| && s.workers[w] != Finished {
      assert WorkerValid(s, w);
      if s.workers[w] == Waiting && !s.exclusiveFinished {
        // Waiting for the exclusive phase: lane 1 is still to start or running it.
        if s.workers[0] == NotStarted {
          assert Enabled(s, Start(0));
        } else {
          assert Enabled(s, SpecEnds(0));
        }
      } else {
        assert Enabled(s,
                       match s.workers[w]
                         case NotStarted => Start(w) case Running(_) => SpecEnds(w) case _ => PhaseEnds(w));
      }
    }
  }

  lemma {:induction false} NoneInHand(workers: seq<Worker>, t: Task)
    requires forall w | 0 <= w < |workers| :: !workers[w].Running?
    ensures InHand(workers, t) == 0
  {
    if workers != [] {
      NoneInHand(workers[..|workers| - 1], t);
    }
  }

  lemma AtTheEnd(from: State, steps: seq<Step>, s: State)
    requires Initial(from) && Leads(from, steps, s) && forall step :: !Enabled(s, step)
    ensures forall w | 0 <= w < |s.workers| :: s.workers[w] == Finished
    ensures s.unit == [] && s.database == [] && s.exclusive == [] && s.exclusiveFinished
  {
    RunKeepsInv(from, steps, s);
    SomeStepIsPossible(from, steps, s);
    forall w: nat | w < |s.workers|
      ensures s.workers[w] == Finished
    {
      assert !(w < |s.workers| && s.workers[w] != Finished);
    }
    assert WorkerValid(s, 0);
  }

  /**
   Conservation and liveness: a run that can go no further has emptied every queue, and each spec has run
   exactly as often as it was listed, as the kind it was listed as.
   */
  lemma EveryRunRunsEachSpecOnce(from: State, steps: seq<Step>, s: State)
    requires Initial(from) && Leads(from, steps, s) && forall step :: !Enabled(s, step)
    ensures s.unit == [] && s.database == [] && s.exclusive == [] && s.exclusiveFinished
    ensures forall t :: Ended(s.results, t) == Queued(from, t)
  {
    AtTheEnd(from, steps, s);
    forall t
      ensures Ended(s.results, t) == Queued(from, t)
    {
      NoneInHand(s.workers, t);
      NoneInHand(from.workers, t);
      RunConserves(from, steps, s, t);
    }
  }
}
