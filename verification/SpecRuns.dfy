/**
 The scheduler with its own state (`schedule` of `backend/scripts/run-ci-tests.js`), proved against the
 steps of `SpecScheduler`.
 */
module SpecRuns {
  import opened SpecScheduler

  /** How many of `results` are database specs that ran on lane `lane`. */
  ghost function SpecsOnLane(results: seq<Done>, lane: nat): nat {
    if results == [] then 0
    else
      var last := results[|results| - 1];
      SpecsOnLane(results[..|results| - 1], lane) + if last.task.kind == Database && last.lane == lane then 1 else 0
  }

  /** The count of a lane is the number of database specs among the results that ran on it. */
  lemma {:induction false} LaneCountIsExact(results: seq<Done>, lane: nat)
    ensures SpecsOnLane(results, lane)
         == |set k | 0 <= k < |results| && results[k].task.kind == Database && results[k].lane == lane|
  {
    var counted := set k | 0 <= k < |results| && results[k].task.kind == Database && results[k].lane == lane;
    if results != [] {
      var n := |results| - 1;
      var before := results[..n];
      LaneCountIsExact(before, lane);
      assert counted - {n}
          == set k | 0 <= k < |before| && before[k].task.kind == Database && before[k].lane == lane;
    }
  }

  class Schedule {
    var unit: seq<File>
    var database: seq<File>
    var exclusive: seq<File>
    var exclusiveFinished: bool
    var workers: seq<Worker>
    var results: seq<Done>
    /** The database specs counted for each lane. */
    var specs: seq<nat>
    const lanes: nat

    ghost function View(): State
      reads this
    {
      State(unit, database, exclusive, exclusiveFinished, lanes, workers, results)
    }

    ghost predicate Valid()
      reads this
    {
      && Inv(View())
      && |specs| == lanes
      && forall n | 0 <= n < lanes :: specs[n] == SpecsOnLane(results, n + 1)
    }

    constructor (unit: seq<File>, database: seq<File>, exclusive: seq<File>, lanes: nat, jobs: nat)
      requires lanes >= 1
      ensures Valid() && Initial(View())
      ensures View().(workers := []) == State(unit, database, exclusive, exclusive == [], lanes, [], [])
      ensures |workers| == if jobs > lanes then jobs else lanes
    {
      this.unit, this.database, this.exclusive := unit, database, exclusive;
      this.lanes := lanes;
      exclusiveFinished := exclusive == [];
      results := [];
      specs := seq(lanes, n => 0);
      var unitWorkers := if jobs > lanes then jobs - lanes else 0;
      workers := seq(lanes + unitWorkers, w => NotStarted);
    }

    method LaneGoesOn(w: nat)
      requires w < |workers|
      modifies `unit, `database, `workers
      ensures View() == LaneNext(old(View()), w)
    {
      if exclusiveFinished && database != [] {
        workers := workers[w := Running(Task(database[0], Database))];
        database := database[1..];
      } else if unit != [] {
        workers := workers[w := Running(Task(unit[0], Unit))];
        unit := unit[1..];
      } else if !exclusiveFinished {
        workers := workers[w := Waiting];
      } else {
        workers := workers[w := Finished];
      }
    }

    method UnitGoesOn(w: nat)
      requires w < |workers|
      modifies `unit, `workers
      ensures View() == UnitNext(old(View()), w)
    {
      if unit != [] {
        workers := workers[w := Running(Task(unit[0], Unit))];
        unit := unit[1..];
      } else {
        workers := workers[w := Finished];
      }
    }

    method ExclusiveGoesOn(w: nat)
      requires w < |workers|
      modifies `unit, `database, `exclusive, `exclusiveFinished, `workers
      ensures View() == ExclusiveNext(old(View()), w)
    {
      if exclusive != [] {
        workers := workers[w := Running(Task(exclusive[0], Exclusive))];
        exclusive := exclusive[1..];
      } else {
        exclusiveFinished := true;
        LaneGoesOn(w);
      }
    }

    method Starts(w: nat)
      requires Valid() && Enabled(View(), Start(w))
      modifies this
      ensures Valid() && View() == Next(old(View()), Start(w))
    {
      StepKeepsInv(View(), Start(w));
      if w == 0 && exclusive != [] {
        ExclusiveGoesOn(w);
      } else if w < lanes {
        LaneGoesOn(w);
      } else {
        UnitGoesOn(w);
      }
    }

    /** Records the spec that ended, and counts it for its lane. */
    method Record(task: Task, lane: nat)
      requires task.kind == Database ==> 1 <= lane <= |specs|
      requires forall n | 0 <= n < |specs| :: specs[n] == SpecsOnLane(results, n + 1)
      modifies `results, `specs
      ensures results == old(results) + [Done(task, lane)] && |specs| == old(|specs|)
      ensures forall n | 0 <= n < |specs| :: specs[n] == SpecsOnLane(results, n + 1)
    {
      ghost var before := results;
      results := results + [Done(task, lane)];
      assert results[..|results| - 1] == before;
      if task.kind == Database {
        specs := specs[lane - 1 := specs[lane - 1] + 1];
      }
    }

    method EndsSpec(w: nat)
      requires Valid() && Enabled(View(), SpecEnds(w))
      modifies this
      ensures Valid() && View() == Next(old(View()), SpecEnds(w))
    {
      StepKeepsInv(View(), SpecEnds(w));
      assert WorkerValid(View(), w);
      var task := workers[w].task;
      Record(task, if task.kind == Unit then 0 else w + 1);
      if task.kind == Exclusive {
        ExclusiveGoesOn(w);
      } else if w < lanes {
        LaneGoesOn(w);
      } else {
        UnitGoesOn(w);
      }
    }

    method Wakes(w: nat)
      requires Valid() && Enabled(View(), PhaseEnds(w))
      modifies this
      ensures Valid() && View() == Next(old(View()), PhaseEnds(w))
    {
      StepKeepsInv(View(), PhaseEnds(w));
      LaneGoesOn(w);
    }

    predicate CanGoOn(w: nat)
      reads this
    {
      w < |workers| && workers[w] != Finished && (workers[w] == Waiting ==> exclusiveFinished)
    }

    /**
     Runs to the end, whichever worker goes on next each time: every queue ends empty, every spec given
     has run exactly once, and every lane's count is right.
     */
    method RunAll()
      requires Valid() && Initial(View())
      modifies this
      ensures Valid() && unit == [] && database == [] && exclusive == []
      ensures forall t :: Ended(results, t) == old(Queued(View(), t))
    {
      ghost var from := View();
      ghost var steps: seq<Step> := [];
      while exists w: nat :: w < |workers| && CanGoOn(w)
        invariant Valid() && Leads(from, steps, View())
        decreases Ahead(View())
      {
        var w: nat :| w < |workers| && CanGoOn(w);
        ghost var s := View();
        ghost var step := match workers[w]
                            case NotStarted => Start(w) case Running(_) => SpecEnds(w) case _ => PhaseEnds(w);
        StepAdvances(s, step);
        match workers[w] {
          case NotStarted => Starts(w);
          case Running(_) => EndsSpec(w);
          case Waiting => Wakes(w);
        }
        StepLeadsOn(from, steps, s, step);
        steps := steps + [step];
      }
      forall step
        ensures !Enabled(View(), step)
      {
        assert !CanGoOn(step.w);
      }
      EveryRunRunsEachSpecOnce(from, steps, View());
    }
  }

  lemma {:induction false} StepLeadsOn(from: State, steps: seq<Step>, s: State, step: Step)
    requires Leads(from, steps, s) && Enabled(s, step)
    ensures Leads(from, steps + [step], Next(s, step))
    decreases |steps|
  {
    if steps == [] {
      assert (steps + [step])[1..] == [];
    } else {
      StepLeadsOn(Next(from, steps[0]), steps[1..], s, step);
      assert (steps + [step])[1..] == steps[1..] + [step];
    }
  }
}
