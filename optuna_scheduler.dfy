/** `OptunaScheduler` of wandb/sdk/launch/sweeps/scheduler_optuna.py: the
    bookkeeping it keeps in `_runs`, `_job_queue` and `_optuna_runs`, and
    the methods that change it (`_heartbeat`, `_run`, `_poll_run`,
    `_poll_running_runs`, `_make_trial`). Each method is proved against the
    functions of modules OptunaSpec and SchedulerSpec.

    Given rather than computed: the base scheduler's `is_alive()` (the field
    `alive`), the metric history of a run (`history`), and the decoded id of
    the run the backend creates (`newId`). The base scheduler's
    `_stop_run` and `_add_to_launch_queue` are recorded in `stopped` and
    `launched`. */
module OptunaScheduler {
  import opened Wrappers
  import opened PyValues
  import opened OptunaStudy
  import opened OptunaSpec
  import opened OptunaProperties
  import opened SchedulerSpec

  class Scheduler {
    const numWorkers: nat
    /** `sweep_config["parameters"]`. */
    const parameters: Params
    const study: Study
    /** `is_alive()` of the base scheduler. */
    var alive: bool
    var runs: map<string, SweepRun>
    var jobQueue: seq<SweepRun>
    var optunaRuns: map<string, OptunaRun>
    /** The keys of `optunaRuns` in insertion order. */
    var optunaKeys: seq<string>
    /** Ids passed to `_stop_run`, in order. */
    var stopped: seq<string>
    /** `(run_id, args)` of each `_add_to_launch_queue`, in order. */
    var launched: seq<(string, map<string, PyValue>)>

    /** The scheduler's bookkeeping and its study's, as a value. */
    ghost function Snapshot(): Books
      reads this, study
    {
      Books(runs, jobQueue, optunaRuns, optunaKeys, study.trialCount, study.intermediate, study.told)
    }

    /** The invariant of SchedulerSpec.Bookkeeping holds of the snapshot. */
    ghost predicate Valid()
      reads this, study
    {
      Bookkeeping(numWorkers, Snapshot())
    }

    /** A scheduler that has started its workers and created its study. */
    constructor (numWorkers: nat, parameters: Params, pruner: Pruner, sampler: Sampler)
      ensures Valid() && fresh(study)
      ensures this.numWorkers == numWorkers && this.parameters == parameters
      ensures study.pruner == pruner && study.sampler == sampler
      ensures study.trialCount == 0 && study.intermediate == map[] && study.told == []
      ensures alive && runs == map[] && jobQueue == [] && optunaRuns == map[] && optunaKeys == []
      ensures stopped == [] && launched == []
    {
      this.numWorkers := numWorkers;
      this.parameters := parameters;
      study := new Study(pruner, sampler);
      alive := true;
      runs := map[];
      jobQueue := [];
      optunaRuns := map[];
      optunaKeys := [];
      stopped := [];
      launched := [];
    }

    /** `_make_trial()`: ask for a trial and fill the configuration. */
    method MakeTrial() returns (config: map<string, PyValue>, trial: Trial)
      modifies study
      ensures trial.number == old(study.trialCount) && study.trialCount == old(study.trialCount) + 1
      ensures study.intermediate == old(study.intermediate)[trial.number := map[]]
      ensures study.told == old(study.told)
      ensures config == TrialConfig(parameters, trial, study.sampler)
    {
      trial := study.Ask();
      config := map[];
      var i := 0;
      while i < |parameters|
        invariant 0 <= i <= |parameters|
        invariant config == TrialConfig(parameters[..i], trial, study.sampler)
      {
        var name := parameters[i].0;
        var extras := parameters[i].1;
        var values := Get(extras, "values", PyNone);
        var value := Get(extras, "value", PyNone);
        var low := Get(extras, "min", PyNone);
        if Truthy(values) {
          config := config[name := Suggest(study.sampler, trial, name, Categorical(values))];
        } else if Truthy(value) {
          config := config[name := Suggest(study.sampler, trial, name, Categorical(PyList([value])))];
        } else if low.PyFloat? {
          var log := HasInfix(name, "log");
          config := config[name := Suggest(study.sampler, trial, name, FloatRange(low, Get(extras, "max", PyNone), log))];
        } else if low.PyInt? {
          var log := HasInfix(name, "log");
          config := config[name := Suggest(study.sampler, trial, name, IntRange(low, Get(extras, "max", PyNone), log))];
        }
        assert parameters[..i + 1][..i] == parameters[..i];
        i := i + 1;
      }
      assert parameters[..|parameters|] == parameters;
    }

    /** `_heartbeat(worker_id)`: the new books are SchedulerSpec.Beat of
        the old ones (SchedulerSpec.BeatKeeps: they keep the invariant). */
    method Heartbeat(workerId: int, newId: string)
      modifies this, study
      ensures Snapshot() == Beat(old(Snapshot()), old(alive), numWorkers, parameters, study.sampler, workerId, newId)
      ensures alive == old(alive) && stopped == old(stopped) && launched == old(launched)
    {
      if !alive {
        return;
      }
      if jobQueue == [] && |runs| < numWorkers {
        ghost var b := Snapshot();
        var config, trial := MakeTrial();
        var srun := SweepRun(newId, config, workerId, Alive);
        ghost var keys := if newId in optunaRuns then optunaKeys else optunaKeys + [newId];
        assert Beat(b, alive, numWorkers, parameters, study.sampler, workerId, newId) ==
               Books(runs[newId := srun], [srun], optunaRuns[newId := OptunaRun(0, trial, srun)], keys,
                     study.trialCount, study.intermediate, study.told);
        runs := runs[srun.id := srun];
        jobQueue := jobQueue + [srun];
        if srun.id !in optunaRuns {
          optunaKeys := optunaKeys + [srun.id];
        }
        optunaRuns := optunaRuns[srun.id := OptunaRun(0, trial, srun)];
      }
    }

    /** The loop of `_poll_run`: from the run's cursor on, report each
        metric whose step the trial does not have yet and ask whether to
        prune after each; `prunedAt` is the step where the pruner fired. */
    method ReportMetrics(orun: OptunaRun, metrics: seq<real>) returns (prunedAt: Option<nat>)
      requires orun.trial.number in study.intermediate
      modifies study`intermediate
      ensures Walked(prunedAt, study.intermediate) ==
              Walk(study.pruner, orun.trial.number, metrics, orun.numMetrics, old(study.intermediate), study.told)
    {
      var n := orun.trial.number;
      ghost var walked := Walk(study.pruner, n, metrics, orun.numMetrics, study.intermediate, study.told);
      var i := orun.numMetrics;
      while i < |metrics|
        invariant n in study.intermediate
        invariant walked == Walk(study.pruner, n, metrics, i, study.intermediate, study.told)
        decreases |metrics| - i
      {
        WalkStep(study.pruner, n, metrics, i, study.intermediate, study.told);
        ghost var next := Next(n, metrics, i, study.intermediate);
        if i !in study.intermediate[n] {
          study.Report(orun.trial, metrics[i], i);
        }
        assert study.intermediate == next;
        if study.ShouldPrune(orun.trial) {
          return Some(i);
        }
        i := i + 1;
      }
      return None;
    }

    /** `_poll_run(orun)`: report the run's new metrics, each at its own
        step and only when that step is not recorded yet, asking after each
        whether to prune; the result is the one OptunaSpec.PollOutcome
        describes. */
    method PollRun(orun: OptunaRun, history: string -> seq<real>) returns (finished: bool, polled: OptunaRun)
      requires Cursor(orun, study.intermediate)
      modifies study
      ensures var p := PollOutcome(study.pruner, orun, history(orun.sweepRun.id), old(study.intermediate), old(study.told));
              finished == p.finished && polled == p.run &&
              study.intermediate == p.inter && study.told == p.told
      ensures study.trialCount == old(study.trialCount)
    {
      var metrics := history(orun.sweepRun.id);
      var n := orun.trial.number;
      ghost var inter0 := study.intermediate;
      var prunedAt := ReportMetrics(orun, metrics);
      if prunedAt.Some? {
        study.Tell(orun.trial, Pruned, None);
        PollOutcomeOfPrune(study.pruner, orun, metrics, inter0, old(study.told), prunedAt.value, study.intermediate);
        return true, orun;
      }
      PollOutcomeOfEnd(study.pruner, orun, metrics, inter0, study.told, study.intermediate);
      if |metrics| != 0 {
        return false, orun.(numMetrics := |metrics|);
      }
      if orun.numMetrics == 0 {
        return false, orun;
      }
      var last := study.intermediate[n][orun.numMetrics - 1];
      study.Tell(orun.trial, Complete, Some(last));
      return true, orun;
    }

    /** `_poll_running_runs()`: poll every tracked run in dictionary order
        and return the ids whose poll returned true. */
    method PollRunningRuns(history: string -> seq<real>) returns (toKill: seq<string>)
      requires forall k :: k in optunaRuns <==> k in optunaKeys
      requires AllCursors(optunaRuns, study.intermediate)
      modifies this`optunaRuns, study
      ensures var s := PollFrom(study.pruner, history, optunaKeys, 0, old(optunaRuns), old(study.intermediate), old(study.told));
              toKill == s.toKill && optunaRuns == s.runs && study.intermediate == s.inter && study.told == s.told
      ensures study.trialCount == old(study.trialCount)
    {
      ghost var total := PollFrom(study.pruner, history, optunaKeys, 0, optunaRuns, study.intermediate, study.told);
      assert [] + total.toKill == total.toKill;
      toKill := [];
      var i := 0;
      while i < |optunaKeys|
        invariant 0 <= i <= |optunaKeys|
        invariant forall j :: 0 <= j < |optunaKeys| ==> optunaKeys[j] in optunaRuns
        invariant AllCursors(optunaRuns, study.intermediate)
        invariant study.trialCount == old(study.trialCount)
        invariant total == Prepend(toKill, PollFrom(study.pruner, history, optunaKeys, i, optunaRuns, study.intermediate, study.told))
        decreases |optunaKeys| - i
      {
        var id := optunaKeys[i];
        var orun := optunaRuns[id];
        SweepAdvance(study.pruner, history, optunaKeys, i, optunaRuns, study.intermediate, study.told, toKill);
        var finished, polled := PollRun(orun, history);
        optunaRuns := optunaRuns[id := polled];
        toKill := toKill + (if finished then [id] else []);
        i := i + 1;
      }
      assert toKill + [] == toKill;
    }

    /** The kill loop of `_run()`: forget and stop each id of `ids`, in
        order. */
    method StopRuns(ids: seq<string>)
      modifies this`optunaRuns, this`optunaKeys, this`stopped
      ensures Snapshot() == Unregister(old(Snapshot()), ids)
      ensures stopped == old(stopped) + ids
    {
      var i := 0;
      while i < |ids|
        invariant 0 <= i <= |ids|
        invariant Snapshot() == Unregister(old(Snapshot()), ids[..i])
        invariant stopped == old(stopped) + ids[..i]
      {
        assert ids[..i + 1][..i] == ids[..i];
        optunaRuns := optunaRuns - {ids[i]};
        optunaKeys := Remove(optunaKeys, ids[i]);
        stopped := stopped + [ids[i]];
        i := i + 1;
      }
      assert ids[..|ids|] == ids;
    }

    /** The heartbeat loop of `_run()`: `_heartbeat` for every worker, in
        order. */
    method HeartbeatAll(newId: string)
      modifies this, study
      ensures Snapshot() == Beats(old(Snapshot()), old(alive), numWorkers, parameters, study.sampler, numWorkers, newId)
      ensures alive == old(alive) && stopped == old(stopped) && launched == old(launched)
    {
      var w := 0;
      while w < numWorkers
        invariant 0 <= w <= numWorkers
        invariant Snapshot() == Beats(old(Snapshot()), alive, numWorkers, parameters, study.sampler, w, newId)
        invariant alive == old(alive) && stopped == old(stopped) && launched == old(launched)
      {
        Heartbeat(w, newId);
        w := w + 1;
      }
    }

    /** The end of `_run()`: take the queued run, if any, and pass it to
        `_add_to_launch_queue` unless it is dead or in an unknown state. */
    method LaunchNext()
      modifies this`jobQueue, this`launched
      ensures Snapshot() == Pop(old(Snapshot()))
      ensures launched == old(launched) + Launch(old(jobQueue))
    {
      if jobQueue == [] {
        return;
      }
      var srun := jobQueue[0];
      jobQueue := jobQueue[1..];
      if srun.state == Dead || srun.state == Unknown {
        return;
      }
      launched := launched + [(srun.id, srun.args)];
    }

    /** `_run()`: poll the tracked runs, forget and stop each collected
        one, heartbeat every worker, then launch the queued run. The books
        end as SchedulerSpec.Round and Pop say, and keep the invariant. */
    method Run(history: string -> seq<real>, newId: string)
      requires Valid()
      modifies this, study
      ensures Valid() && jobQueue == []
      ensures var b := old(Snapshot());
              var round := Round(b, old(alive), numWorkers, parameters, study.pruner, study.sampler, history, newId);
              Snapshot() == Pop(round) &&
              stopped == old(stopped) + SweepOf(b, study.pruner, history).toKill &&
              launched == old(launched) + Launch(round.jobQueue)
      ensures alive == old(alive)
    {
      ghost var b := Snapshot();
      RunRound(history, newId);
      RunKeeps(numWorkers, b, alive, parameters, study.pruner, study.sampler, history, newId);
    }

    /** The steps of `_run` on books that need only be sweepable. */
    method RunRound(history: string -> seq<real>, newId: string)
      requires forall k :: k in optunaRuns <==> k in optunaKeys
      requires AllCursors(optunaRuns, study.intermediate)
      modifies this, study
      ensures var b := old(Snapshot());
              var round := Round(b, old(alive), numWorkers, parameters, study.pruner, study.sampler, history, newId);
              Snapshot() == Pop(round) &&
              stopped == old(stopped) + SweepOf(b, study.pruner, history).toKill &&
              launched == old(launched) + Launch(round.jobQueue)
      ensures alive == old(alive)
    {
      ghost var b := Snapshot();
      ghost var s := SweepOf(b, study.pruner, history);
      var toKill := PollRunningRuns(history);
      assert Snapshot() == Swept(b, s);
      StopRuns(toKill);
      assert Snapshot() == Killed(b, study.pruner, history);
      HeartbeatAll(newId);
      assert Snapshot() == Round(b, alive, numWorkers, parameters, study.pruner, study.sampler, history, newId);
      LaunchNext();
    }
  }
}
