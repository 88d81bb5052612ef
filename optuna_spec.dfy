/** What OptunaScheduler in wandb/sdk/launch/sweeps/scheduler_optuna.py
    computes, as functions on values: the parameter dispatch of
    `_make_trial`, the metric walk and outcome of `_poll_run`, and the sweep
    of `_poll_running_runs` over the tracked runs. The scheduler's methods
    are proved against these functions. The lemmas here prove what they
    promise. */
module OptunaSpec {
  import opened Wrappers
  import opened PyValues
  import opened OptunaStudy

  // ---------------------------------------------------------------------------
  // Runs
  // ---------------------------------------------------------------------------

  datatype RunState = Alive | Dead | Unknown

  /** A sweep run: its id, hyperparameter values, worker slot and state. */
  datatype SweepRun = SweepRun(id: string, args: map<string, PyValue>, workerId: int, state: RunState)

  /** `_OptunaRun`: how many metrics of the run were seen, its trial and its
      sweep run. */
  datatype OptunaRun = OptunaRun(numMetrics: nat, trial: Trial, sweepRun: SweepRun)

  // ---------------------------------------------------------------------------
  // _make_trial
  // ---------------------------------------------------------------------------

  /** How `_make_trial` treats one entry of the sweep's `parameters`: truthy
      `values` is categorical over them, else truthy `value` is categorical
      over `[value]`, else a `min` of exact type float or int is a float or
      int range up to `max`, logarithmic when the name contains "log";
      anything else is skipped. */
  function Dispatch(name: string, extras: Args): Option<Distribution>
  {
    var values := Get(extras, "values", PyNone);
    var value := Get(extras, "value", PyNone);
    var low := Get(extras, "min", PyNone);
    var high := Get(extras, "max", PyNone);
    var log := HasInfix(name, "log");
    if Truthy(values) then Some(Categorical(values))
    else if Truthy(value) then Some(Categorical(PyList([value])))
    else if low.PyFloat? then Some(FloatRange(low, high, log))
    else if low.PyInt? then Some(IntRange(low, high, log))
    else None
  }

  /** The entries of a sweep's `parameters` dictionary, in order. */
  type Params = seq<(string, Args)>

  predicate UniqueNames(params: Params)
  {
    forall i, j :: 0 <= i < j < |params| ==> params[i].0 != params[j].0
  }

  /** The configuration `_make_trial` builds for trial `t` after the first
      `|params|` entries: each dispatched name maps to its suggested value. */
  function TrialConfig(params: Params, t: Trial, sampler: Sampler): map<string, PyValue>
    decreases |params|
  {
    if params == [] then map[]
    else
      var config := TrialConfig(params[..|params| - 1], t, sampler);
      var name := params[|params| - 1].0;
      match Dispatch(name, params[|params| - 1].1)
      case None => config
      case Some(d) => config[name := Suggest(sampler, t, name, d)]
  }

  // ---------------------------------------------------------------------------
  // _poll_run
  // ---------------------------------------------------------------------------

  /** Every step below the run's metric cursor is recorded for its trial. */
  ghost predicate Cursor(orun: OptunaRun, inter: Intermediate)
  {
    orun.trial.number in inter &&
    forall s :: 0 <= s < orun.numMetrics ==> s in inter[orun.trial.number]
  }

  /** Where the walk over the new metrics stopped: `prunedAt` is the step at
      which the pruner fired, if it did. */
  datatype Walked = Walked(prunedAt: Option<nat>, inter: Intermediate)

  /** One step of the loop of `_poll_run`: record the step's metric unless
      the trial has that step already. */
  function Next(n: nat, metrics: seq<real>, step: nat, inter: Intermediate): (r: Intermediate)
    requires n in inter && step < |metrics|
    ensures r.Keys == inter.Keys
    ensures forall m :: m in inter && m != n ==> r[m] == inter[m]
    ensures r[n].Keys == inter[n].Keys + {step}
    ensures forall s :: s in inter[n] ==> r[n][s] == inter[n][s]
    ensures step !in inter[n] ==> r[n][step] == metrics[step]
  {
    if step in inter[n] then inter else Record(inter, n, step, metrics[step])
  }

  /** The loop of `_poll_run` from `step` on: record each step the trial does
      not have yet, then ask the pruner, and stop at once when it says
      prune. */
  function Walk(pruner: Pruner, n: nat, metrics: seq<real>, step: nat, inter: Intermediate,
                told: seq<Told>): Walked
    requires n in inter
    decreases |metrics| - step
  {
    if step >= |metrics| then Walked(None, inter)
    else
      var next := Next(n, metrics, step, inter);
      if pruner(n, next, told) then Walked(Some(step), next)
      else Walk(pruner, n, metrics, step + 1, next, told)
  }

  /** One step of the walk. */
  lemma WalkStep(pruner: Pruner, n: nat, metrics: seq<real>, step: nat, inter: Intermediate, told: seq<Told>)
    requires n in inter && step < |metrics|
    ensures n in Next(n, metrics, step, inter)
    ensures var next := Next(n, metrics, step, inter);
            Walk(pruner, n, metrics, step, inter, told) ==
              if pruner(n, next, told) then Walked(Some(step), next)
              else Walk(pruner, n, metrics, step + 1, next, told)
  {
  }

  /** What one `_poll_run` does: whether it returns true, the run with its
      new cursor, the recorded values and the tells. */
  datatype Poll = Poll(finished: bool, run: OptunaRun, inter: Intermediate, told: seq<Told>)

  /** `_poll_run(orun)` given the run's metric history: pruned at the first
      prune signal; otherwise a non-empty history moves the cursor to its
      length, an empty one leaves a run that never logged alone and
      completes any other with the value at its last step. */
  function PollOutcome(pruner: Pruner, orun: OptunaRun, metrics: seq<real>, inter: Intermediate,
                   told: seq<Told>): Poll
    requires Cursor(orun, inter)
  {
    var n := orun.trial.number;
    var w := Walk(pruner, n, metrics, orun.numMetrics, inter, told);
    if w.prunedAt.Some? then Poll(true, orun, w.inter, told + [Told(n, Pruned, None)])
    else if |metrics| != 0 then Poll(false, orun.(numMetrics := |metrics|), w.inter, told)
    else if orun.numMetrics == 0 then Poll(false, orun, inter, told)
    else Poll(true, orun, inter, told + [Told(n, Complete, Some(inter[n][orun.numMetrics - 1]))])
  }

  /** `_poll_run` once its walk has stopped at a prune signal. */
  lemma PollOutcomeOfPrune(pruner: Pruner, orun: OptunaRun, metrics: seq<real>, inter: Intermediate,
                           told: seq<Told>, at: nat, inter': Intermediate)
    requires Cursor(orun, inter)
    requires Walk(pruner, orun.trial.number, metrics, orun.numMetrics, inter, told) == Walked(Some(at), inter')
    ensures PollOutcome(pruner, orun, metrics, inter, told) ==
            Poll(true, orun, inter', told + [Told(orun.trial.number, Pruned, None)])
  {
  }

  /** `_poll_run` once its walk has run out of metrics. */
  lemma PollOutcomeOfEnd(pruner: Pruner, orun: OptunaRun, metrics: seq<real>, inter: Intermediate,
                         told: seq<Told>, inter': Intermediate)
    requires Cursor(orun, inter)
    requires Walk(pruner, orun.trial.number, metrics, orun.numMetrics, inter, told) == Walked(None, inter')
    ensures var n := orun.trial.number;
            PollOutcome(pruner, orun, metrics, inter, told) ==
              if |metrics| != 0 then Poll(false, orun.(numMetrics := |metrics|), inter', told)
              else if orun.numMetrics == 0 then Poll(false, orun, inter, told)
              else Poll(true, orun, inter, told + [Told(n, Complete, Some(inter[n][orun.numMetrics - 1]))])
  {
  }

  // ---------------------------------------------------------------------------
  // _poll_running_runs
  // ---------------------------------------------------------------------------

  /** The sweep over the tracked runs: ids to stop, the runs with their new
      cursors, the recorded values and the tells. */
  datatype Sweep = Sweep(toKill: seq<string>, runs: map<string, OptunaRun>, inter: Intermediate,
                         told: seq<Told>)

  ghost predicate AllCursors(runs: map<string, OptunaRun>, inter: Intermediate)
  {
    forall k :: k in runs ==> Cursor(runs[k], inter)
  }

  /** `_poll_running_runs` from the `i`-th tracked id on, in dictionary
      order: each run is polled against its own history, and the ids whose
      poll returned true are collected. */
  function PollFrom(pruner: Pruner, history: string -> seq<real>, keys: seq<string>, i: nat,
                    runs: map<string, OptunaRun>, inter: Intermediate, told: seq<Told>): Sweep
    requires i <= |keys|
    requires forall j :: 0 <= j < |keys| ==> keys[j] in runs
    requires AllCursors(runs, inter)
    decreases |keys| - i
  {
    if i == |keys| then Sweep([], runs, inter, told)
    else
      var orun := runs[keys[i]];
      var p := PollOutcome(pruner, orun, history(orun.sweepRun.id), inter, told);
      PollKeepsCursors(pruner, orun, history(orun.sweepRun.id), inter, told, runs, keys[i]);
      var rest := PollFrom(pruner, history, keys, i + 1, runs[keys[i] := p.run], p.inter, p.told);
      Sweep((if p.finished then [keys[i]] else []) + rest.toKill, rest.runs, rest.inter, rest.told)
  }

  // ---------------------------------------------------------------------------
  // Properties of the walk and of one poll
  // ---------------------------------------------------------------------------

  /** `b` has every entry of `a`: recorded values only grow. */
  ghost predicate Extends(a: Intermediate, b: Intermediate)
  {
    (forall m :: m in a <==> m in b) &&
    forall m, s :: m in a && s in a[m] ==> s in b[m] && b[m][s] == a[m][s]
  }

  /** A prune happens at a step of the new metrics. */
  lemma {:induction false} WalkPruneStep(pruner: Pruner, n: nat, metrics: seq<real>, step: nat,
                                         inter: Intermediate, told: seq<Told>)
    requires n in inter
    ensures var w := Walk(pruner, n, metrics, step, inter, told);
            w.prunedAt.Some? ==> step <= w.prunedAt.value < |metrics|
    decreases |metrics| - step
  {
    if step < |metrics| {
      var next := Next(n, metrics, step, inter);
      if !pruner(n, next, told) {
        WalkPruneStep(pruner, n, metrics, step + 1, next, told);
      }
    }
  }

  /** The walk keeps every recorded value and every other trial's values. */
  lemma {:induction false} WalkExtends(pruner: Pruner, n: nat, metrics: seq<real>, step: nat,
                                       inter: Intermediate, told: seq<Told>)
    requires n in inter
    ensures var w := Walk(pruner, n, metrics, step, inter, told);
            Extends(inter, w.inter) &&
            (forall m :: m in inter && m != n ==> w.inter[m] == inter[m])
    decreases |metrics| - step
  {
    if step < |metrics| {
      var next := Next(n, metrics, step, inter);
      if !pruner(n, next, told) {
        WalkExtends(pruner, n, metrics, step + 1, next, told);
      }
    }
  }

  /** A step the walk adds was missing, lies from `step` up to the prune
      step (or the end of the history) and holds that step's metric. */
  lemma {:induction false} WalkNewSteps(pruner: Pruner, n: nat, metrics: seq<real>, step: nat,
                                        inter: Intermediate, told: seq<Told>)
    requires n in inter
    ensures var w := Walk(pruner, n, metrics, step, inter, told);
            var end := if w.prunedAt.Some? then w.prunedAt.value + 1 else |metrics|;
            n in w.inter &&
            forall s :: s in w.inter[n] && s !in inter[n] ==>
              step <= s < end && s < |metrics| && w.inter[n][s] == metrics[s]
    decreases |metrics| - step
  {
    if step < |metrics| {
      var next := Next(n, metrics, step, inter);
      if !pruner(n, next, told) {
        WalkNewSteps(pruner, n, metrics, step + 1, next, told);
        WalkExtends(pruner, n, metrics, step + 1, next, told);
        WalkStep(pruner, n, metrics, step, inter, told);
        WalkPruneStep(pruner, n, metrics, step + 1, next, told);
        var w := Walk(pruner, n, metrics, step + 1, next, told);
        var end := if w.prunedAt.Some? then w.prunedAt.value + 1 else |metrics|;
        forall s | s in w.inter[n] && s !in inter[n]
          ensures step <= s < end && s < |metrics| && w.inter[n][s] == metrics[s]
        {
          if s in next[n] {
            assert s == step;
          }
        }
      }
    }
  }

  /** A walk that does not prune leaves every step from `step` on
      recorded. */
  lemma {:induction false} WalkCovers(pruner: Pruner, n: nat, metrics: seq<real>, step: nat,
                                      inter: Intermediate, told: seq<Told>)
    requires n in inter
    ensures var w := Walk(pruner, n, metrics, step, inter, told);
            n in w.inter &&
            (w.prunedAt.None? ==> forall s :: step <= s < |metrics| ==> s in w.inter[n])
    decreases |metrics| - step
  {
    if step < |metrics| {
      var next := Next(n, metrics, step, inter);
      if !pruner(n, next, told) {
        WalkCovers(pruner, n, metrics, step + 1, next, told);
        WalkExtends(pruner, n, metrics, step + 1, next, told);
        assert step in next[n];
      }
    }
  }

  /** The walk records nothing but trial `n`'s new steps: a step it adds was
      missing, lies from `step` up to the prune step (or the end of the
      history) and holds that step's metric; already recorded steps keep
      their values; when it does not prune, every step from `step` on is
      recorded. */
  lemma WalkRecords(pruner: Pruner, n: nat, metrics: seq<real>, step: nat,
                    inter: Intermediate, told: seq<Told>)
    requires n in inter
    ensures var w := Walk(pruner, n, metrics, step, inter, told);
            var end := if w.prunedAt.Some? then w.prunedAt.value + 1 else |metrics|;
            (w.prunedAt.Some? ==> step <= w.prunedAt.value < |metrics|) &&
            Extends(inter, w.inter) &&
            (forall m :: m in inter && m != n ==> w.inter[m] == inter[m]) &&
            (forall s :: s in w.inter[n] && s !in inter[n] ==> step <= s < end && w.inter[n][s] == metrics[s]) &&
            (w.prunedAt.None? ==> forall s :: step <= s < |metrics| ==> s in w.inter[n])
  {
    WalkPruneStep(pruner, n, metrics, step, inter, told);
    WalkExtends(pruner, n, metrics, step, inter, told);
    WalkNewSteps(pruner, n, metrics, step, inter, told);
    WalkCovers(pruner, n, metrics, step, inter, told);
  }

  /** The walk stops at the first step where the pruner fires: it fires on
      the values recorded at that step, and the walk over the history cut
      off just before that step does not prune at all, so it did not fire at
      any earlier step. */
  lemma {:induction false} WalkStopsAtFirstPrune(pruner: Pruner, n: nat, metrics: seq<real>, step: nat,
                                                 inter: Intermediate, told: seq<Told>)
    requires n in inter
    ensures var w := Walk(pruner, n, metrics, step, inter, told);
            w.prunedAt.Some? ==>
              pruner(n, w.inter, told) && step <= w.prunedAt.value < |metrics| &&
              Walk(pruner, n, metrics[..w.prunedAt.value], step, inter, told).prunedAt.None?
    decreases |metrics| - step
  {
    var w := Walk(pruner, n, metrics, step, inter, told);
    WalkPruneStep(pruner, n, metrics, step, inter, told);
    if w.prunedAt.Some? {
      WalkPrefix(pruner, n, metrics, step, inter, told, w.prunedAt.value);
    }
    if step < |metrics| {
      var next := Next(n, metrics, step, inter);
      if !pruner(n, next, told) {
        WalkStopsAtFirstPrune(pruner, n, metrics, step + 1, next, told);
      }
    }
  }

  /** The walk over the first `k` metrics agrees with the whole walk when
      that prunes before step `k`, and does not prune otherwise. */
  lemma {:induction false} WalkPrefix(pruner: Pruner, n: nat, metrics: seq<real>, step: nat,
                                      inter: Intermediate, told: seq<Told>, k: nat)
    requires n in inter && k <= |metrics|
    ensures var w := Walk(pruner, n, metrics, step, inter, told);
            var v := Walk(pruner, n, metrics[..k], step, inter, told);
            (w.prunedAt.Some? && w.prunedAt.value < k ==> v == w) &&
            (w.prunedAt.None? || k <= w.prunedAt.value ==> v.prunedAt.None?)
    decreases |metrics| - step
  {
    WalkPruneStep(pruner, n, metrics, step, inter, told);
    if step < k {
      var next := Next(n, metrics, step, inter);
      assert Next(n, metrics[..k], step, inter) == next;
      if !pruner(n, next, told) {
        WalkPrefix(pruner, n, metrics, step + 1, next, told, k);
      }
    }
  }

  /** A walk over a history with no new metrics changes nothing. */
  lemma WalkNoNewMetrics(pruner: Pruner, n: nat, metrics: seq<real>, step: nat,
                         inter: Intermediate, told: seq<Told>)
    requires n in inter && |metrics| <= step
    ensures Walk(pruner, n, metrics, step, inter, told) == Walked(None, inter)
  {
  }

  /** One poll: the trial and sweep run stay; it returns true exactly when
      it tells the study, once, that this trial was pruned or completed;
      the cursor moves to the history's length when it neither prunes nor
      sees an empty history, and stays otherwise; recorded values only grow,
      and every step below the new cursor is recorded. */
  lemma PollOutcomeFacts(pruner: Pruner, orun: OptunaRun, metrics: seq<real>, inter: Intermediate,
                       told: seq<Told>)
    requires Cursor(orun, inter)
    ensures var p := PollOutcome(pruner, orun, metrics, inter, told);
            var n := orun.trial.number;
            p.run.trial == orun.trial && p.run.sweepRun == orun.sweepRun &&
            (p.finished ==> |p.told| == |told| + 1 && p.told[..|told|] == told && p.told[|told|].number == n) &&
            (!p.finished ==> p.told == told) &&
            p.run.numMetrics == (if !p.finished && |metrics| != 0 then |metrics| else orun.numMetrics) &&
            Extends(inter, p.inter) &&
            (forall m :: m in inter && m != n ==> p.inter[m] == inter[m]) &&
            Cursor(p.run, p.inter)
  {
    var n := orun.trial.number;
    WalkRecords(pruner, n, metrics, orun.numMetrics, inter, told);
    var p := PollOutcome(pruner, orun, metrics, inter, told);
    if p.finished {
      assert p.told[..|told|] == told;
    }
  }

  /** Outcomes without a prune: a run that logged metrics and now shows an
      empty history completes with the value at its last step; an empty
      history for a run that never logged changes nothing; a non-empty one
      never finishes the run. */
  lemma PollOutcomeWithoutPrune(pruner: Pruner, orun: OptunaRun, metrics: seq<real>, inter: Intermediate,
                            told: seq<Told>)
    requires Cursor(orun, inter)
    requires Walk(pruner, orun.trial.number, metrics, orun.numMetrics, inter, told).prunedAt.None?
    ensures var p := PollOutcome(pruner, orun, metrics, inter, told);
            var n := orun.trial.number;
            n in p.inter &&
            (|metrics| != 0 ==> !p.finished && p.run.numMetrics == |metrics| &&
                                (forall s :: 0 <= s < |metrics| ==> s in p.inter[n])) &&
            (|metrics| == 0 && orun.numMetrics == 0 ==> p == Poll(false, orun, inter, told)) &&
            (|metrics| == 0 && orun.numMetrics > 0 ==>
               p.finished && p.inter == inter &&
               p.told == told + [Told(n, Complete, Some(inter[n][orun.numMetrics - 1]))])
  {
    WalkRecords(pruner, orun.trial.number, metrics, orun.numMetrics, inter, told);
  }

  /** A prune tells PRUNED for the trial and leaves the cursor where it
      was. */
  lemma PollOutcomePruned(pruner: Pruner, orun: OptunaRun, metrics: seq<real>, inter: Intermediate,
                      told: seq<Told>)
    requires Cursor(orun, inter)
    requires Walk(pruner, orun.trial.number, metrics, orun.numMetrics, inter, told).prunedAt.Some?
    ensures var p := PollOutcome(pruner, orun, metrics, inter, told);
            p.finished && p.run == orun && p.told == told + [Told(orun.trial.number, Pruned, None)] &&
            orun.numMetrics <= Walk(pruner, orun.trial.number, metrics, orun.numMetrics, inter, told).prunedAt.value < |metrics|
  {
    WalkRecords(pruner, orun.trial.number, metrics, orun.numMetrics, inter, told);
  }

  /** A run whose history is not longer than its cursor records nothing
      and is never asked about pruning: it finishes exactly when the
      history is empty and the run had logged metrics. */
  lemma PollOutcomeNothingNew(pruner: Pruner, orun: OptunaRun, metrics: seq<real>, inter: Intermediate,
                              told: seq<Told>)
    requires Cursor(orun, inter) && |metrics| <= orun.numMetrics
    ensures var p := PollOutcome(pruner, orun, metrics, inter, told);
            p.inter == inter && (p.finished <==> |metrics| == 0 && orun.numMetrics > 0)
  {
  }

  /** Polling one run keeps every tracked run's cursor recorded, the polled
      run's new cursor included. */
  lemma PollKeepsCursors(pruner: Pruner, orun: OptunaRun, metrics: seq<real>, inter: Intermediate,
                         told: seq<Told>, runs: map<string, OptunaRun>, key: string)
    requires Cursor(orun, inter) && AllCursors(runs, inter)
    ensures var p := PollOutcome(pruner, orun, metrics, inter, told);
            AllCursors(runs[key := p.run], p.inter)
  {
    PollOutcomeFacts(pruner, orun, metrics, inter, told);
    var p := PollOutcome(pruner, orun, metrics, inter, told);
    forall k | k in runs
      ensures Cursor(runs[k], p.inter)
    {
      assert Cursor(runs[k], inter);
    }
  }
}
