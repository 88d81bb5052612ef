/** What `_make_trial` and `_poll_running_runs` promise, proved of module
    OptunaSpec: the configuration a trial gets, and the sweep over tracked
    runs, which stops exactly the runs it tells the study about and tells
    no trial twice. */
module OptunaProperties {
  import opened Wrappers
  import opened PyValues
  import opened OptunaStudy
  import opened OptunaSpec

  // ---------------------------------------------------------------------------
  // _make_trial
  // ---------------------------------------------------------------------------

  /** A parameter gets a value exactly when its entry dispatches, and the
      value is what the sampler suggests for that distribution. */
  lemma {:induction false} TrialConfigAt(params: Params, t: Trial, sampler: Sampler, i: nat)
    requires UniqueNames(params) && i < |params|
    ensures var name := params[i].0;
            var d := Dispatch(name, params[i].1);
            var config := TrialConfig(params, t, sampler);
            (name in config <==> d.Some?) &&
            (name in config ==> config[name] == Suggest(sampler, t, name, d.value))
    decreases |params|
  {
    var last := |params| - 1;
    var init := params[..last];
    if i < last {
      assert init[i] == params[i];
      assert UniqueNames(init) by {
        forall a, b | 0 <= a < b < |init| ensures init[a].0 != init[b].0 {
          assert init[a] == params[a] && init[b] == params[b];
        }
      }
      TrialConfigAt(init, t, sampler, i);
      assert params[i].0 != params[last].0;
    } else {
      TrialConfigNames(init, t, sampler);
      assert forall j :: 0 <= j < |init| ==> init[j] == params[j];
    }
  }

  /** Only the sweep's parameters get a value. */
  lemma {:induction false} TrialConfigNames(params: Params, t: Trial, sampler: Sampler)
    ensures forall name :: name in TrialConfig(params, t, sampler) ==>
              exists i :: 0 <= i < |params| && params[i].0 == name
    decreases |params|
  {
    if params != [] {
      var last := |params| - 1;
      var init := params[..last];
      TrialConfigNames(init, t, sampler);
      forall name | name in TrialConfig(params, t, sampler)
        ensures exists i :: 0 <= i < |params| && params[i].0 == name
      {
        if name != params[last].0 {
          assert name in TrialConfig(init, t, sampler);
          var i :| 0 <= i < |init| && init[i].0 == name;
          assert params[i] == init[i];
        }
      }
    }
  }

  /** The parameter kinds: a falsy `value` such as 0 falls through to the
      range test, a `min` of type bool is neither int nor float, a name with
      "log" in it asks for a logarithmic range, and a truthy `values` wins
      over everything else. */
  lemma DispatchExamples()
    ensures Dispatch("lr", map["value" := PyInt(0), "min" := PyInt(1), "max" := PyInt(9)])
            == Some(IntRange(PyInt(1), PyInt(9), false))
    ensures Dispatch("flag", map["min" := PyBool(true), "max" := PyInt(1)]) == None
    ensures Dispatch("log_lr", map["min" := PyFloat(0.001), "max" := PyFloat(0.1)])
            == Some(FloatRange(PyFloat(0.001), PyFloat(0.1), true))
    ensures Dispatch("opt", map["values" := PyList([PyStr("adam")]), "value" := PyStr("sgd")])
            == Some(Categorical(PyList([PyStr("adam")])))
    ensures Dispatch("opt", map["values" := PyList([]), "value" := PyStr("sgd")])
            == Some(Categorical(PyList([PyStr("sgd")])))
  {
    assert !HasInfix("lr", "log");
    assert HasInfix("log_lr", "log") by {
      assert "log_lr"[..3] == "log";
    }
  }

  /** A range is logarithmic exactly when the parameter name contains
      "log" somewhere. */
  lemma DispatchLog(name: string, extras: Args)
    requires Dispatch(name, extras).Some? && !Dispatch(name, extras).value.Categorical?
    ensures Dispatch(name, extras).value.log <==> exists i :: OccursAt(name, "log", i)
  {
    HasInfixAt(name, "log");
  }

  // ---------------------------------------------------------------------------
  // _poll_running_runs
  // ---------------------------------------------------------------------------

  predicate DistinctKeys(keys: seq<string>)
  {
    forall i, j :: 0 <= i < j < |keys| ==> keys[i] != keys[j]
  }

  /** Tracked runs have trials of their own. */
  ghost predicate DistinctTrials(runs: map<string, OptunaRun>)
  {
    forall a, b :: a in runs && b in runs && a != b ==> runs[a].trial.number != runs[b].trial.number
  }

  ghost predicate NotTold(n: nat, told: seq<Told>)
  {
    forall i :: 0 <= i < |told| ==> told[i].number != n
  }

  /** No trial was told twice. */
  ghost predicate ToldOnce(told: seq<Told>)
  {
    forall i, j :: 0 <= i < j < |told| ==> told[i].number != told[j].number
  }

  /** One step of the sweep: poll the `i`-th run, then sweep the rest. */
  lemma SweepStep(pruner: Pruner, history: string -> seq<real>, keys: seq<string>, i: nat,
                  runs: map<string, OptunaRun>, inter: Intermediate, told: seq<Told>)
    requires i < |keys|
    requires forall j :: 0 <= j < |keys| ==> keys[j] in runs
    requires AllCursors(runs, inter)
    ensures var orun := runs[keys[i]];
            var p := PollOutcome(pruner, orun, history(orun.sweepRun.id), inter, told);
            AllCursors(runs[keys[i] := p.run], p.inter) &&
            var rest := PollFrom(pruner, history, keys, i + 1, runs[keys[i] := p.run], p.inter, p.told);
            PollFrom(pruner, history, keys, i, runs, inter, told) ==
              Sweep((if p.finished then [keys[i]] else []) + rest.toKill, rest.runs, rest.inter, rest.told)
  {
    var orun := runs[keys[i]];
    PollKeepsCursors(pruner, orun, history(orun.sweepRun.id), inter, told, runs, keys[i]);
  }

  /** The ids collected so far followed by the result of the rest of the
      sweep. */
  function Prepend(acc: seq<string>, s: Sweep): Sweep
  {
    Sweep(acc + s.toKill, s.runs, s.inter, s.told)
  }

  /** Advancing the sweep by one run: what the `_poll_running_runs` loop
      keeps. */
  lemma SweepAdvance(pruner: Pruner, history: string -> seq<real>, keys: seq<string>, i: nat,
                     runs: map<string, OptunaRun>, inter: Intermediate, told: seq<Told>, acc: seq<string>)
    requires i < |keys|
    requires forall j :: 0 <= j < |keys| ==> keys[j] in runs
    requires AllCursors(runs, inter)
    ensures var orun := runs[keys[i]];
            var p := PollOutcome(pruner, orun, history(orun.sweepRun.id), inter, told);
            AllCursors(runs[keys[i] := p.run], p.inter) &&
            Prepend(acc, PollFrom(pruner, history, keys, i, runs, inter, told)) ==
              Prepend(acc + (if p.finished then [keys[i]] else []),
                      PollFrom(pruner, history, keys, i + 1, runs[keys[i] := p.run], p.inter, p.told))
  {
    SweepStep(pruner, history, keys, i, runs, inter, told);
    var orun := runs[keys[i]];
    var p := PollOutcome(pruner, orun, history(orun.sweepRun.id), inter, told);
    var rest := PollFrom(pruner, history, keys, i + 1, runs[keys[i] := p.run], p.inter, p.told);
    assert acc + ((if p.finished then [keys[i]] else []) + rest.toKill)
        == (acc + (if p.finished then [keys[i]] else [])) + rest.toKill;
  }

  /** The sweep keeps every tracked run's trial and sweep run; only
      cursors change. */
  lemma {:induction false} SweepKeepsTrials(pruner: Pruner, history: string -> seq<real>, keys: seq<string>, i: nat,
                                            runs: map<string, OptunaRun>, inter: Intermediate, told: seq<Told>)
    requires i <= |keys|
    requires forall j :: 0 <= j < |keys| ==> keys[j] in runs
    requires AllCursors(runs, inter)
    ensures var r := PollFrom(pruner, history, keys, i, runs, inter, told);
            (forall k :: k in runs <==> k in r.runs) &&
            (forall k :: k in runs ==> r.runs[k].trial == runs[k].trial && r.runs[k].sweepRun == runs[k].sweepRun)
    decreases |keys| - i
  {
    if i < |keys| {
      var orun := runs[keys[i]];
      var metrics := history(orun.sweepRun.id);
      var p := PollOutcome(pruner, orun, metrics, inter, told);
      PollOutcomeFacts(pruner, orun, metrics, inter, told);
      SweepStep(pruner, history, keys, i, runs, inter, told);
      SweepKeepsTrials(pruner, history, keys, i + 1, runs[keys[i] := p.run], p.inter, p.told);
    }
  }

  /** After the sweep every run's cursor is recorded, and recorded values
      only grew. */
  lemma {:induction false} SweepKeepsCursors(pruner: Pruner, history: string -> seq<real>, keys: seq<string>, i: nat,
                                             runs: map<string, OptunaRun>, inter: Intermediate, told: seq<Told>)
    requires i <= |keys|
    requires forall j :: 0 <= j < |keys| ==> keys[j] in runs
    requires AllCursors(runs, inter)
    ensures var r := PollFrom(pruner, history, keys, i, runs, inter, told);
            AllCursors(r.runs, r.inter) && Extends(inter, r.inter)
    decreases |keys| - i
  {
    if i < |keys| {
      var orun := runs[keys[i]];
      var metrics := history(orun.sweepRun.id);
      var p := PollOutcome(pruner, orun, metrics, inter, told);
      PollOutcomeFacts(pruner, orun, metrics, inter, told);
      SweepStep(pruner, history, keys, i, runs, inter, told);
      var runs' := runs[keys[i] := p.run];
      SweepKeepsCursors(pruner, history, keys, i + 1, runs', p.inter, p.told);
      var rest := PollFrom(pruner, history, keys, i + 1, runs', p.inter, p.told);
      ExtendsTrans(inter, p.inter, rest.inter);
    }
  }

  /** The sweep changes nothing but cursors and recorded values, and the
      recorded values only grow. */
  lemma SweepKeepsRuns(pruner: Pruner, history: string -> seq<real>, keys: seq<string>, i: nat,
                       runs: map<string, OptunaRun>, inter: Intermediate, told: seq<Told>)
    requires i <= |keys|
    requires forall j :: 0 <= j < |keys| ==> keys[j] in runs
    requires AllCursors(runs, inter)
    ensures var r := PollFrom(pruner, history, keys, i, runs, inter, told);
            (forall k :: k in runs <==> k in r.runs) &&
            (forall k :: k in runs ==> r.runs[k].trial == runs[k].trial && r.runs[k].sweepRun == runs[k].sweepRun) &&
            AllCursors(r.runs, r.inter) &&
            Extends(inter, r.inter)
  {
    SweepKeepsTrials(pruner, history, keys, i, runs, inter, told);
    SweepKeepsCursors(pruner, history, keys, i, runs, inter, told);
  }

  /** The sweep collects ids of runs it polled, none twice. */
  lemma {:induction false} SweepKills(pruner: Pruner, history: string -> seq<real>, keys: seq<string>, i: nat,
                                      runs: map<string, OptunaRun>, inter: Intermediate, told: seq<Told>)
    requires i <= |keys| && DistinctKeys(keys)
    requires forall j :: 0 <= j < |keys| ==> keys[j] in runs
    requires AllCursors(runs, inter)
    ensures var r := PollFrom(pruner, history, keys, i, runs, inter, told);
            (forall t :: 0 <= t < |r.toKill| ==> r.toKill[t] in keys[i..]) &&
            DistinctKeys(r.toKill)
    decreases |keys| - i
  {
    if i < |keys| {
      var key := keys[i];
      var orun := runs[key];
      var p := PollOutcome(pruner, orun, history(orun.sweepRun.id), inter, told);
      SweepStep(pruner, history, keys, i, runs, inter, told);
      var runs' := runs[key := p.run];
      SweepKills(pruner, history, keys, i + 1, runs', p.inter, p.told);
      var rest := PollFrom(pruner, history, keys, i + 1, runs', p.inter, p.told);
      KillsPrepend(keys, i, if p.finished then [key] else [], rest.toKill);
    }
  }

  /** Distinct ids of later keys, after at most the key at `i`, are distinct
      ids of the keys from `i` on. */
  lemma KillsPrepend(keys: seq<string>, i: nat, head: seq<string>, rest: seq<string>)
    requires i < |keys| && DistinctKeys(keys) && (head == [] || head == [keys[i]])
    requires (forall t :: 0 <= t < |rest| ==> rest[t] in keys[i + 1..]) && DistinctKeys(rest)
    ensures (forall t :: 0 <= t < |head + rest| ==> (head + rest)[t] in keys[i..]) &&
            DistinctKeys(head + rest)
  {
    forall t | 0 <= t < |rest| ensures rest[t] in keys[i..] && rest[t] != keys[i] {
      var j :| 0 <= j < |keys[i + 1..]| && keys[i + 1..][j] == rest[t];
      assert keys[i + 1 + j] == rest[t];
      assert keys[i..][j + 1] == rest[t];
    }
    assert keys[i..][0] == keys[i];
  }

  /** The tells after `told` name, in order, the trials of the runs in
      `kills`. */
  ghost predicate TellsFor(told: seq<Told>, final: seq<Told>, kills: seq<string>,
                           runs: map<string, OptunaRun>)
  {
    |final| == |told| + |kills| && final[..|told|] == told &&
    forall t :: 0 <= t < |kills| ==>
      kills[t] in runs && final[|told| + t].number == runs[kills[t]].trial.number
  }

  /** One poll tells at most once, for its own trial. */
  lemma PollOutcomeTells(pruner: Pruner, orun: OptunaRun, metrics: seq<real>, inter: Intermediate,
                         told: seq<Told>, key: string, runs: map<string, OptunaRun>)
    requires Cursor(orun, inter) && key in runs && runs[key] == orun
    ensures var p := PollOutcome(pruner, orun, metrics, inter, told);
            p.run.trial == orun.trial &&
            TellsFor(told, p.told, if p.finished then [key] else [], runs)
  {
    PollOutcomeFacts(pruner, orun, metrics, inter, told);
  }

  /** Tells for the runs of one map are tells for a map with the same
      trials. */
  lemma TellsForSameTrials(told: seq<Told>, final: seq<Told>, kills: seq<string>,
                           runs: map<string, OptunaRun>, runs': map<string, OptunaRun>)
    requires TellsFor(told, final, kills, runs')
    requires forall k :: k in runs' ==> k in runs && runs'[k].trial == runs[k].trial
    ensures TellsFor(told, final, kills, runs)
  {
  }

  /** Tells for `a` followed by tells for `b` are tells for `a + b`. */
  lemma TellsForAppend(told: seq<Told>, mid: seq<Told>, final: seq<Told>, a: seq<string>, b: seq<string>,
                       runs: map<string, OptunaRun>)
    requires TellsFor(told, mid, a, runs) && TellsFor(mid, final, b, runs)
    ensures TellsFor(told, final, a + b, runs)
  {
    assert final[..|told|] == final[..|mid|][..|told|];
    forall t | 0 <= t < |a + b|
      ensures (a + b)[t] in runs && final[|told| + t].number == runs[(a + b)[t]].trial.number
    {
      if t < |a| {
        assert final[|told| + t] == mid[|told| + t];
      } else {
        assert (a + b)[t] == b[t - |a|];
        assert final[|told| + t] == final[|mid| + (t - |a|)];
      }
    }
  }

  /** The sweep tells, in order, one result per collected id, for that
      run's trial, after what was told before. */
  lemma {:induction false} SweepTells(pruner: Pruner, history: string -> seq<real>, keys: seq<string>, i: nat,
                                      runs: map<string, OptunaRun>, inter: Intermediate, told: seq<Told>)
    requires i <= |keys|
    requires forall j :: 0 <= j < |keys| ==> keys[j] in runs
    requires AllCursors(runs, inter)
    ensures var r := PollFrom(pruner, history, keys, i, runs, inter, told);
            TellsFor(told, r.told, r.toKill, runs)
    decreases |keys| - i
  {
    if i < |keys| {
      var key := keys[i];
      var orun := runs[key];
      var p := PollOutcome(pruner, orun, history(orun.sweepRun.id), inter, told);
      PollOutcomeTells(pruner, orun, history(orun.sweepRun.id), inter, told, key, runs);
      SweepStep(pruner, history, keys, i, runs, inter, told);
      var runs' := runs[key := p.run];
      SweepTells(pruner, history, keys, i + 1, runs', p.inter, p.told);
      var rest := PollFrom(pruner, history, keys, i + 1, runs', p.inter, p.told);
      TellsForSameTrials(p.told, rest.told, rest.toKill, runs, runs');
      TellsForAppend(told, p.told, rest.told, if p.finished then [key] else [], rest.toKill, runs);
    }
  }

  lemma ExtendsTrans(a: Intermediate, b: Intermediate, c: Intermediate)
    requires Extends(a, b) && Extends(b, c)
    ensures Extends(a, c)
  {
  }

  /** The tracked-run invariant: cursors recorded, one trial per run, no
      trial told twice and no tracked trial told yet. */
  ghost predicate Tracked(runs: map<string, OptunaRun>, inter: Intermediate, told: seq<Told>)
  {
    AllCursors(runs, inter) && DistinctTrials(runs) && ToldOnce(told) &&
    forall k :: k in runs ==> NotTold(runs[k].trial.number, told)
  }

  /** After the sweep no trial has been told twice: the new tells are for
      distinct collected runs, whose trials are distinct and were not told
      before. */
  lemma SweepToldOnce(pruner: Pruner, history: string -> seq<real>, keys: seq<string>,
                      runs: map<string, OptunaRun>, inter: Intermediate, told: seq<Told>)
    requires DistinctKeys(keys) && (forall k :: k in runs <==> k in keys)
    requires Tracked(runs, inter, told)
    ensures ToldOnce(PollFrom(pruner, history, keys, 0, runs, inter, told).told)
  {
    assert forall j :: 0 <= j < |keys| ==> keys[j] in runs;
    SweepKills(pruner, history, keys, 0, runs, inter, told);
    SweepTells(pruner, history, keys, 0, runs, inter, told);
    var r := PollFrom(pruner, history, keys, 0, runs, inter, told);
    forall a, b | 0 <= a < b < |r.told| ensures r.told[a].number != r.told[b].number {
      if b < |told| {
        assert r.told[a] == told[a] && r.told[b] == told[b];
      } else if a < |told| {
        assert r.told[a] == told[a];
        assert r.toKill[b - |told|] in runs;
      } else {
        assert r.toKill[a - |told|] != r.toKill[b - |told|];
      }
    }
  }

  /** After the sweep no run it did not collect has been told. */
  lemma SweepKeptNotTold(pruner: Pruner, history: string -> seq<real>, keys: seq<string>,
                         runs: map<string, OptunaRun>, inter: Intermediate, told: seq<Told>)
    requires forall k :: k in runs <==> k in keys
    requires Tracked(runs, inter, told)
    ensures var r := PollFrom(pruner, history, keys, 0, runs, inter, told);
            forall k :: k in r.runs && k !in r.toKill ==> NotTold(r.runs[k].trial.number, r.told)
  {
    assert forall j :: 0 <= j < |keys| ==> keys[j] in runs;
    SweepKeepsTrials(pruner, history, keys, 0, runs, inter, told);
    SweepTells(pruner, history, keys, 0, runs, inter, told);
    var r := PollFrom(pruner, history, keys, 0, runs, inter, told);
    forall k | k in r.runs && k !in r.toKill ensures NotTold(r.runs[k].trial.number, r.told) {
      forall t | 0 <= t < |r.told| ensures r.told[t].number != r.runs[k].trial.number {
        if t < |told| {
          assert r.told[t] == told[t];
        } else {
          assert r.toKill[t - |told|] in runs;
          assert r.toKill[t - |told|] != k;
        }
      }
    }
  }

  /** Every tell after the sweep was there before or is for the trial of a
      run it collected. */
  lemma SweepToldOrigin(pruner: Pruner, history: string -> seq<real>, keys: seq<string>,
                        runs: map<string, OptunaRun>, inter: Intermediate, told: seq<Told>)
    requires forall k :: k in runs <==> k in keys
    requires AllCursors(runs, inter)
    ensures var r := PollFrom(pruner, history, keys, 0, runs, inter, told);
            forall t :: 0 <= t < |r.told| ==>
              r.told[t] in told || exists k :: k in r.toKill && k in runs && runs[k].trial.number == r.told[t].number
  {
    assert forall j :: 0 <= j < |keys| ==> keys[j] in runs;
    SweepTells(pruner, history, keys, 0, runs, inter, told);
    var r := PollFrom(pruner, history, keys, 0, runs, inter, told);
    forall t | 0 <= t < |r.told|
      ensures r.told[t] in told || exists k :: k in r.toKill && k in runs && runs[k].trial.number == r.told[t].number
    {
      if t < |told| {
        assert r.told[t] == told[t];
      } else {
        assert r.toKill[t - |told|] in r.toKill;
      }
    }
  }

  /** After the sweep, the runs it did not collect are still tracked: no
      trial was told twice, and no run the sweep keeps has been told. */
  lemma SweepKeepsTracked(pruner: Pruner, history: string -> seq<real>, keys: seq<string>,
                          runs: map<string, OptunaRun>, inter: Intermediate, told: seq<Told>)
    requires DistinctKeys(keys) && (forall k :: k in runs <==> k in keys)
    requires Tracked(runs, inter, told)
    ensures var r := PollFrom(pruner, history, keys, 0, runs, inter, told);
            Tracked(r.runs - (set t | t in r.toKill), r.inter, r.told) &&
            (forall t :: 0 <= t < |r.told| ==>
               r.told[t] in told || exists k :: k in r.toKill && k in runs && runs[k].trial.number == r.told[t].number)
  {
    assert forall j :: 0 <= j < |keys| ==> keys[j] in runs;
    SweepKeepsRuns(pruner, history, keys, 0, runs, inter, told);
    SweepToldOnce(pruner, history, keys, runs, inter, told);
    SweepKeptNotTold(pruner, history, keys, runs, inter, told);
    SweepToldOrigin(pruner, history, keys, runs, inter, told);
    var r := PollFrom(pruner, history, keys, 0, runs, inter, told);
    var kept := r.runs - (set t | t in r.toKill);
    assert forall k :: k in kept <==> k in r.runs && k !in r.toKill;
  }

  /** Registering a run with a freshly asked trial keeps the tracked-run
      invariant: the new trial number is above every tracked and every told
      one, and the run has seen no metrics. */
  lemma TrackNewRun(runs: map<string, OptunaRun>, inter: Intermediate, told: seq<Told>, count: nat,
                    id: string, orun: OptunaRun)
    requires Tracked(runs, inter, told)
    requires forall k :: k in runs ==> runs[k].trial.number < count
    requires forall i :: 0 <= i < |told| ==> told[i].number < count
    requires orun.numMetrics == 0 && orun.trial.number == count
    ensures var runs' := runs[id := orun];
            Tracked(runs', inter[count := map[]], told) &&
            forall k :: k in runs' ==> runs'[k].trial.number < count + 1
  {
    var runs', inter' := runs[id := orun], inter[count := map[]];
    forall k | k in runs' ensures Cursor(runs'[k], inter') {
      if k != id {
        assert Cursor(runs[k], inter);
      }
    }
  }
}
