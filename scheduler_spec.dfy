/** The bookkeeping of OptunaScheduler in
    wandb/sdk/launch/sweeps/scheduler_optuna.py as a value: the scheduler's
    `_runs`, `_job_queue`, `_optuna_runs` (with its key order) and the
    study's trial counter, recorded values and tells. `_heartbeat`, the
    kill loop of `_run` and the rest of one `_run` round are functions on
    it, and the lemmas prove that each keeps the scheduler's invariant. */
module SchedulerSpec {
  import opened Wrappers
  import opened PyValues
  import opened OptunaStudy
  import opened OptunaSpec
  import opened OptunaProperties

  /** `keys` without `id`, in order: deleting a key of a dictionary. */
  function Remove(keys: seq<string>, id: string): (r: seq<string>)
    ensures forall k :: k in r <==> k in keys && k != id
    ensures DistinctKeys(keys) ==> DistinctKeys(r)
  {
    if keys == [] then []
    else
      var rest := Remove(keys[1..], id);
      if keys[0] == id then rest
      else
        assert DistinctKeys(keys) ==> keys[0] !in keys[1..];
        [keys[0]] + rest
  }

  /** The scheduler's state and its study's. */
  datatype Books = Books(runs: map<string, SweepRun>, jobQueue: seq<SweepRun>,
                         optunaRuns: map<string, OptunaRun>, optunaKeys: seq<string>,
                         trialCount: nat, inter: Intermediate, told: seq<Told>)

  /** At most one queued run; never more runs than workers; the key order
      lists each tracked run once; every tracked run has its own trial,
      asked for and not yet told, whose recorded steps cover the run's
      metric cursor; no trial is told twice, and none that was not asked
      for. */
  ghost predicate Bookkeeping(numWorkers: nat, b: Books)
  {
    |b.jobQueue| <= 1 &&
    |b.runs| <= numWorkers &&
    DistinctKeys(b.optunaKeys) &&
    (forall k :: k in b.optunaRuns <==> k in b.optunaKeys) &&
    Tracked(b.optunaRuns, b.inter, b.told) &&
    (forall k :: k in b.optunaRuns ==> b.optunaRuns[k].trial.number < b.trialCount) &&
    (forall i :: 0 <= i < |b.told| ==> b.told[i].number < b.trialCount)
  }

  // ---------------------------------------------------------------------------
  // _heartbeat
  // ---------------------------------------------------------------------------

  /** `_heartbeat(worker_id)`: when the scheduler is alive, nothing is
      queued and fewer runs than workers exist, ask for a trial, and put one
      new run with its configuration in `_runs`, the queue and
      `_optuna_runs`, with no metrics seen; otherwise nothing changes.
      `newId` is the id the backend gives the new run. */
  function Beat(b: Books, alive: bool, numWorkers: nat, parameters: Params, sampler: Sampler,
                workerId: int, newId: string): Books
  {
    if alive && b.jobQueue == [] && |b.runs| < numWorkers then
      var t := Trial(b.trialCount);
      var srun := SweepRun(newId, TrialConfig(parameters, t, sampler), workerId, Alive);
      Books(b.runs[newId := srun], [srun], b.optunaRuns[newId := OptunaRun(0, t, srun)],
            if newId in b.optunaRuns then b.optunaKeys else b.optunaKeys + [newId],
            b.trialCount + 1, b.inter[t.number := map[]], b.told)
    else b
  }

  /** Putting a run under a key keeps the key order in step with the
      tracked runs: a new key goes at the end, a present one stays. */
  lemma KeyAdded(runs: map<string, OptunaRun>, keys: seq<string>, id: string, orun: OptunaRun)
    requires DistinctKeys(keys) && forall k :: k in runs <==> k in keys
    ensures var keys' := if id in runs then keys else keys + [id];
            DistinctKeys(keys') && forall k :: k in runs[id := orun] <==> k in keys'
  {
  }

  /** Putting one entry in a map grows it by at most one. */
  lemma SizeAfterPut(m: map<string, SweepRun>, k: string, v: SweepRun)
    ensures |m[k := v]| <= |m| + 1
  {
    assert m[k := v].Keys == m.Keys + {k};
  }

  /** Registering run `srun` under its id, with a freshly asked trial and
      no metrics seen, when nothing is queued and a worker is free, keeps
      the invariant. */
  lemma RegisterKeeps(numWorkers: nat, b: Books, srun: SweepRun)
    requires Bookkeeping(numWorkers, b)
    requires b.jobQueue == [] && |b.runs| < numWorkers
    ensures var orun := OptunaRun(0, Trial(b.trialCount), srun);
            Bookkeeping(numWorkers,
                        Books(b.runs[srun.id := srun], [srun], b.optunaRuns[srun.id := orun],
                              if srun.id in b.optunaRuns then b.optunaKeys else b.optunaKeys + [srun.id],
                              b.trialCount + 1, b.inter[b.trialCount := map[]], b.told))
  {
    var orun := OptunaRun(0, Trial(b.trialCount), srun);
    TrackNewRun(b.optunaRuns, b.inter, b.told, b.trialCount, srun.id, orun);
    KeyAdded(b.optunaRuns, b.optunaKeys, srun.id, orun);
    SizeAfterPut(b.runs, srun.id, srun);
    assert forall i :: 0 <= i < |b.told| ==> b.told[i].number < b.trialCount + 1;
  }

  /** A heartbeat keeps the invariant. */
  lemma BeatKeeps(b: Books, alive: bool, numWorkers: nat, parameters: Params, sampler: Sampler,
                  workerId: int, newId: string)
    requires Bookkeeping(numWorkers, b)
    ensures Bookkeeping(numWorkers, Beat(b, alive, numWorkers, parameters, sampler, workerId, newId))
  {
    if alive && b.jobQueue == [] && |b.runs| < numWorkers {
      RegisterKeeps(numWorkers, b, SweepRun(newId, TrialConfig(parameters, Trial(b.trialCount), sampler), workerId, Alive));
    }
  }

  /** A heartbeat creates a run exactly when the scheduler is alive, the
      queue is empty and a worker is free; then the queue holds just the new
      run, the run is tracked with the trial just asked for, that trial
      has no tell, and every other entry of `_runs` and `_optuna_runs` is
      kept. */
  lemma BeatCreates(b: Books, alive: bool, numWorkers: nat, parameters: Params, sampler: Sampler,
                    workerId: int, newId: string)
    requires Bookkeeping(numWorkers, b)
    ensures var r := Beat(b, alive, numWorkers, parameters, sampler, workerId, newId);
            (r.trialCount == b.trialCount + 1 <==> alive && b.jobQueue == [] && |b.runs| < numWorkers) &&
            (r.trialCount != b.trialCount + 1 ==> r == b) &&
            (r.trialCount == b.trialCount + 1 ==>
               r.jobQueue == [r.runs[newId]] && newId in r.optunaRuns &&
               r.optunaRuns[newId] == OptunaRun(0, Trial(b.trialCount), r.runs[newId]) &&
               r.runs[newId].workerId == workerId &&
               r.runs[newId].args == TrialConfig(parameters, Trial(b.trialCount), sampler) &&
               NotTold(b.trialCount, r.told) && r.told == b.told &&
               r.runs.Keys == b.runs.Keys + {newId} &&
               (forall k :: k in b.runs && k != newId ==> r.runs[k] == b.runs[k]) &&
               r.optunaRuns.Keys == b.optunaRuns.Keys + {newId} &&
               (forall k :: k in b.optunaRuns && k != newId ==> r.optunaRuns[k] == b.optunaRuns[k]) &&
               r.inter == b.inter[b.trialCount := map[]])
  {
    BeatFrame(b, alive, numWorkers, parameters, sampler, workerId, newId);
  }

  /** A heartbeat that creates a run adds just its one key to `_runs` and
      `_optuna_runs` and an empty record for its trial. */
  lemma BeatFrame(b: Books, alive: bool, numWorkers: nat, parameters: Params, sampler: Sampler,
                  workerId: int, newId: string)
    ensures var r := Beat(b, alive, numWorkers, parameters, sampler, workerId, newId);
            alive && b.jobQueue == [] && |b.runs| < numWorkers ==>
              r.runs.Keys == b.runs.Keys + {newId} &&
              (forall k :: k in b.runs && k != newId ==> r.runs[k] == b.runs[k]) &&
              r.optunaRuns.Keys == b.optunaRuns.Keys + {newId} &&
              (forall k :: k in b.optunaRuns && k != newId ==> r.optunaRuns[k] == b.optunaRuns[k]) &&
              r.inter == b.inter[b.trialCount := map[]]
  {
    if alive && b.jobQueue == [] && |b.runs| < numWorkers {
      var t := Trial(b.trialCount);
      var srun := SweepRun(newId, TrialConfig(parameters, t, sampler), workerId, Alive);
      PutFrame(b.runs, newId, srun);
      PutFrame(b.optunaRuns, newId, OptunaRun(0, t, srun));
    }
  }

  /** Putting one entry in a map adds its key and keeps every other
      entry. */
  lemma PutFrame<V>(m: map<string, V>, key: string, v: V)
    ensures m[key := v].Keys == m.Keys + {key}
    ensures forall k :: k in m && k != key ==> m[key := v][k] == m[k]
  {
  }

  /** Within one round, only the first heartbeat can create a run: after a
      heartbeat, another one changes nothing. */
  lemma BeatOnce(b: Books, alive: bool, numWorkers: nat, parameters: Params, sampler: Sampler,
                 w1: int, w2: int, newId: string)
    ensures var r := Beat(b, alive, numWorkers, parameters, sampler, w1, newId);
            Beat(r, alive, numWorkers, parameters, sampler, w2, newId) == r
  {
  }

  /** The heartbeats of workers `0 .. w - 1`, in order. */
  function Beats(b: Books, alive: bool, numWorkers: nat, parameters: Params, sampler: Sampler,
                 w: nat, newId: string): Books
  {
    if w == 0 then b
    else Beat(Beats(b, alive, numWorkers, parameters, sampler, w - 1, newId),
              alive, numWorkers, parameters, sampler, w - 1, newId)
  }

  /** A round of heartbeats is worker 0's heartbeat: any run it creates
      belongs to worker 0. */
  lemma {:induction false} BeatsFirst(b: Books, alive: bool, numWorkers: nat, parameters: Params,
                                      sampler: Sampler, w: nat, newId: string)
    ensures Beats(b, alive, numWorkers, parameters, sampler, w, newId) ==
            if w == 0 then b else Beat(b, alive, numWorkers, parameters, sampler, 0, newId)
  {
    if w > 1 {
      BeatsFirst(b, alive, numWorkers, parameters, sampler, w - 1, newId);
      BeatOnce(b, alive, numWorkers, parameters, sampler, 0, w - 1, newId);
    }
  }

  /** A round of heartbeats keeps the invariant. */
  lemma BeatsKeep(b: Books, alive: bool, numWorkers: nat, parameters: Params, sampler: Sampler,
                  w: nat, newId: string)
    requires Bookkeeping(numWorkers, b)
    ensures Bookkeeping(numWorkers, Beats(b, alive, numWorkers, parameters, sampler, w, newId))
  {
    BeatsFirst(b, alive, numWorkers, parameters, sampler, w, newId);
    BeatKeeps(b, alive, numWorkers, parameters, sampler, 0, newId);
  }

  // ---------------------------------------------------------------------------
  // _run
  // ---------------------------------------------------------------------------

  /** The books once `_poll_running_runs` has swept the tracked runs. */
  function Swept(b: Books, s: Sweep): Books
  {
    b.(optunaRuns := s.runs, inter := s.inter, told := s.told)
  }

  /** The sweep of one `_run` over the books' tracked runs. */
  function SweepOf(b: Books, pruner: Pruner, history: string -> seq<real>): Sweep
    requires forall k :: k in b.optunaRuns <==> k in b.optunaKeys
    requires AllCursors(b.optunaRuns, b.inter)
  {
    PollFrom(pruner, history, b.optunaKeys, 0, b.optunaRuns, b.inter, b.told)
  }

  /** `del self._optuna_runs[run_id]` for each id of `ids`, in order. */
  function Unregister(b: Books, ids: seq<string>): Books
    decreases |ids|
  {
    if ids == [] then b
    else
      var c := Unregister(b, ids[..|ids| - 1]);
      var id := ids[|ids| - 1];
      c.(optunaRuns := c.optunaRuns - {id}, optunaKeys := Remove(c.optunaKeys, id))
  }

  /** Deleting the ids drops exactly those runs from the tracked runs and
      the key order, and changes nothing else. */
  lemma {:induction false} UnregisterDrops(b: Books, ids: seq<string>)
    ensures var r := Unregister(b, ids);
            (forall k :: k in r.optunaRuns <==> k in b.optunaRuns && k !in ids) &&
            (forall k :: k in r.optunaRuns ==> r.optunaRuns[k] == b.optunaRuns[k]) &&
            (forall k :: k in r.optunaKeys <==> k in b.optunaKeys && k !in ids) &&
            (DistinctKeys(b.optunaKeys) ==> DistinctKeys(r.optunaKeys)) &&
            r.runs == b.runs && r.jobQueue == b.jobQueue && r.trialCount == b.trialCount &&
            r.inter == b.inter && r.told == b.told
    decreases |ids|
  {
    if ids != [] {
      UnregisterDrops(b, ids[..|ids| - 1]);
      forall k ensures k in ids <==> k in ids[..|ids| - 1] || k == ids[|ids| - 1] {
        assert ids == ids[..|ids| - 1] + [ids[|ids| - 1]];
      }
    }
  }

  /** A map that keeps exactly the entries of `m` outside `ids` is `m`
      without `ids`. */
  lemma MapWithout(m: map<string, OptunaRun>, ids: seq<string>, m': map<string, OptunaRun>)
    requires forall k :: k in m' <==> k in m && k !in ids
    requires forall k :: k in m' ==> m'[k] == m[k]
    ensures m' == m - (set t | t in ids)
  {
  }

  /** Tells for trials that were asked for, or for trials of runs that
      were, are all for trials that were asked for. */
  lemma ToldAsked(told: seq<Told>, told': seq<Told>, kills: seq<string>, runs: map<string, OptunaRun>, count: nat)
    requires forall i :: 0 <= i < |told| ==> told[i].number < count
    requires forall k :: k in runs ==> runs[k].trial.number < count
    requires forall t :: 0 <= t < |told'| ==>
               told'[t] in told || exists k :: k in kills && k in runs && runs[k].trial.number == told'[t].number
    ensures forall t :: 0 <= t < |told'| ==> told'[t].number < count
  {
    forall t | 0 <= t < |told'| ensures told'[t].number < count {
      if told'[t] !in told {
        var k :| k in kills && k in runs && runs[k].trial.number == told'[t].number;
      }
    }
  }

  /** Sweeping and then deleting the collected ids keeps the invariant:
      the runs left are still tracked, and every tell is for a trial that
      was asked for. */
  lemma KillKeeps(numWorkers: nat, b: Books, pruner: Pruner, history: string -> seq<real>)
    requires Bookkeeping(numWorkers, b)
    ensures var s := SweepOf(b, pruner, history);
            Bookkeeping(numWorkers, Unregister(Swept(b, s), s.toKill))
  {
    KillKeepsKeys(b, pruner, history);
    KillKeepsTracked(numWorkers, b, pruner, history);
  }

  /** Sweeping and deleting the collected ids keeps the key order distinct
      and in step with the tracked runs, keeps their trials below the
      count, and leaves the runs, the queue and the count alone. */
  lemma KillKeepsKeys(b: Books, pruner: Pruner, history: string -> seq<real>)
    requires DistinctKeys(b.optunaKeys) && (forall k :: k in b.optunaRuns <==> k in b.optunaKeys)
    requires AllCursors(b.optunaRuns, b.inter)
    requires forall k :: k in b.optunaRuns ==> b.optunaRuns[k].trial.number < b.trialCount
    ensures var s := SweepOf(b, pruner, history);
            var r := Unregister(Swept(b, s), s.toKill);
            DistinctKeys(r.optunaKeys) && (forall k :: k in r.optunaRuns <==> k in r.optunaKeys) &&
            (forall k :: k in r.optunaRuns ==> r.optunaRuns[k].trial.number < r.trialCount) &&
            r.runs == b.runs && r.jobQueue == b.jobQueue && r.trialCount == b.trialCount
  {
    var s := SweepOf(b, pruner, history);
    assert forall j :: 0 <= j < |b.optunaKeys| ==> b.optunaKeys[j] in b.optunaRuns;
    SweepKeepsTrials(pruner, history, b.optunaKeys, 0, b.optunaRuns, b.inter, b.told);
    UnregisterDrops(Swept(b, s), s.toKill);
  }

  /** Sweeping and deleting the collected ids leaves the runs still
      tracked, and every tell for a trial that was asked for. */
  lemma KillKeepsTracked(numWorkers: nat, b: Books, pruner: Pruner, history: string -> seq<real>)
    requires Bookkeeping(numWorkers, b)
    ensures var s := SweepOf(b, pruner, history);
            var r := Unregister(Swept(b, s), s.toKill);
            Tracked(r.optunaRuns, r.inter, r.told) &&
            (forall i :: 0 <= i < |r.told| ==> r.told[i].number < r.trialCount)
  {
    var s := SweepOf(b, pruner, history);
    var r := Unregister(Swept(b, s), s.toKill);
    SweepKeepsTracked(pruner, history, b.optunaKeys, b.optunaRuns, b.inter, b.told);
    UnregisterDrops(Swept(b, s), s.toKill);
    MapWithout(s.runs, s.toKill, r.optunaRuns);
    ToldAsked(b.told, r.told, s.toKill, b.optunaRuns, b.trialCount);
  }

  /** `_job_queue.get()`: the first queued run leaves the queue. */
  function Pop(b: Books): Books
  {
    if b.jobQueue == [] then b else b.(jobQueue := b.jobQueue[1..])
  }

  /** What `_run` passes to `_add_to_launch_queue`: the popped run's id and
      arguments, unless the queue was empty or the run is dead or in an
      unknown state. */
  function Launch(queue: seq<SweepRun>): seq<(string, map<string, PyValue>)>
  {
    if queue == [] || queue[0].state == Dead || queue[0].state == Unknown then []
    else [(queue[0].id, queue[0].args)]
  }

  /** The books once `_run` has swept the tracked runs and deleted the
      collected ones. */
  function Killed(b: Books, pruner: Pruner, history: string -> seq<real>): Books
    requires forall k :: k in b.optunaRuns <==> k in b.optunaKeys
    requires AllCursors(b.optunaRuns, b.inter)
  {
    var s := SweepOf(b, pruner, history);
    Unregister(Swept(b, s), s.toKill)
  }

  /** The books of one `_run` before it takes from the queue: swept,
      collected runs deleted, and every worker's heartbeat. */
  function Round(b: Books, alive: bool, numWorkers: nat, parameters: Params, pruner: Pruner,
                 sampler: Sampler, history: string -> seq<real>, newId: string): Books
    requires forall k :: k in b.optunaRuns <==> k in b.optunaKeys
    requires AllCursors(b.optunaRuns, b.inter)
  {
    Beats(Killed(b, pruner, history), alive, numWorkers, parameters, sampler, numWorkers, newId)
  }

  /** One `_run` keeps the invariant and ends with an empty queue. */
  lemma RunKeeps(numWorkers: nat, b: Books, alive: bool, parameters: Params, pruner: Pruner,
                 sampler: Sampler, history: string -> seq<real>, newId: string)
    requires Bookkeeping(numWorkers, b)
    ensures var r := Pop(Round(b, alive, numWorkers, parameters, pruner, sampler, history, newId));
            Bookkeeping(numWorkers, r) && r.jobQueue == []
  {
    KillKeeps(numWorkers, b, pruner, history);
    BeatsKeep(Killed(b, pruner, history), alive, numWorkers, parameters, sampler, numWorkers, newId);
  }

  /** Within one `_run`, a run is launched exactly when one was already
      queued, or this round's heartbeats created one, and it is alive; a
      run this round created is worker 0's, tracked with a fresh trial. */
  lemma RunLaunches(numWorkers: nat, b: Books, alive: bool, parameters: Params, pruner: Pruner,
                    sampler: Sampler, history: string -> seq<real>, newId: string)
    requires Bookkeeping(numWorkers, b)
    ensures var round := Round(b, alive, numWorkers, parameters, pruner, sampler, history, newId);
            (b.jobQueue != [] ==> Launch(round.jobQueue) == Launch(b.jobQueue)) &&
            (b.jobQueue == [] && alive && |b.runs| < numWorkers ==>
               var srun := SweepRun(newId, TrialConfig(parameters, Trial(b.trialCount), sampler), 0, Alive);
               Launch(round.jobQueue) == [(newId, srun.args)] && newId in round.runs && round.runs[newId] == srun &&
               newId in round.optunaRuns && round.optunaRuns[newId] == OptunaRun(0, Trial(b.trialCount), srun)) &&
            (b.jobQueue == [] && !(alive && |b.runs| < numWorkers) ==> Launch(round.jobQueue) == [])
  {
    var s := SweepOf(b, pruner, history);
    UnregisterDrops(Swept(b, s), s.toKill);
    BeatsFirst(Killed(b, pruner, history), alive, numWorkers, parameters, sampler, numWorkers, newId);
  }
}
