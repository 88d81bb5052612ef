/** The part of an Optuna study that the scheduler in
    wandb/sdk/launch/sweeps/scheduler_optuna.py drives: `ask` for a new
    trial, `report` an intermediate value, `should_prune`, `tell` a result
    and the `suggest_*` calls. What Optuna decides is given. The pruner
    decides from a trial's number and what the study has recorded. The
    sampler picks a value from the trial number, the parameter name and the
    distribution. */
module OptunaStudy {
  import opened Wrappers
  import opened PyValues

  /** The distribution a `suggest_*` call names. */
  datatype Distribution =
    | Categorical(choices: PyValue)                      // suggest_categorical(name, choices)
    | FloatRange(low: PyValue, high: PyValue, log: bool)  // suggest_float(name, low, high, log=log)
    | IntRange(low: PyValue, high: PyValue, log: bool)    // suggest_int(name, low, high, log=log)

  /** A trial handle: Optuna numbers trials 0, 1, 2, ... in the order they are
      asked for. */
  datatype Trial = Trial(number: nat)

  /** The final states the scheduler tells. */
  datatype TrialState = Pruned | Complete

  /** One `study.tell(trial, state, values)` call. */
  datatype Told = Told(number: nat, state: TrialState, value: Option<real>)

  /** Intermediate values by trial number, then by step. */
  type Intermediate = map<nat, map<int, real>>

  /** `trial.should_prune()`. */
  type Pruner = (nat, Intermediate, seq<Told>) -> bool

  /** `trial.suggest_*(name, ...)`. */
  type Sampler = (nat, string, Distribution) -> PyValue

  /** `trial.report(value, step)` on the recorded values. */
  function Record(inter: Intermediate, n: nat, step: int, value: real): (r: Intermediate)
    requires n in inter
    ensures r.Keys == inter.Keys
    ensures forall m :: m in inter && m != n ==> r[m] == inter[m]
    ensures r[n].Keys == inter[n].Keys + {step} && r[n][step] == value
    ensures forall s :: s in inter[n] && s != step ==> r[n][s] == inter[n][s]
  {
    inter[n := inter[n][step := value]]
  }

  /** The value `suggest_*` returns. */
  function Suggest(sampler: Sampler, t: Trial, name: string, d: Distribution): PyValue
  {
    sampler(t.number, name, d)
  }

  class Study {
    const pruner: Pruner
    const sampler: Sampler
    /** The number of trials asked for so far. */
    var trialCount: nat
    var intermediate: Intermediate
    /** Every `tell`, in order. */
    var told: seq<Told>

    /** `optuna.create_study(pruner=..., sampler=...)` with no prior trials. */
    constructor (pruner: Pruner, sampler: Sampler)
      ensures this.pruner == pruner && this.sampler == sampler
      ensures trialCount == 0 && intermediate == map[] && told == []
    {
      this.pruner := pruner;
      this.sampler := sampler;
      trialCount := 0;
      intermediate := map[];
      told := [];
    }

    /** `study.ask()`: a trial with the next number and no values yet. */
    method Ask() returns (t: Trial)
      modifies this
      ensures t.number == old(trialCount) && trialCount == old(trialCount) + 1
      ensures intermediate == old(intermediate)[t.number := map[]]
      ensures told == old(told)
    {
      t := Trial(trialCount);
      intermediate := intermediate[t.number := map[]];
      trialCount := trialCount + 1;
    }

    /** `trial.report(value, step)`. */
    method Report(t: Trial, value: real, step: int)
      requires t.number in intermediate
      modifies this`intermediate
      ensures intermediate == Record(old(intermediate), t.number, step, value)
    {
      intermediate := Record(intermediate, t.number, step, value);
    }

    /** `trial.should_prune()`. */
    predicate ShouldPrune(t: Trial)
      reads this
    {
      pruner(t.number, intermediate, told)
    }

    /** `study.tell(trial, state=..., values=...)`. */
    method Tell(t: Trial, state: TrialState, value: Option<real>)
      modifies this`told
      ensures told == old(told) + [Told(t.number, state, value)]
    {
      told := told + [Told(t.number, state, value)];
    }
  }
}
