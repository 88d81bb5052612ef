/** The fixed name tables of wandb/sdk/launch/sweeps/scheduler_optuna.py:
    the two pruners and the one sampler the scheduler builds from a sweep's
    `optuna` section (`_make_optuna_pruner`, `_make_optuna_sampler`), and the
    name-to-constructor tables `load_optuna_pruner` / `load_optuna_sampler`
    with the `validate_*` checks built on them.

    Whether an Optuna constructor accepts a set of keyword arguments is
    Optuna's business: it is the parameter `accepts(name, kwargs)`. */
module OptunaTables {
  import opened Wrappers
  import opened PyValues

  /** A pruner as `_make_optuna_pruner` configures it: the values handed to
      the constructor's keyword arguments. */
  datatype PrunerSetting =
    | Hyperband(minResource: PyValue, maxResource: PyValue, reductionFactor: PyValue)
    | SuccessiveHalving(minResource: PyValue, reductionFactor: PyValue)

  /** A sampler as `_make_optuna_sampler` configures it. */
  datatype SamplerSetting = RandomSampler(seed: PyValue)

  /** The `SchedulerError`s of the two makers, with the offending `type`. */
  datatype SchedulerError = PrunerNotSupported(type_: PyValue) | SamplerNotSupported(type_: PyValue)

  /** `_make_optuna_pruner(pruner_args)`. */
  function MakeOptunaPruner(args: Args): Result<PrunerSetting, SchedulerError>
  {
    var type_ := Get(args, "type", PyNone);
    if type_ == PyStr("HyperbandPruner") then
      Ok(Hyperband(Get(args, "min_resource", PyInt(1)), Get(args, "epochs", PyNone),
                   Get(args, "reduction_factor", PyInt(3))))
    else if type_ == PyStr("SuccessiveHalvingPruner") then
      Ok(SuccessiveHalving(Get(args, "min_resource", PyInt(1)), Get(args, "reduction_factor", PyInt(3))))
    else
      Err(PrunerNotSupported(type_))
  }

  /** `_make_optuna_sampler(sampler_args)`. */
  function MakeOptunaSampler(args: Args): Result<SamplerSetting, SchedulerError>
  {
    var type_ := Get(args, "type", PyNone);
    if type_ == PyStr("RandomSampler") then Ok(RandomSampler(Get(args, "seed", PyNone)))
    else Err(SamplerNotSupported(type_))
  }

  /** An Optuna component built by name: `optuna.pruners.<name>(**kwargs)` or
      `optuna.samplers.<name>(**kwargs)`. */
  datatype Component = Component(name: string, kwargs: Args)

  /** Why `load_optuna_*` raises: the name is not in its table, or Optuna's
      constructor refuses the keyword arguments (a `TypeError`). */
  datatype LoadError = NotSupported(type_: PyValue) | Rejected(name: string, kwargs: Args)

  /** Whether Optuna's constructor of the named class accepts the keyword
      arguments. */
  type Accepts = (string, Args) -> bool

  /** The names `load_optuna_pruner` knows, in its order. */
  const PrunerNames: seq<string> :=
    ["BasePruner", "NopPruner", "MedianPruner", "HyperbandPruner", "PatientPruner",
     "PercentilePruner", "SuccessiveHalvingPruner", "ThresholdPruner"]

  /** The names `load_optuna_sampler` knows, in its order. */
  const SamplerNames: seq<string> :=
    ["BaseSampler", "BruteForceSampler", "CmaEsSampler", "GridSampler", "IntersectionSearchSpace",
     "MOTPESampler", "NSGAIISampler", "PartialFixedSampler", "RandomSampler", "TPESampler", "QMCSampler"]

  /** Calling the constructor `name(**kwargs)`. */
  function Construct(name: string, kwargs: Args, accepts: Accepts): Result<Component, LoadError>
  {
    if accepts(name, kwargs) then Ok(Component(name, kwargs)) else Err(Rejected(name, kwargs))
  }

  /** `load_optuna_pruner(_type, args)`: the chain of name tests. */
  function LoadOptunaPruner(type_: PyValue, args: Args, accepts: Accepts): Result<Component, LoadError>
  {
    if type_ == PyStr("BasePruner") then Construct("BasePruner", args, accepts)
    else if type_ == PyStr("NopPruner") then Construct("NopPruner", args, accepts)
    else if type_ == PyStr("MedianPruner") then Construct("MedianPruner", args, accepts)
    else if type_ == PyStr("HyperbandPruner") then Construct("HyperbandPruner", args, accepts)
    else if type_ == PyStr("PatientPruner") then Construct("PatientPruner", args, accepts)
    else if type_ == PyStr("PercentilePruner") then Construct("PercentilePruner", args, accepts)
    else if type_ == PyStr("SuccessiveHalvingPruner") then Construct("SuccessiveHalvingPruner", args, accepts)
    else if type_ == PyStr("ThresholdPruner") then Construct("ThresholdPruner", args, accepts)
    else Err(NotSupported(type_))
  }

  /** `load_optuna_sampler(_type, args)`: the chain of name tests. */
  function LoadOptunaSampler(type_: PyValue, args: Args, accepts: Accepts): Result<Component, LoadError>
  {
    if type_ == PyStr("BaseSampler") then Construct("BaseSampler", args, accepts)
    else if type_ == PyStr("BruteForceSampler") then Construct("BruteForceSampler", args, accepts)
    else if type_ == PyStr("CmaEsSampler") then Construct("CmaEsSampler", args, accepts)
    else if type_ == PyStr("GridSampler") then Construct("GridSampler", args, accepts)
    else if type_ == PyStr("IntersectionSearchSpace") then Construct("IntersectionSearchSpace", args, accepts)
    else if type_ == PyStr("MOTPESampler") then Construct("MOTPESampler", args, accepts)
    else if type_ == PyStr("NSGAIISampler") then Construct("NSGAIISampler", args, accepts)
    else if type_ == PyStr("PartialFixedSampler") then Construct("PartialFixedSampler", args, accepts)
    else if type_ == PyStr("RandomSampler") then Construct("RandomSampler", args, accepts)
    else if type_ == PyStr("TPESampler") then Construct("TPESampler", args, accepts)
    else if type_ == PyStr("QMCSampler") then Construct("QMCSampler", args, accepts)
    else Err(NotSupported(type_))
  }

  /** `validate_optuna_pruner(args)`, as written: the whole of `args`,
      `type` included, goes to the constructor. */
  predicate ValidateOptunaPruner(args: Args, accepts: Accepts)
  {
    LoadOptunaPruner(Get(args, "type", PyNone), args, accepts).Ok?
  }

  /** `validate_optuna_sampler(args)`, as written. */
  predicate ValidateOptunaSampler(args: Args, accepts: Accepts)
  {
    LoadOptunaSampler(Get(args, "type", PyNone), args, accepts).Ok?
  }

  /** The check as evidently intended: `type` names the class and the other
      entries are its keyword arguments. */
  predicate ValidatePrunerSetting(args: Args, accepts: Accepts)
  {
    LoadOptunaPruner(Get(args, "type", PyNone), args - {"type"}, accepts).Ok?
  }

  /** The sampler check as evidently intended. */
  predicate ValidateSamplerSetting(args: Args, accepts: Accepts)
  {
    LoadOptunaSampler(Get(args, "type", PyNone), args - {"type"}, accepts).Ok?
  }
}
