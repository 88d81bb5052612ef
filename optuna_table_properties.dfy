/** What the pruner and sampler tables promise, proved of module
    OptunaTables. */
module OptunaTableProperties {
  import opened Wrappers
  import opened PyValues
  import opened OptunaTables

  /** `_make_optuna_pruner` accepts exactly the two pruner names; a missing
      `min_resource` is 1 and a missing `reduction_factor` is 3, a given one
      is passed through, and Hyperband's `max_resource` is `epochs`. */
  lemma MakePrunerSettings(args: Args)
    ensures var t := Get(args, "type", PyNone);
            MakeOptunaPruner(args).Ok? <==>
              t == PyStr("HyperbandPruner") || t == PyStr("SuccessiveHalvingPruner")
    ensures MakeOptunaPruner(args).Err? ==>
              MakeOptunaPruner(args).error == PrunerNotSupported(Get(args, "type", PyNone))
    ensures MakeOptunaPruner(args).Ok? ==>
              var p := MakeOptunaPruner(args).value;
              (p.Hyperband? <==> Get(args, "type", PyNone) == PyStr("HyperbandPruner")) &&
              p.minResource == (if "min_resource" in args then args["min_resource"] else PyInt(1)) &&
              p.reductionFactor == (if "reduction_factor" in args then args["reduction_factor"] else PyInt(3)) &&
              (p.Hyperband? ==> p.maxResource == (if "epochs" in args then args["epochs"] else PyNone))
  {
  }

  /** `_make_optuna_sampler` accepts only `RandomSampler`, seeded with `seed`
      (`None` when absent). */
  lemma MakeSamplerSettings(args: Args)
    ensures MakeOptunaSampler(args).Ok? <==> Get(args, "type", PyNone) == PyStr("RandomSampler")
    ensures MakeOptunaSampler(args).Ok? ==>
              MakeOptunaSampler(args).value.seed == (if "seed" in args then args["seed"] else PyNone)
    ensures MakeOptunaSampler(args).Err? ==>
              MakeOptunaSampler(args).error == SamplerNotSupported(Get(args, "type", PyNone))
  {
  }

  /** The pruners the scheduler makes by itself are in the load table. */
  lemma MadePrunersLoadable(args: Args)
    requires MakeOptunaPruner(args).Ok?
    ensures Get(args, "type", PyNone).PyStr? && Get(args, "type", PyNone).s in PrunerNames
  {
    assert PrunerNames[3] == "HyperbandPruner" && PrunerNames[6] == "SuccessiveHalvingPruner";
  }

  /** The sampler the scheduler makes by itself is in the load table. */
  lemma MadeSamplersLoadable(args: Args)
    requires MakeOptunaSampler(args).Ok?
    ensures Get(args, "type", PyNone).PyStr? && Get(args, "type", PyNone).s in SamplerNames
  {
    assert SamplerNames[8] == "RandomSampler";
  }

  /** `load_optuna_pruner` builds the named class from the keyword
      arguments exactly when the name is in its table and Optuna accepts
      them; an unknown name raises whatever the arguments. */
  lemma {:induction false} LoadPrunerTable(type_: PyValue, args: Args, accepts: Accepts)
    ensures var r := LoadOptunaPruner(type_, args, accepts);
            (r.Ok? <==> type_.PyStr? && type_.s in PrunerNames && accepts(type_.s, args)) &&
            (r.Ok? ==> r.value == Component(type_.s, args)) &&
            (!(type_.PyStr? && type_.s in PrunerNames) ==> r == Err(NotSupported(type_)))
  {
    if type_.PyStr? && type_.s in PrunerNames {
      var i :| 0 <= i < |PrunerNames| && PrunerNames[i] == type_.s;
      assert i == 0 || i == 1 || i == 2 || i == 3 || i == 4 || i == 5 || i == 6 || i == 7;
    }
  }

  /** `load_optuna_sampler` builds the named class exactly when the name is
      in its table and Optuna accepts the arguments. */
  lemma {:induction false} LoadSamplerTable(type_: PyValue, args: Args, accepts: Accepts)
    ensures var r := LoadOptunaSampler(type_, args, accepts);
            (r.Ok? <==> type_.PyStr? && type_.s in SamplerNames && accepts(type_.s, args)) &&
            (r.Ok? ==> r.value == Component(type_.s, args)) &&
            (!(type_.PyStr? && type_.s in SamplerNames) ==> r == Err(NotSupported(type_)))
  {
    if type_.PyStr? && type_.s in SamplerNames {
      var i :| 0 <= i < |SamplerNames| && SamplerNames[i] == type_.s;
      assert i == 0 || i == 1 || i == 2 || i == 3 || i == 4 || i == 5 || i == 6 || i == 7
          || i == 8 || i == 9 || i == 10;
    }
  }

  /** `validate_optuna_pruner` is false exactly when loading raises: it
      holds iff `type` names a known pruner whose constructor accepts the
      whole of `args`. */
  lemma ValidatePrunerIff(args: Args, accepts: Accepts)
    ensures var t := Get(args, "type", PyNone);
            ValidateOptunaPruner(args, accepts) <==> t.PyStr? && t.s in PrunerNames && accepts(t.s, args)
  {
    LoadPrunerTable(Get(args, "type", PyNone), args, accepts);
  }

  /** `validate_optuna_sampler` is false exactly when loading raises. */
  lemma ValidateSamplerIff(args: Args, accepts: Accepts)
    ensures var t := Get(args, "type", PyNone);
            ValidateOptunaSampler(args, accepts) <==> t.PyStr? && t.s in SamplerNames && accepts(t.s, args)
  {
    LoadSamplerTable(Get(args, "type", PyNone), args, accepts);
  }

  /** No Optuna constructor has a keyword parameter called `type`. */
  ghost predicate RefusesType(accepts: Accepts)
  {
    forall name, kwargs :: "type" in kwargs ==> !accepts(name, kwargs)
  }

  /** As written, the validators accept nothing once Optuna refuses a `type`
      keyword: without `type` the name is `None`, with it the constructor
      raises. */
  lemma ValidateNeverHolds(args: Args, accepts: Accepts)
    requires RefusesType(accepts)
    ensures !ValidateOptunaPruner(args, accepts)
    ensures !ValidateOptunaSampler(args, accepts)
  {
    ValidatePrunerIff(args, accepts);
    ValidateSamplerIff(args, accepts);
  }

  /** The pruner check as intended holds iff `type` names a known pruner and
      Optuna accepts the other entries. */
  lemma ValidatePrunerSettingIff(args: Args, accepts: Accepts)
    ensures var t := Get(args, "type", PyNone);
            ValidatePrunerSetting(args, accepts) <==>
              t.PyStr? && t.s in PrunerNames && accepts(t.s, args - {"type"})
  {
    LoadPrunerTable(Get(args, "type", PyNone), args - {"type"}, accepts);
  }

  /** The sampler check as intended holds iff `type` names a known sampler
      and Optuna accepts the other entries. */
  lemma ValidateSamplerSettingIff(args: Args, accepts: Accepts)
    ensures var t := Get(args, "type", PyNone);
            ValidateSamplerSetting(args, accepts) <==>
              t.PyStr? && t.s in SamplerNames && accepts(t.s, args - {"type"})
  {
    LoadSamplerTable(Get(args, "type", PyNone), args - {"type"}, accepts);
  }

  /** The intended check does accept a valid setting even when Optuna
      refuses a `type` keyword: `{"type": "MedianPruner"}` with a
      constructor that takes no arguments. */
  lemma ValidatePrunerSettingExample()
    ensures var accepts: Accepts := (name: string, kwargs: Args) => kwargs == map[];
            RefusesType(accepts) &&
            ValidatePrunerSetting(map["type" := PyStr("MedianPruner")], accepts) &&
            !ValidateOptunaPruner(map["type" := PyStr("MedianPruner")], accepts)
  {
    var accepts: Accepts := (name: string, kwargs: Args) => kwargs == map[];
    var args := map["type" := PyStr("MedianPruner")];
    assert args - {"type"} == map[];
    ValidatePrunerSettingIff(args, accepts);
    ValidatePrunerIff(args, accepts);
    assert PrunerNames[2] == "MedianPruner";
  }
}
