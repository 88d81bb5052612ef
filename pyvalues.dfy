/** The Python values that a sweep configuration carries, as far as the
    Optuna scheduler in wandb/sdk/launch/sweeps/scheduler_optuna.py looks at
    them: exact runtime type, truthiness, `dict.get` with a default and the
    substring test `"log" in name`. */
module PyValues {
  /** A configuration value. `PyBool` is a type of its own, so that
      `type(v) == int` is false for `True`, as in Python. Floats are reals:
      rounding, NaN and infinities are not modelled. */
  datatype PyValue =
    | PyNone
    | PyBool(b: bool)
    | PyInt(i: int)
    | PyFloat(f: real)
    | PyStr(s: string)
    | PyList(items: seq<PyValue>)

  /** A configuration dictionary with string keys. */
  type Args = map<string, PyValue>

  /** `bool(v)`. */
  predicate Truthy(v: PyValue)
  {
    match v
    case PyNone => false
    case PyBool(b) => b
    case PyInt(i) => i != 0
    case PyFloat(f) => f != 0.0
    case PyStr(s) => s != ""
    case PyList(items) => items != []
  }

  /** `args.get(key, default)`. */
  function Get(args: Args, key: string, default: PyValue): (v: PyValue)
    ensures key in args ==> v == args[key]
    ensures key !in args ==> v == default
  {
    if key in args then args[key] else default
  }

  /** `sub in s` for strings. */
  predicate HasInfix(s: string, sub: string)
    decreases |s|
  {
    |sub| <= |s| && (s[..|sub|] == sub || HasInfix(s[1..], sub))
  }

  /** `sub` occurs in `s` at offset `i`. */
  predicate OccursAt(s: string, sub: string, i: int)
  {
    0 <= i <= |s| - |sub| && s[i..i + |sub|] == sub
  }

  /** `sub in s` holds exactly when `sub` occurs at some offset of `s`. */
  lemma {:induction false} HasInfixAt(s: string, sub: string)
    ensures HasInfix(s, sub) <==> exists i :: OccursAt(s, sub, i)
    decreases |s|
  {
    if |sub| <= |s| && s[..|sub|] != sub {
      HasInfixAt(s[1..], sub);
      if HasInfix(s[1..], sub) {
        var i :| OccursAt(s[1..], sub, i);
        assert OccursAt(s, sub, i + 1);
      }
      if exists i :: OccursAt(s, sub, i) {
        var i :| OccursAt(s, sub, i);
        assert i != 0;
        assert OccursAt(s[1..], sub, i - 1);
      }
    } else if |sub| <= |s| {
      assert OccursAt(s, sub, 0);
    }
  }
}
