/** Flag-versus-environment precedence of the configuration (`internal/utils`). A Go
    pointer to a configuration field is a `Cell`. */
module ConfigUtils {
  class Cell<T> {
    var value: T

    constructor(v: T)
      ensures value == v
    {
      value := v;
    }
  }

  /** An environment variable counts as set only when the map holds `true` for it; an
      absent key reads as `false`. */
  predicate EnvSet(envSet: map<string, bool>, key: string)
  {
    key in envSet && envSet[key]
  }

  /** The configured value after the flag is applied: the environment value stays when its
      variable was set, otherwise the flag value wins. */
  function Resolve<T>(envSet: map<string, bool>, key: string, current: T, flagValue: T): (r: T)
    ensures EnvSet(envSet, key) ==> r == current
    ensures key !in envSet ==> r == flagValue
    ensures key in envSet && !envSet[key] ==> r == flagValue
  {
    if EnvSet(envSet, key) then current else flagValue
  }

  /** `SetIntIfUnset`, `SetStringIfUnset` and `SetBoolIfUnset`, which differ only in the
      field type. */
  method SetIfUnset<T>(envSet: map<string, bool>, envKey: string, cfgValue: Cell<T>, flagValue: T)
    modifies cfgValue
    ensures cfgValue.value == Resolve(envSet, envKey, old(cfgValue.value), flagValue)
  {
    if envKey in envSet && envSet[envKey] {
      return;
    }
    cfgValue.value := flagValue;
  }
}
