/**
 * `clamp_int`: the bound check applied to the numeric query parameters.
 */
module Clamp {
  import opened Wrappers

  /**
   * `clamp_int(value, minimum, maximum, default)`. An absent value gives the
   * default; otherwise the value is raised to `minimum` and then lowered to
   * `maximum`, so when the bounds cross (`minimum > maximum`) the result is
   * `maximum`.
   */
  method ClampInt(value: Option<int>, minimum: int, maximum: int, default: int) returns (v: int)
    ensures value.None? ==> v == default
    ensures value.Some? && minimum <= maximum ==> minimum <= v <= maximum
    ensures value.Some? && minimum <= value.value <= maximum ==> v == value.value
    ensures value.Some? && value.value < minimum <= maximum ==> v == minimum
    ensures value.Some? && value.value > maximum ==> v == maximum
    ensures value.Some? && minimum > maximum ==> v == maximum
  {
    if value.None? {
      return default;
    }
    v := value.value;
    if v < minimum {
      v := minimum;
    }
    if v > maximum {
      v := maximum;
    }
  }

}
