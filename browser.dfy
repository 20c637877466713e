/**
 * The page's address as the scripts see it. `URLSearchParams` is taken as
 * already parsed: a map from parameter name to its (first, decoded) value.
 */
module Browser {

  /**
   * `URLSearchParams.get(name)` as the scripts use it, for its truthiness:
   * an absent parameter (`null`) and an empty one (`""`) both read as `""`.
   */
  function Param(params: map<string, string>, name: string): (v: string)
    ensures name in params ==> v == params[name]
    ensures name !in params ==> v == ""
  {
    if name in params then params[name] else ""
  }
}
