/**
 * JavaScript truthiness as far as the transformer relies on it: a property
 * value is either absent (`undefined`, `null`) or a string, and only a
 * present, non-empty string is truthy.
 */
module JsValues {
  import opened Wrappers

  /** `!!v` for a string-or-absent value. */
  predicate Truthy(v: Option<string>) {
    v.Some? && v.value != ""
  }

  /** JavaScript `a || b`: `a` when it is truthy, otherwise `b` as it is. */
  function Or(a: Option<string>, b: Option<string>): Option<string> {
    if Truthy(a) then a else b
  }

  /**
   * Reference definition of a fallback chain: the first truthy candidate,
   * or the fallback when no candidate is truthy.
   */
  function FirstTruthy(candidates: seq<Option<string>>, fallback: string): (r: string)
    ensures (forall i :: 0 <= i < |candidates| ==> !Truthy(candidates[i])) ==> r == fallback
    ensures forall i ::
              (0 <= i < |candidates| && Truthy(candidates[i]) && forall j :: 0 <= j < i ==> !Truthy(candidates[j]))
              ==> r == candidates[i].value
    ensures fallback != "" ==> r != ""
  {
    if candidates == [] then fallback
    else if Truthy(candidates[0]) then candidates[0].value
    else FirstTruthy(candidates[1..], fallback)
  }

  /** `a || b || fallback` picks the first truthy of `a`, `b`, and is never empty for a non-empty fallback. */
  lemma OrChainIsFirstTruthy(a: Option<string>, b: Option<string>, fallback: string)
    requires fallback != ""
    ensures Or(Or(a, b), Some(fallback)).Some?
    ensures Or(Or(a, b), Some(fallback)).value == FirstTruthy([a, b], fallback)
  {
  }
}
