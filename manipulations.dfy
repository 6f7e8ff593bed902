/**
 * Manipulation records: what the test tool stores after it asked the device
 * under test to change its state.
 */
module Manipulations {
  import opened Wrappers

  /** The result reported for a manipulation. */
  datatype ManipulationResult = ResultSuccess | ResultFail | ResultNotSupported | ResultNotImplemented

  /** The parameter names a setMetricStatus manipulation uses; anything else is OtherParam. */
  datatype ParameterName = HandleParam | MetricCategoryParam | ComponentActivationParam | OtherParam(name: string)

  datatype Parameter = Parameter(name: ParameterName, value: string)

  /**
   * One stored manipulation: its time stamps in nanoseconds, its result, the
   * manipulation's name and its parameters in the order they were given.
   */
  datatype Manipulation = Manipulation(
    start: int,
    finish: int,
    result: ManipulationResult,
    name: string,
    parameters: seq<Parameter>)

  /** Name of the manipulation that sets a metric's activation state. */
  const SetMetricStatus: string := "setMetricStatus"

  /** A parameter filter matches when the pair is among the record's parameters; extra parameters are ignored. */
  predicate HasParameter(ps: seq<Parameter>, n: ParameterName, v: string) {
    Parameter(n, v) in ps
  }

  /** The value of the first parameter called n, if there is one. */
  function ParameterValue(ps: seq<Parameter>, n: ParameterName): (r: Option<string>)
    ensures r.None? <==> forall p :: p in ps ==> p.name != n
    ensures r.Some? ==> exists k :: 0 <= k < |ps| && ps[k] == Parameter(n, r.value) &&
                          forall j :: 0 <= j < k ==> ps[j].name != n
  {
    if ps == [] then None
    else if ps[0].name == n then Some(ps[0].value)
    else
      var r := ParameterValue(ps[1..], n);
      assert forall p :: p in ps ==> p == ps[0] || p in ps[1..];
      if r.Some? then
        var k :| 0 <= k < |ps[1..]| && ps[1..][k] == Parameter(n, r.value) &&
                 forall j :: 0 <= j < k ==> ps[1..][j].name != n;
        assert ps[k + 1] == Parameter(n, r.value);
        r
      else r
  }
}
