/**
 * The check as the test tool runs it against a message storage: select the
 * candidate manipulations with two passes over the stored manipulations,
 * query each candidate's window in time order, walk that result up to the
 * first report carrying the handle, and stop at the first candidate that
 * does not pass. Every method is proved to compute the corresponding
 * function of the correlation model.
 */
module Checker {
  import Biceps
  import opened Wrappers
  import opened Manipulations
  import opened Messages
  import opened Query
  import opened Correlation
  import opened Storage

  /** Walks s from the front to the first entry that carries a state for h. */
  method FindFirstCarrying(s: seq<Entry>, h: string) returns (r: Option<nat>)
    ensures r == FirstCarrying(s, h)
  {
    var k := 0;
    while k < |s| && !Carries(s[k], h)
      invariant 0 <= k <= |s|
      invariant forall j :: 0 <= j < k ==> !Carries(s[j], h)
    {
      k := k + 1;
    }
    r := if k < |s| then Some(k) else None;
  }

  /** Judges one candidate manipulation on the messages in store. */
  method JudgeCandidate(store: MessageStorage, m: Manipulation, req: Requirement, slack: nat) returns (o: Outcome)
    ensures o == Judge(m, store.messages, req, slack)
  {
    var handle := HandleOf(m);
    if handle.None? {
      return Fail(NoHandleParameter, None);
    }
    var h := handle.value;
    var reports := TimeOrderedReports(store.messages, m.start, WindowEnd(m, slack));
    if |reports| == 0 {
      var missing := NoReportInTimeInterval(m.name, m.start, m.finish);
      return Fail(missing, Some(missing));
    }
    var k := FindFirstCarrying(reports, h);
    if k.None? {
      return Fail(NoReportWithExpectedHandle(h), None);
    }
    var actual := reports[k.value].msg.states[h];
    if actual == req.Activation() {
      o := Pass;
    } else {
      o := Fail(WrongActivationState(h, req.Activation(), actual), None);
    }
  }

  /** One pass over ms keeping the successful setMetricStatus manipulations. */
  method SelectSuccessful(ms: seq<Manipulation>) returns (successful: seq<Manipulation>)
    ensures successful == Successful(ms)
  {
    successful := [];
    var i := 0;
    while i < |ms|
      invariant 0 <= i <= |ms|
      invariant successful == Successful(ms[..i])
    {
      assert ms[..i + 1][..i] == ms[..i];
      if IsSuccessfulManipulation(ms[i]) {
        successful := successful + [ms[i]];
      }
      i := i + 1;
    }
    assert ms[..i] == ms;
  }

  /** One pass over ms keeping the manipulations whose metric-category parameter is category. */
  method SelectCategory(ms: seq<Manipulation>, category: string) returns (selected: seq<Manipulation>)
    ensures selected == OfCategory(ms, category)
  {
    selected := [];
    var i := 0;
    while i < |ms|
      invariant 0 <= i <= |ms|
      invariant selected == OfCategory(ms[..i], category)
    {
      assert ms[..i + 1][..i] == ms[..i];
      if HasParameter(ms[i].parameters, MetricCategoryParam, category) {
        selected := selected + [ms[i]];
      }
      i := i + 1;
    }
    assert ms[..i] == ms;
  }

  /** Judges the candidates in order and stops at the first one that does not pass. */
  method JudgeAll(store: MessageStorage, candidates: seq<Manipulation>, req: Requirement, slack: nat) returns (o: Outcome)
    ensures o == FirstFailure(candidates, store.messages, req, slack)
  {
    o := Pass;
    var k := 0;
    while k < |candidates| && o.Pass?
      invariant 0 <= k <= |candidates|
      invariant o.Pass? ==> FirstFailure(candidates[k..], store.messages, req, slack) == FirstFailure(candidates, store.messages, req, slack)
      invariant !o.Pass? ==> o == FirstFailure(candidates, store.messages, req, slack)
    {
      o := JudgeCandidate(store, candidates[k], req, slack);
      assert candidates[k..][1..] == candidates[k + 1..];
      k := k + 1;
    }
  }

  /** Runs the check of requirement req on the contents of store. */
  method Run(store: MessageStorage, req: Requirement, slack: nat) returns (o: Outcome)
    ensures o == Evaluate(store.manipulations, store.messages, req, slack)
  {
    var successful := SelectSuccessful(store.manipulations);
    if successful == [] {
      return NoTestData(NoSuccessfulManipulation);
    }
    var candidates := SelectCategory(successful, Biceps.CategoryValue(req.Category()));
    if candidates == [] {
      return NoTestData(NoSetMetricStatusManipulation(req.Category()));
    }
    o := JudgeAll(store, candidates, req, slack);
  }
}
