/**
 * The unit-test scenarios of the six checks, each stated once for every
 * requirement: the store is filled step by step as the scenario does, the
 * check is run on it, and the outcome is proved. The initial MDIB the
 * scenarios store first has an unspecified capture time and content, so it
 * is a parameter restricted only to its kind.
 */
module Scenarios {
  import Biceps
  import opened Wrappers
  import opened Manipulations
  import opened Messages
  import opened Query
  import opened Correlation
  import opened Storage
  import opened Checker

  /** Time stamps of the scenarios, in nanoseconds. */
  const Start: int := 1000
  const Start2: int := 1200
  const Finish: int := 2000
  const Finish2: int := 1800
  const InInterval: int := 1500
  const InInterval2: int := 1550
  /** Ten seconds. */
  const NotInInterval: int := 10_000_000_000

  /** The metric a requirement's scenarios manipulate, by the metric category the requirement checks. */
  function MetricHandle(c: Biceps.MetricCategory): string {
    if c == Biceps.Set then "someSetStringMetric" else "someMsrmtStringMetric"
  }

  /** A second metric of the same category. */
  function MetricHandle2(c: Biceps.MetricCategory): string {
    if c == Biceps.Set then "someSetStringMetric2" else "someMsrmtStringMetric2"
  }

  /** The category of the manipulation that the wrong-category scenarios store instead. */
  function OtherCategory(c: Biceps.MetricCategory): Biceps.MetricCategory {
    if c == Biceps.Set then Biceps.Msrmt else Biceps.Set
  }

  /** A setMetricStatus manipulation record with its three parameters in the order the scenarios give them. */
  function SetMetricStatusRecord(
    start: int, finish: int, result: ManipulationResult, handle: string,
    category: Biceps.MetricCategory, activation: Biceps.ComponentActivation): Manipulation
  {
    Manipulation(start, finish, result, SetMetricStatus, [
      Parameter(HandleParam, handle),
      Parameter(MetricCategoryParam, Biceps.CategoryValue(category)),
      Parameter(ComponentActivationParam, Biceps.ActivationValue(activation))])
  }

  /** A successful setMetricStatus manipulation of handle requesting req's activation for a metric of req's category. */
  function Requested(req: Requirement, start: int, finish: int, handle: string): Manipulation {
    SetMetricStatusRecord(start, finish, ResultSuccess, handle, req.Category(), req.Activation())
  }

  /**
   * A record carries its handle, is a successful manipulation exactly when it
   * succeeded, whatever activation it requested, and is judged by req's check
   * exactly when it is also for a metric of req's category.
   */
  lemma RecordFacts(
    start: int, finish: int, result: ManipulationResult, handle: string,
    category: Biceps.MetricCategory, activation: Biceps.ComponentActivation, req: Requirement)
    ensures HandleOf(SetMetricStatusRecord(start, finish, result, handle, category, activation)) == Some(handle)
    ensures IsSuccessfulManipulation(SetMetricStatusRecord(start, finish, result, handle, category, activation)) <==>
      result == ResultSuccess
    ensures IsCandidate(SetMetricStatusRecord(start, finish, result, handle, category, activation), req) <==>
      result == ResultSuccess && category == req.Category()
  {
    Biceps.CategoryValueInjective(category, req.Category());
  }

  /** An episodic metric report carrying one metric state. */
  function Report(timestamp: int, handle: string, activation: Biceps.ComponentActivation): Message {
    Message(timestamp, EpisodicMetricReport, map[handle := activation])
  }

  /** Entry i of msgs, a report carrying h inside [lo, hi], is the earliest such report when nothing before it is one. */
  lemma FirstInWindow(msgs: seq<Message>, i: nat, lo: int, hi: int, h: string)
    requires i < |msgs| && IsReportIn(msgs[i], lo, hi) && h in msgs[i].states
    requires forall j :: 0 <= j < |msgs| && j != i && IsReportIn(msgs[j], lo, hi) && h in msgs[j].states ==>
      msgs[i].timestamp < msgs[j].timestamp
    ensures IsEarliestWithHandle(Entry(i, msgs[i]), msgs, lo, hi, h)
  {
    var e := Entry(i, msgs[i]);
    forall x | InWindow(x, msgs, lo, hi) && Carries(x, h) ensures !Precedes(x, e) {
      assert msgs[x.seqNo] == x.msg;
    }
  }

  /** An empty store: nothing to test. */
  method NoTestDataScenario(req: Requirement, slack: nat) returns (o: Outcome)
    ensures o == NoTestData(NoSuccessfulManipulation)
  {
    var store := new MessageStorage();
    o := Run(store, req, slack);
  }

  /** The only matching manipulation failed, although a fitting report exists. */
  method NoSuccessfulManipulationScenario(req: Requirement, slack: nat, initial: Message) returns (o: Outcome)
    requires initial.kind == GetMdibResponse
    ensures o == NoTestData(NoSuccessfulManipulation)
  {
    var store := new MessageStorage();
    store.AddMessage(initial);
    var h := MetricHandle(req.Category());
    var m := SetMetricStatusRecord(Start, Finish, ResultFail, h, req.Category(), req.Activation());
    store.AddManipulation(m);
    store.AddMessage(Report(InInterval, h, req.Activation()));
    assert store.manipulations == [m];
    o := Run(store, req, slack);
  }

  /** A successful manipulation of another category's metric is no candidate. */
  lemma WrongMetricCategoryOutcome(req: Requirement, slack: nat, msgs: seq<Message>)
    ensures Evaluate([SetMetricStatusRecord(Start, Finish, ResultSuccess, MetricHandle(OtherCategory(req.Category())),
                                            OtherCategory(req.Category()), req.Activation())], msgs, req, slack)
      == NoTestData(NoSetMetricStatusManipulation(req.Category()))
  {
    var other := OtherCategory(req.Category());
    var m := SetMetricStatusRecord(Start, Finish, ResultSuccess, MetricHandle(other), other, req.Activation());
    RecordFacts(Start, Finish, ResultSuccess, MetricHandle(other), other, req.Activation(), req);
    assert m in [m];
  }

  /** The only successful manipulation is for a metric of the other category. */
  method WrongMetricCategoryScenario(req: Requirement, slack: nat, initial: Message) returns (o: Outcome)
    requires initial.kind == GetMdibResponse
    ensures o == NoTestData(NoSetMetricStatusManipulation(req.Category()))
  {
    var store := new MessageStorage();
    store.AddMessage(initial);
    var other := OtherCategory(req.Category());
    var m := SetMetricStatusRecord(Start, Finish, ResultSuccess, MetricHandle(other), other, req.Activation());
    store.AddManipulation(m);
    var r := Report(InInterval, MetricHandle(req.Category()), req.Activation());
    store.AddMessage(r);
    assert store.manipulations == [m] && store.messages == [initial, r];
    o := Run(store, req, slack);
    WrongMetricCategoryOutcome(req, slack, [initial, r]);
  }

  /**
   * With one candidate and one report in its window for the manipulated
   * metric, the verdict is the comparison of that report's state.
   */
  lemma SingleReportOutcome(req: Requirement, slack: nat, initial: Message, shown: Biceps.ComponentActivation)
    requires initial.kind == GetMdibResponse
    ensures MetricHandle(req.Category()) in Report(InInterval, MetricHandle(req.Category()), shown).states
    ensures Evaluate([Requested(req, Start, Finish, MetricHandle(req.Category()))],
                     [initial, Report(InInterval, MetricHandle(req.Category()), shown)], req, slack)
      == Verdict(Report(InInterval, MetricHandle(req.Category()), shown), MetricHandle(req.Category()), req.Activation())
  {
    var h := MetricHandle(req.Category());
    var m := Requested(req, Start, Finish, h);
    var r := Report(InInterval, h, shown);
    var msgs := [initial, r];
    RecordFacts(Start, Finish, ResultSuccess, h, req.Category(), req.Activation(), req);
    FirstInWindow(msgs, 1, m.start, WindowEnd(m, slack), h);
    JudgeFirstReport(m, msgs, req, slack, h, Entry(1, r));
    EvaluateSingle(m, msgs, req, slack);
  }

  /** One manipulation and one report in its window showing the requested activation. */
  method GoodScenario(req: Requirement, slack: nat, initial: Message) returns (o: Outcome)
    requires initial.kind == GetMdibResponse
    ensures o == Pass
  {
    var store := new MessageStorage();
    store.AddMessage(initial);
    var h := MetricHandle(req.Category());
    var m := Requested(req, Start, Finish, h);
    store.AddManipulation(m);
    var r := Report(InInterval, h, req.Activation());
    store.AddMessage(r);
    assert store.messages == [initial, r] && store.manipulations == [m];
    o := Run(store, req, slack);
    SingleReportOutcome(req, slack, initial, req.Activation());
  }

  /** The report in the window shows the metric with an activation other than the requested one. */
  method WrongActivationInFollowingReportScenario(
    req: Requirement, slack: nat, initial: Message, actual: Biceps.ComponentActivation) returns (o: Outcome)
    requires initial.kind == GetMdibResponse
    requires actual != req.Activation()
    ensures o == Fail(WrongActivationState(MetricHandle(req.Category()), req.Activation(), actual), None)
  {
    var store := new MessageStorage();
    store.AddMessage(initial);
    var h := MetricHandle(req.Category());
    var m := Requested(req, Start, Finish, h);
    store.AddManipulation(m);
    var r := Report(InInterval, h, actual);
    store.AddMessage(r);
    assert store.messages == [initial, r] && store.manipulations == [m];
    o := Run(store, req, slack);
    SingleReportOutcome(req, slack, initial, actual);
  }

  /** Both overlapping manipulations pass; see OverlappingTimeIntervalScenario. */
  lemma OverlappingOutcome(req: Requirement, slack: nat, initial: Message, swapHandles: bool, second: int)
    requires initial.kind == GetMdibResponse
    requires Start2 <= second <= Finish2
    ensures
      var h1, h2 := MetricHandle(req.Category()), MetricHandle2(req.Category());
      var ha, hb := if swapHandles then h2 else h1, if swapHandles then h1 else h2;
      Evaluate([Requested(req, Start, Finish, ha), Requested(req, Start2, Finish2, hb)],
               [initial, Report(InInterval, h1, req.Activation()), Report(second, h2, req.Activation())], req, slack)
      == Pass
  {
    var h1, h2 := MetricHandle(req.Category()), MetricHandle2(req.Category());
    var ha, hb := if swapHandles then h2 else h1, if swapHandles then h1 else h2;
    var msgs := [initial, Report(InInterval, h1, req.Activation()), Report(second, h2, req.Activation())];
    var ia, ib := if swapHandles then 2 else 1, if swapHandles then 1 else 2;
    OverlappingReports(req, slack, initial, second, ha, hb, ia, ib);
    OnlyReportPasses(req, slack, msgs, Start, Finish, ha, ia);
    OnlyReportPasses(req, slack, msgs, Start2, Finish2, hb, ib);
    EvaluatePairPasses(Requested(req, Start, Finish, ha), Requested(req, Start2, Finish2, hb), msgs, req, slack);
  }

  /** The preconditions of OnlyReportPasses for both windows of the overlapping scenario. */
  lemma OverlappingReports(
    req: Requirement, slack: nat, initial: Message, second: int, ha: string, hb: string, ia: nat, ib: nat)
    requires initial.kind == GetMdibResponse
    requires Start2 <= second <= Finish2
    requires {ha, hb} == {MetricHandle(req.Category()), MetricHandle2(req.Category())}
    requires ia == (if ha == MetricHandle(req.Category()) then 1 else 2) && ib == 3 - ia
    ensures
      var msgs := [initial, Report(InInterval, MetricHandle(req.Category()), req.Activation()),
                   Report(second, MetricHandle2(req.Category()), req.Activation())];
      ia < 3 && ib < 3 &&
      IsReportIn(msgs[ia], Start, Finish + slack) && ha in msgs[ia].states && msgs[ia].states[ha] == req.Activation() &&
      IsReportIn(msgs[ib], Start2, Finish2 + slack) && hb in msgs[ib].states && msgs[ib].states[hb] == req.Activation() &&
      (forall j :: 0 <= j < 3 && j != ia ==> !IsReportIn(msgs[j], Start, Finish + slack) || ha !in msgs[j].states) &&
      (forall j :: 0 <= j < 3 && j != ib ==> !IsReportIn(msgs[j], Start2, Finish2 + slack) || hb !in msgs[j].states)
  {
    var h1, h2 := MetricHandle(req.Category()), MetricHandle2(req.Category());
    assert h1 != h2;
    assert ha != hb;
  }

  /**
   * A requested manipulation passes when report i of msgs, inside its window,
   * is the only report carrying its handle and shows the requested activation.
   */
  lemma OnlyReportPasses(req: Requirement, slack: nat, msgs: seq<Message>, start: int, finish: int, h: string, i: nat)
    requires i < |msgs| && IsReportIn(msgs[i], start, finish + slack)
    requires h in msgs[i].states && msgs[i].states[h] == req.Activation()
    requires forall j :: 0 <= j < |msgs| && j != i ==> !IsReportIn(msgs[j], start, finish + slack) || h !in msgs[j].states
    ensures IsCandidate(Requested(req, start, finish, h), req)
    ensures Judge(Requested(req, start, finish, h), msgs, req, slack) == Pass
  {
    var m := Requested(req, start, finish, h);
    RecordFacts(start, finish, ResultSuccess, h, req.Category(), req.Activation(), req);
    FirstInWindow(msgs, i, m.start, WindowEnd(m, slack), h);
    JudgeFirstReport(m, msgs, req, slack, h, Entry(i, msgs[i]));
  }

  /**
   * Two manipulations with overlapping windows, [Start, Finish] and
   * [Start2, Finish2], each for its own metric; swapHandles gives the first
   * window the second metric. The reports for the two metrics are captured at
   * InInterval and at second, which may be the same time stamp.
   */
  method OverlappingTimeIntervalScenario(
    req: Requirement, slack: nat, initial: Message, swapHandles: bool, second: int) returns (o: Outcome)
    requires initial.kind == GetMdibResponse
    requires Start2 <= second <= Finish2
    ensures o == Pass
  {
    var store := new MessageStorage();
    store.AddMessage(initial);
    var h1, h2 := MetricHandle(req.Category()), MetricHandle2(req.Category());
    var ha, hb := if swapHandles then h2 else h1, if swapHandles then h1 else h2;
    var ma, mb := Requested(req, Start, Finish, ha), Requested(req, Start2, Finish2, hb);
    store.AddManipulation(ma);
    store.AddManipulation(mb);
    var r1, r2 := Report(InInterval, h1, req.Activation()), Report(second, h2, req.Activation());
    store.AddMessage(r1);
    store.AddMessage(r2);
    assert store.messages == [initial, r1, r2] && store.manipulations == [ma, mb];
    o := Run(store, req, slack);
    OverlappingOutcome(req, slack, initial, swapHandles, second);
  }

  /** With the only report outside the window, the candidate fails for lack of reports. */
  lemma NoMetricReportOutcome(req: Requirement, slack: nat, initial: Message)
    requires initial.kind == GetMdibResponse
    requires Finish + slack < NotInInterval
    ensures Evaluate([Requested(req, Start, Finish, MetricHandle(req.Category()))],
                     [initial, Report(NotInInterval, MetricHandle(req.Category()), req.Activation())], req, slack)
      == Fail(NoReportInTimeInterval(SetMetricStatus, Start, Finish), Some(NoReportInTimeInterval(SetMetricStatus, Start, Finish)))
  {
    var h := MetricHandle(req.Category());
    var m := Requested(req, Start, Finish, h);
    var msgs := [initial, Report(NotInInterval, h, req.Activation())];
    RecordFacts(Start, Finish, ResultSuccess, h, req.Category(), req.Activation(), req);
    assert !AnyReportIn(msgs, m.start, WindowEnd(m, slack));
    JudgeWithoutReports(m, msgs, req, slack);
    EvaluateSingle(m, msgs, req, slack);
  }

  /**
   * The only report is captured ten seconds in, outside the window as long as
   * the slack keeps the window's end before it.
   */
  method NoMetricReportFollowingManipulationScenario(req: Requirement, slack: nat, initial: Message) returns (o: Outcome)
    requires initial.kind == GetMdibResponse
    requires Finish + slack < NotInInterval
    ensures o == Fail(NoReportInTimeInterval(SetMetricStatus, Start, Finish),
                      Some(NoReportInTimeInterval(SetMetricStatus, Start, Finish)))
  {
    var store := new MessageStorage();
    store.AddMessage(initial);
    var h := MetricHandle(req.Category());
    var m := Requested(req, Start, Finish, h);
    store.AddManipulation(m);
    var r := Report(NotInInterval, h, req.Activation());
    store.AddMessage(r);
    assert store.messages == [initial, r] && store.manipulations == [m];
    o := Run(store, req, slack);
    NoMetricReportOutcome(req, slack, initial);
  }

  /** With the only report in the window carrying another metric, the candidate fails for the missing handle. */
  lemma NoReportsWithExpectedHandleOutcome(req: Requirement, slack: nat, initial: Message)
    requires initial.kind == GetMdibResponse
    ensures Evaluate([Requested(req, Start, Finish, MetricHandle(req.Category()))],
                     [initial, Report(InInterval, MetricHandle2(req.Category()), req.Activation())], req, slack)
      == Fail(NoReportWithExpectedHandle(MetricHandle(req.Category())), None)
  {
    var h := MetricHandle(req.Category());
    var m := Requested(req, Start, Finish, h);
    var msgs := [initial, Report(InInterval, MetricHandle2(req.Category()), req.Activation())];
    RecordFacts(Start, Finish, ResultSuccess, h, req.Category(), req.Activation(), req);
    assert IsReportIn(msgs[1], m.start, WindowEnd(m, slack));
    assert !CarriedIn(msgs, m.start, WindowEnd(m, slack), h);
    JudgeWithoutHandle(m, msgs, req, slack, h);
    EvaluateSingle(m, msgs, req, slack);
  }

  /** The only report in the window carries another metric. */
  method NoReportsWithExpectedHandleScenario(req: Requirement, slack: nat, initial: Message) returns (o: Outcome)
    requires initial.kind == GetMdibResponse
    ensures o == Fail(NoReportWithExpectedHandle(MetricHandle(req.Category())), None)
  {
    var store := new MessageStorage();
    store.AddMessage(initial);
    var h := MetricHandle(req.Category());
    var m := Requested(req, Start, Finish, h);
    store.AddManipulation(m);
    var r := Report(InInterval, MetricHandle2(req.Category()), req.Activation());
    store.AddMessage(r);
    assert store.messages == [initial, r] && store.manipulations == [m];
    o := Run(store, req, slack);
    NoReportsWithExpectedHandleOutcome(req, slack, initial);
  }

  /**
   * A successful manipulation of a metric of req's category is judged whatever
   * activation it requested: with two in-window reports for the other metric
   * only, it fails for the missing handle.
   */
  lemma AnyRequestedActivationOutcome(
    req: Requirement, slack: nat, initial: Message, requested: Biceps.ComponentActivation, shown: Biceps.ComponentActivation)
    requires initial.kind == GetMdibResponse
    ensures Evaluate([SetMetricStatusRecord(Start, Finish, ResultSuccess, MetricHandle(req.Category()), req.Category(), requested)],
                     [initial, Report(InInterval, MetricHandle2(req.Category()), shown),
                      Report(InInterval, MetricHandle2(req.Category()), shown)], req, slack)
      == Fail(NoReportWithExpectedHandle(MetricHandle(req.Category())), None)
  {
    var h := MetricHandle(req.Category());
    var m := SetMetricStatusRecord(Start, Finish, ResultSuccess, h, req.Category(), requested);
    var r := Report(InInterval, MetricHandle2(req.Category()), shown);
    var msgs := [initial, r, r];
    RecordFacts(Start, Finish, ResultSuccess, h, req.Category(), requested, req);
    assert IsReportIn(msgs[1], m.start, WindowEnd(m, slack));
    assert !CarriedIn(msgs, m.start, WindowEnd(m, slack), h);
    JudgeWithoutHandle(m, msgs, req, slack, h);
    EvaluateSingle(m, msgs, req, slack);
  }

  /**
   * The manipulation requested an activation that may differ from the one
   * req's check expects (Off under the StndBy check, say), and the window
   * holds two reports for the other metric only.
   */
  method AnyRequestedActivationScenario(
    req: Requirement, slack: nat, initial: Message, requested: Biceps.ComponentActivation) returns (o: Outcome)
    requires initial.kind == GetMdibResponse
    ensures o == Fail(NoReportWithExpectedHandle(MetricHandle(req.Category())), None)
  {
    var store := new MessageStorage();
    store.AddMessage(initial);
    var h := MetricHandle(req.Category());
    var m := SetMetricStatusRecord(Start, Finish, ResultSuccess, h, req.Category(), requested);
    store.AddManipulation(m);
    var r := Report(InInterval, MetricHandle2(req.Category()), requested);
    store.AddMessage(r);
    store.AddMessage(r);
    assert store.messages == [initial, r, r] && store.manipulations == [m];
    o := Run(store, req, slack);
    AnyRequestedActivationOutcome(req, slack, initial, requested, requested);
  }

  /** With two reports for the manipulated metric in the window, the earlier one decides. */
  lemma EarlierReportOutcome(
    req: Requirement, slack: nat, initial: Message, first: Biceps.ComponentActivation, later: Biceps.ComponentActivation)
    requires initial.kind == GetMdibResponse
    ensures MetricHandle(req.Category()) in Report(InInterval, MetricHandle(req.Category()), first).states
    ensures Evaluate([Requested(req, Start, Finish, MetricHandle(req.Category()))],
                     [initial, Report(InInterval, MetricHandle(req.Category()), first),
                      Report(InInterval2, MetricHandle(req.Category()), later)], req, slack)
      == Verdict(Report(InInterval, MetricHandle(req.Category()), first), MetricHandle(req.Category()), req.Activation())
  {
    var h := MetricHandle(req.Category());
    var m := Requested(req, Start, Finish, h);
    var r1 := Report(InInterval, h, first);
    var msgs := [initial, r1, Report(InInterval2, h, later)];
    RecordFacts(Start, Finish, ResultSuccess, h, req.Category(), req.Activation(), req);
    FirstInWindow(msgs, 1, m.start, WindowEnd(m, slack), h);
    JudgeFirstReport(m, msgs, req, slack, h, Entry(1, r1));
    EvaluateSingle(m, msgs, req, slack);
  }

  /**
   * Two reports in the window for the manipulated metric; only the earlier
   * one is judged. good says whether it shows the requested activation, the
   * later one shows other.
   */
  method MultipleReportsInIntervalScenario(
    req: Requirement, slack: nat, initial: Message, good: bool, other: Biceps.ComponentActivation) returns (o: Outcome)
    requires initial.kind == GetMdibResponse
    requires other != req.Activation()
    ensures good ==> o == Pass
    ensures !good ==> o == Fail(WrongActivationState(MetricHandle(req.Category()), req.Activation(), other), None)
  {
    var store := new MessageStorage();
    store.AddMessage(initial);
    var h := MetricHandle(req.Category());
    var m := Requested(req, Start, Finish, h);
    store.AddManipulation(m);
    var first, later := if good then req.Activation() else other, if good then other else req.Activation();
    var r1, r2 := Report(InInterval, h, first), Report(InInterval2, h, later);
    store.AddMessage(r1);
    store.AddMessage(r2);
    assert store.messages == [initial, r1, r2] && store.manipulations == [m];
    o := Run(store, req, slack);
    EarlierReportOutcome(req, slack, initial, first, later);
  }
}
