/**
 * The manipulation-to-report correlation check behind the BICEPS participant
 * model invariants 5.4.7.0.0, 5.4.7.2, 5.4.7.4, 5.4.7.6.0, 5.4.7.8 and
 * 5.4.7.10: after a successful setMetricStatus manipulation, the first
 * episodic metric report in its time window that carries the manipulated
 * metric must show the requested activation state.
 */
module Correlation {
  import Biceps
  import opened Wrappers
  import opened Manipulations
  import opened Messages
  import opened Query

  /** The six checks; each fixes a metric category and the activation it expects. */
  datatype Requirement = R54700 | R5472 | R5474 | R54760 | R5478 | R54710 {
    function Category(): Biceps.MetricCategory {
      match this
      case R54700 | R5472 | R5474 => Biceps.Msrmt
      case R54760 | R5478 | R54710 => Biceps.Set
    }

    function Activation(): Biceps.ComponentActivation {
      match this
      case R54700 | R54760 => Biceps.On
      case R5472 | R5478 => Biceps.StndBy
      case R5474 | R54710 => Biceps.Off
    }
  }

  /** Why a check did not pass, with the values its message is formatted with. */
  datatype Reason =
    | NoSuccessfulManipulation
    | NoSetMetricStatusManipulation(category: Biceps.MetricCategory)
    | NoReportInTimeInterval(manipulation: string, start: int, finish: int)
    | NoReportWithExpectedHandle(handle: string)
    | WrongActivationState(handle: string, expected: Biceps.ComponentActivation, actual: Biceps.ComponentActivation)
    | NoHandleParameter

  /**
   * The verdict. NoTestData: nothing could be tested. Fail: an assertion
   * failure; cause is the reason of the NoTestData it wraps, if any.
   */
  datatype Outcome = Pass | NoTestData(reason: Reason) | Fail(reason: Reason, cause: Option<Reason>)

  /**
   * A successful setMetricStatus manipulation. The activation it requested
   * does not take part in the selection: every requirement's check judges it.
   */
  predicate IsSuccessfulManipulation(m: Manipulation) {
    m.name == SetMetricStatus && m.result == ResultSuccess
  }

  /** A manipulation that the requirement's check judges. */
  predicate IsCandidate(m: Manipulation, req: Requirement) {
    IsSuccessfulManipulation(m) &&
    HasParameter(m.parameters, MetricCategoryParam, Biceps.CategoryValue(req.Category()))
  }

  /** The successful setMetricStatus manipulations of ms, in insertion order. */
  function Successful(ms: seq<Manipulation>): (r: seq<Manipulation>)
    ensures forall m :: m in r <==> m in ms && IsSuccessfulManipulation(m)
    decreases |ms|
  {
    if ms == [] then []
    else
      var n := |ms| - 1;
      assert forall m :: m in ms <==> m in ms[..n] || m == ms[n] by {
        assert ms == ms[..n] + [ms[n]];
      }
      Successful(ms[..n]) + (if IsSuccessfulManipulation(ms[n]) then [ms[n]] else [])
  }

  /** The manipulations of ms whose metric-category parameter is category, in insertion order. */
  function OfCategory(ms: seq<Manipulation>, category: string): (r: seq<Manipulation>)
    ensures forall m :: m in r <==> m in ms && HasParameter(m.parameters, MetricCategoryParam, category)
    decreases |ms|
  {
    if ms == [] then []
    else
      var n := |ms| - 1;
      assert forall m :: m in ms <==> m in ms[..n] || m == ms[n] by {
        assert ms == ms[..n] + [ms[n]];
      }
      OfCategory(ms[..n], category) + (if HasParameter(ms[n].parameters, MetricCategoryParam, category) then [ms[n]] else [])
  }

  /** The manipulated metric's handle. */
  function HandleOf(m: Manipulation): Option<string> {
    ParameterValue(m.parameters, HandleParam)
  }

  /** The end of m's report window: the manipulation's finish plus the configured slack. */
  function WindowEnd(m: Manipulation, slack: nat): int {
    m.finish + slack
  }

  /**
   * The verdict on one candidate manipulation m, judged on the reports in its
   * window [m.start, WindowEnd(m, slack)].
   */
  function Judge(m: Manipulation, msgs: seq<Message>, req: Requirement, slack: nat): (o: Outcome)
    ensures !o.NoTestData?
    ensures o.Fail? && o.cause.Some? ==>
      o.cause.value == o.reason == NoReportInTimeInterval(m.name, m.start, m.finish)
  {
    match HandleOf(m)
    case None => Fail(NoHandleParameter, None)
    case Some(h) =>
      var lo, hi := m.start, WindowEnd(m, slack);
      if |TimeOrderedReports(msgs, lo, hi)| == 0 then
        var missing := NoReportInTimeInterval(m.name, m.start, m.finish);
        Fail(missing, Some(missing))
      else
        match FirstReportWithHandle(msgs, lo, hi, h)
        case None => Fail(NoReportWithExpectedHandle(h), None)
        case Some(e) => Verdict(e.msg, h, req.Activation())
  }

  /** A candidate's failure carries a NoTestData cause exactly when its window holds no report. */
  lemma JudgeCauseExactlyWhenNoReport(m: Manipulation, msgs: seq<Message>, req: Requirement, slack: nat)
    ensures var o := Judge(m, msgs, req, slack);
      o.Fail? && o.cause.Some? <==> o.Fail? && o.reason.NoReportInTimeInterval?
  {
  }

  /** Compares the activation state that report x shows for handle h with the expected one. */
  function Verdict(x: Message, h: string, expected: Biceps.ComponentActivation): (o: Outcome)
    requires h in x.states
    ensures o.Pass? <==> x.states[h] == expected
    ensures !o.Pass? ==> o == Fail(WrongActivationState(h, expected, x.states[h]), None)
  {
    if x.states[h] == expected then Pass
    else Fail(WrongActivationState(h, expected, x.states[h]), None)
  }

  /** Judges the candidates in order and stops at the first that does not pass. */
  function FirstFailure(cands: seq<Manipulation>, msgs: seq<Message>, req: Requirement, slack: nat): (o: Outcome)
    ensures o.Pass? <==> forall m :: m in cands ==> Judge(m, msgs, req, slack).Pass?
    ensures !o.Pass? ==> exists m :: m in cands && Judge(m, msgs, req, slack) == o
    decreases |cands|
  {
    if cands == [] then Pass
    else
      var o := Judge(cands[0], msgs, req, slack);
      assert forall m :: m in cands <==> m == cands[0] || m in cands[1..] by {
        assert cands == [cands[0]] + cands[1..];
      }
      if o.Pass? then FirstFailure(cands[1..], msgs, req, slack) else o
  }

  /** Every one of the first k candidates passes. */
  predicate PassBefore(cands: seq<Manipulation>, k: nat, msgs: seq<Message>, req: Requirement, slack: nat)
    requires k <= |cands|
  {
    forall j :: 0 <= j < k ==> Judge(cands[j], msgs, req, slack).Pass?
  }

  /**
   * When the first k candidates pass and candidate k does not, the verdict
   * is the one on candidate k: the candidates are judged in order.
   */
  lemma {:induction false} FirstFailureAt(cands: seq<Manipulation>, k: nat, msgs: seq<Message>, req: Requirement, slack: nat)
    requires k < |cands| && PassBefore(cands, k, msgs, req, slack)
    requires !Judge(cands[k], msgs, req, slack).Pass?
    ensures FirstFailure(cands, msgs, req, slack) == Judge(cands[k], msgs, req, slack)
    decreases k
  {
    if k > 0 {
      assert Judge(cands[0], msgs, req, slack).Pass?;
      var rest := cands[1..];
      assert rest[k - 1] == cands[k];
      PassBeforeTail(cands, k, msgs, req, slack);
      FirstFailureAt(rest, k - 1, msgs, req, slack);
    }
  }

  /** Dropping the first candidate keeps the remaining prefix passing. */
  lemma PassBeforeTail(cands: seq<Manipulation>, k: nat, msgs: seq<Message>, req: Requirement, slack: nat)
    requires 0 < k <= |cands| && PassBefore(cands, k, msgs, req, slack)
    ensures PassBefore(cands[1..], k - 1, msgs, req, slack)
  {
    forall j | 0 <= j < k - 1 ensures Judge(cands[1..][j], msgs, req, slack).Pass? {
      assert cands[1..][j] == cands[j + 1];
    }
  }

  /**
   * The check of requirement req against the stored manipulations and
   * messages.
   */
  function Evaluate(manips: seq<Manipulation>, msgs: seq<Message>, req: Requirement, slack: nat): (o: Outcome)
    ensures o == NoTestData(NoSuccessfulManipulation) <==>
      forall m :: m in manips ==> !IsSuccessfulManipulation(m)
    ensures o == NoTestData(NoSetMetricStatusManipulation(req.Category())) <==>
      (exists m :: m in manips && IsSuccessfulManipulation(m)) &&
      (forall m :: m in manips ==> !IsCandidate(m, req))
    ensures o.NoTestData? <==> forall m :: m in manips ==> !IsCandidate(m, req)
    ensures o.Pass? <==>
      (exists m :: m in manips && IsCandidate(m, req)) &&
      (forall m :: m in manips && IsCandidate(m, req) ==> Judge(m, msgs, req, slack).Pass?)
    ensures o.Fail? ==> exists m :: m in manips && IsCandidate(m, req) && Judge(m, msgs, req, slack) == o
  {
    var successful := Successful(manips);
    if successful == [] then
      assert forall m :: m in manips ==> !IsSuccessfulManipulation(m) by {
        forall m | m in manips ensures !IsSuccessfulManipulation(m) {
          assert IsSuccessfulManipulation(m) ==> m in successful;
        }
      }
      NoTestData(NoSuccessfulManipulation)
    else
      var category := Biceps.CategoryValue(req.Category());
      var candidates := OfCategory(successful, category);
      assert forall m :: m in candidates <==> m in manips && IsCandidate(m, req);
      assert successful[0] in manips && IsSuccessfulManipulation(successful[0]);
      if candidates == [] then
        assert forall m :: m in manips ==> !IsCandidate(m, req) by {
          forall m | m in manips ensures !IsCandidate(m, req) {
            assert IsCandidate(m, req) ==> m in candidates;
          }
        }
        NoTestData(NoSetMetricStatusManipulation(req.Category()))
      else
        assert candidates[0] in candidates;
        FirstFailure(candidates, msgs, req, slack)
  }

  /** With no episodic metric report in the window, m fails with a NoTestData cause. */
  lemma JudgeWithoutReports(m: Manipulation, msgs: seq<Message>, req: Requirement, slack: nat)
    requires HandleOf(m).Some?
    requires !AnyReportIn(msgs, m.start, WindowEnd(m, slack))
    ensures Judge(m, msgs, req, slack) ==
      Fail(NoReportInTimeInterval(m.name, m.start, m.finish), Some(NoReportInTimeInterval(m.name, m.start, m.finish)))
  {
  }

  /** With reports in the window but none carrying the manipulated handle h, m fails plainly. */
  lemma JudgeWithoutHandle(m: Manipulation, msgs: seq<Message>, req: Requirement, slack: nat, h: string)
    requires HandleOf(m) == Some(h)
    requires AnyReportIn(msgs, m.start, WindowEnd(m, slack))
    requires !CarriedIn(msgs, m.start, WindowEnd(m, slack), h)
    ensures Judge(m, msgs, req, slack) == Fail(NoReportWithExpectedHandle(h), None)
  {
  }

  /**
   * The earliest report carrying h decides: m passes exactly when that report
   * shows the requirement's activation, and otherwise fails naming both states.
   */
  lemma JudgeFirstReport(m: Manipulation, msgs: seq<Message>, req: Requirement, slack: nat, h: string, e: Entry)
    requires HandleOf(m) == Some(h)
    requires IsEarliestWithHandle(e, msgs, m.start, WindowEnd(m, slack), h)
    ensures Judge(m, msgs, req, slack) == Verdict(e.msg, h, req.Activation())
  {
    EarliestIsFirst(msgs, m.start, WindowEnd(m, slack), h, e);
    JudgeOfFirst(m, msgs, req, slack, h, e);
  }

  /** Unfolds Judge once the query has found the report e for handle h. */
  lemma JudgeOfFirst(m: Manipulation, msgs: seq<Message>, req: Requirement, slack: nat, h: string, e: Entry)
    requires HandleOf(m) == Some(h)
    requires AnyReportIn(msgs, m.start, WindowEnd(m, slack))
    requires FirstReportWithHandle(msgs, m.start, WindowEnd(m, slack), h) == Some(e)
    requires h in e.msg.states
    ensures Judge(m, msgs, req, slack) == Verdict(e.msg, h, req.Activation())
  {
  }

  /**
   * Reports stored after the earliest report carrying h, at the same or a
   * later time stamp, do not change the verdict on m.
   */
  lemma LaterReportsDoNotMatter(
    m: Manipulation, msgs: seq<Message>, later: seq<Message>, req: Requirement, slack: nat, h: string, e: Entry)
    requires HandleOf(m) == Some(h)
    requires IsEarliestWithHandle(e, msgs, m.start, WindowEnd(m, slack), h)
    requires forall x :: x in later ==> e.msg.timestamp <= x.timestamp
    ensures Judge(m, msgs + later, req, slack) == Judge(m, msgs, req, slack)
  {
    var lo, hi, all := m.start, WindowEnd(m, slack), msgs + later;
    forall x | InWindow(x, all, lo, hi) && Carries(x, h) ensures !Precedes(x, e) {
      if x.seqNo < |msgs| {
        assert InWindow(x, msgs, lo, hi);
      } else {
        assert all[x.seqNo] in later;
      }
    }
    assert IsEarliestWithHandle(e, all, lo, hi, h);
    JudgeFirstReport(m, msgs, req, slack, h, e);
    JudgeFirstReport(m, all, req, slack, h, e);
  }

  /**
   * Messages that are not reports in m's window carrying h (other handles,
   * other message kinds, other times) do not change the verdict on m once its
   * window holds some report.
   */
  lemma UnrelatedMessagesDoNotMatter(
    m: Manipulation, msgs: seq<Message>, extra: seq<Message>, req: Requirement, slack: nat, h: string)
    requires HandleOf(m) == Some(h)
    requires AnyReportIn(msgs, m.start, WindowEnd(m, slack))
    requires forall x :: x in extra ==> !IsReportIn(x, m.start, WindowEnd(m, slack)) || h !in x.states
    ensures Judge(m, msgs + extra, req, slack) == Judge(m, msgs, req, slack)
  {
    AppendUnrelated(msgs, extra, m.start, WindowEnd(m, slack), h);
    JudgeDependsOnQuery(m, msgs, msgs + extra, req, slack, h);
  }

  /**
   * Judge sees the messages only through the query: two stores that agree on
   * whether the window holds a report and on the first report carrying h
   * get the same verdict.
   */
  lemma JudgeDependsOnQuery(m: Manipulation, msgs1: seq<Message>, msgs2: seq<Message>, req: Requirement, slack: nat, h: string)
    requires HandleOf(m) == Some(h)
    requires AnyReportIn(msgs1, m.start, WindowEnd(m, slack)) == AnyReportIn(msgs2, m.start, WindowEnd(m, slack))
    requires FirstReportWithHandle(msgs1, m.start, WindowEnd(m, slack), h) == FirstReportWithHandle(msgs2, m.start, WindowEnd(m, slack), h)
    ensures Judge(m, msgs1, req, slack) == Judge(m, msgs2, req, slack)
  {
  }

  /**
   * Storing the same manipulations in another order does not turn a pass into
   * a failure or change a NoTestData verdict.
   */
  lemma OutcomeIgnoresManipulationOrder(
    manips1: seq<Manipulation>, manips2: seq<Manipulation>, msgs: seq<Message>, req: Requirement, slack: nat)
    requires forall m :: m in manips1 <==> m in manips2
    ensures Evaluate(manips1, msgs, req, slack).Pass? <==> Evaluate(manips2, msgs, req, slack).Pass?
    ensures Evaluate(manips1, msgs, req, slack).Fail? <==> Evaluate(manips2, msgs, req, slack).Fail?
    ensures Evaluate(manips1, msgs, req, slack).NoTestData? ==>
      Evaluate(manips1, msgs, req, slack) == Evaluate(manips2, msgs, req, slack)
  {
    var o1, o2 := Evaluate(manips1, msgs, req, slack), Evaluate(manips2, msgs, req, slack);
    if o1.NoTestData? {
      if o1.reason == NoSuccessfulManipulation {
        assert o2 == NoTestData(NoSuccessfulManipulation);
      } else {
        assert o2.NoTestData?;
        assert o2 != NoTestData(NoSuccessfulManipulation);
      }
    }
  }

  /** With a single stored manipulation that is a candidate, the check's verdict is the verdict on it. */
  lemma EvaluateSingle(m: Manipulation, msgs: seq<Message>, req: Requirement, slack: nat)
    requires IsCandidate(m, req)
    ensures Evaluate([m], msgs, req, slack) == Judge(m, msgs, req, slack)
  {
    assert m in [m];
  }

  /** When every stored manipulation is a candidate that passes, the check passes. */
  lemma AllCandidatesPass(manips: seq<Manipulation>, msgs: seq<Message>, req: Requirement, slack: nat)
    requires manips != []
    requires forall m :: m in manips ==> IsCandidate(m, req) && Judge(m, msgs, req, slack).Pass?
    ensures Evaluate(manips, msgs, req, slack) == Pass
  {
    assert manips[0] in manips;
  }

  /** Two candidates that both pass make the check pass. */
  lemma EvaluatePairPasses(m1: Manipulation, m2: Manipulation, msgs: seq<Message>, req: Requirement, slack: nat)
    requires IsCandidate(m1, req) && IsCandidate(m2, req)
    requires Judge(m1, msgs, req, slack).Pass? && Judge(m2, msgs, req, slack).Pass?
    ensures Evaluate([m1, m2], msgs, req, slack) == Pass
  {
    var ms := [m1, m2];
    forall m | m in ms ensures IsCandidate(m, req) && Judge(m, msgs, req, slack).Pass? {
      if m != m1 {
        assert m == m2;
      }
    }
    AllCandidatesPass(ms, msgs, req, slack);
  }
}
