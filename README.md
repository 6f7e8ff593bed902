# SDCcc: manipulation-to-report correlation of the BICEPS participant model

This project models the check that SDCcc, the SDC conformance test tool, runs for
six invariants of the BICEPS participant model (IEEE 11073-10207):
5.4.7.0.0, 5.4.7.2 and 5.4.7.4 for metrics of category Msrmt, and 5.4.7.6.0,
5.4.7.8 and 5.4.7.10 for metrics of category Set. Each invariant expects one
activation state: On, StndBy or Off. The test tool stores the manipulations it
performed on the device under test and the messages it captured. For every
successful `setMetricStatus` manipulation, the check looks for the first
episodic metric report carrying the manipulated metric inside the window
[start, finish + slack]. That report must show the requested activation state.

The check's own implementation class is not part of this model. Its behaviour
is taken from the unit tests that pin it down branch by branch, from
`InvariantParticipantModelStatePartTestTest.java`.

- `wrappers.dfy` is `Option`.
- `biceps.dfy` holds the BICEPS enumerations `ComponentActivation` and `MetricCategory` and their XML value strings.
- `manipulations.dfy` holds manipulation records and their parameters.
- `messages.dfy` holds captured messages. Each is reduced to its time stamp, its kind, and a map from handle to activation state.
- `query.dfy` is the message query. It returns the episodic metric reports of a window, sorted by time stamp, with ties kept in insertion order. It also finds the first of them carrying a handle. Its partner is a declarative characterisation: the earliest report carrying the handle.
- `correlation.dfy` is the check as a function, `Evaluate`, with its outcome taxonomy:
  - `NoTestData`: nothing could be tested.
  - `Fail` with a `NoTestData` cause: a candidate had no report in its window.
  - Plain `Fail`: a missing handle or a wrong activation.
  - `Pass`.
- `storage.dfy` is the message storage: a class with two append-only sequences.
- `checker.dfy` is the check as the tool runs it on a storage. It is loops, each proved equal to its function in `correlation.dfy`.
- `scenarios.dfy` holds the unit-test scenarios. Each one builds the storage step by step and runs the check, and the outcome is proved. Every scenario is stated once for all six requirements.

## Model

| member | source | states |
|---|---|---|
| Manipulations.ParameterValue | sdccc/src/test/java/com/draeger/medical/sdccc/tests/biceps/invariant/InvariantParticipantModelStatePartTestTest.java:158-162 | A manipulation's parameter value is absent exactly when no parameter has that name. Otherwise it is the value of the first parameter with that name. |
| Query.ReportsInWindow | sdccc/src/test/java/com/draeger/medical/sdccc/tests/biceps/invariant/InvariantParticipantModelStatePartTestTest.java:275-297 | Yields exactly the stored episodic metric reports captured inside the window, bounds included, each with its storage position. |
| Query.InsertByTime | sdccc/src/test/java/com/draeger/medical/sdccc/tests/biceps/invariant/InvariantParticipantModelStatePartTestTest.java:239-268 | Inserting into a time-ordered sequence keeps it time-ordered. The result is a permutation of the old entries plus the new one. |
| Query.SortByTime | sdccc/src/test/java/com/draeger/medical/sdccc/tests/biceps/invariant/InvariantParticipantModelStatePartTestTest.java:239-268 | The result is ordered by time stamp, with equal time stamps in insertion order, and is a permutation of the input. |
| Query.TimeOrderedReports | sdccc/src/test/java/com/draeger/medical/sdccc/tests/biceps/invariant/InvariantParticipantModelStatePartTestTest.java:239-268 | The query result is time-ordered and holds exactly the reports in the window. It is empty exactly when no report lies in the window. |
| Query.FirstCarrying | sdccc/src/test/java/com/draeger/medical/sdccc/tests/biceps/invariant/InvariantParticipantModelStatePartTestTest.java:304-325 | Finds no position exactly when no entry carries the handle. A position it finds carries the handle, and no earlier entry does. |
| Query.FirstCarryingIsEarliest | sdccc/src/test/java/com/draeger/medical/sdccc/tests/biceps/invariant/InvariantParticipantModelStatePartTestTest.java:362-387 | In a time-ordered sequence, no entry carrying the handle precedes the first one found. |
| Query.FirstReportWithHandle | sdccc/src/test/java/com/draeger/medical/sdccc/tests/biceps/invariant/InvariantParticipantModelStatePartTestTest.java:362-387 | Finds nothing exactly when no report in the window carries the handle. What it finds is the earliest such report by time stamp, then storage order. |
| Query.EarliestIsUnique | sdccc/src/test/java/com/draeger/medical/sdccc/tests/biceps/invariant/InvariantParticipantModelStatePartTestTest.java:395-419 | At most one report is the earliest report in the window carrying the handle. |
| Query.EarliestIsFirst | sdccc/src/test/java/com/draeger/medical/sdccc/tests/biceps/invariant/InvariantParticipantModelStatePartTestTest.java:362-387 | The earliest report carrying the handle is exactly what the query returns, and the window is then not empty. |
| Query.AppendUnrelated | sdccc/src/test/java/com/draeger/medical/sdccc/tests/biceps/invariant/InvariantParticipantModelStatePartTestTest.java:239-268 | Appending messages that are not in-window reports carrying the handle leaves the handle's first report unchanged. The window is non-empty after the append exactly when it was before, or when an appended message is a report in it. |
| Correlation.Successful | sdccc/src/test/java/com/draeger/medical/sdccc/tests/biceps/invariant/InvariantParticipantModelStatePartTestTest.java:153-173 | Keeps exactly the stored manipulations that are named setMetricStatus and succeeded. The activation they requested plays no part in the selection. |
| Correlation.OfCategory | sdccc/src/test/java/com/draeger/medical/sdccc/tests/biceps/invariant/InvariantParticipantModelStatePartTestTest.java:180-203 | Keeps exactly the manipulations whose metric-category parameter is the given category value. |
| Correlation.Judge | sdccc/src/test/java/com/draeger/medical/sdccc/tests/biceps/invariant/InvariantParticipantModelStatePartTestTest.java:212-231 | A candidate is never judged NoTestData. A failure that carries a cause is the no-report-in-interval failure, naming the manipulation's name, start and finish. |
| Correlation.JudgeCauseExactlyWhenNoReport | sdccc/src/test/java/com/draeger/medical/sdccc/tests/biceps/invariant/InvariantParticipantModelStatePartTestTest.java:275-297 | A candidate's failure carries a NoTestData cause exactly when its reason is the no-report-in-interval failure. |
| Correlation.Verdict | sdccc/src/test/java/com/draeger/medical/sdccc/tests/biceps/invariant/InvariantParticipantModelStatePartTestTest.java:333-355 | Passes exactly when the report shows the expected activation. Otherwise it is a plain failure naming the handle, the expected state and the actual state. |
| Correlation.FirstFailure | sdccc/src/test/java/com/draeger/medical/sdccc/tests/biceps/invariant/InvariantParticipantModelStatePartTestTest.java:239-268 | Passes exactly when every candidate passes. Otherwise the result is the verdict on one of the candidates. |
| Correlation.FirstFailureAt | sdccc/src/test/java/com/draeger/medical/sdccc/tests/biceps/invariant/InvariantParticipantModelStatePartTestTest.java:239-268 | When the first k candidates pass and candidate k does not, the outcome is the verdict on candidate k. The candidates are judged in storage order. |
| Correlation.PassBeforeTail | sdccc/src/test/java/com/draeger/medical/sdccc/tests/biceps/invariant/InvariantParticipantModelStatePartTestTest.java:239-268 | Dropping the first candidate leaves the remaining prefix of passing candidates passing. |
| Correlation.Evaluate | sdccc/src/test/java/com/draeger/medical/sdccc/tests/biceps/invariant/InvariantParticipantModelStatePartTestTest.java:143-203 | Each outcome is characterised both ways. NO_SUCCESSFUL_MANIPULATION: no successful setMetricStatus manipulation exists, whatever activation any of them requested. NO_SET_METRIC_STATUS_MANIPULATION for the required category: successful manipulations exist but none has the category. NoTestData: no candidate exists. Pass: a candidate exists and all candidates pass. A failure is the verdict on some candidate. |
| Correlation.JudgeWithoutReports | sdccc/src/test/java/com/draeger/medical/sdccc/tests/biceps/invariant/InvariantParticipantModelStatePartTestTest.java:275-297 | With no report in the window, the candidate fails, with a NoTestData cause naming the manipulation, its start and its finish. |
| Correlation.JudgeWithoutHandle | sdccc/src/test/java/com/draeger/medical/sdccc/tests/biceps/invariant/InvariantParticipantModelStatePartTestTest.java:304-325 | With reports in the window but none carrying the handle, the candidate fails plainly, naming the handle. |
| Correlation.JudgeFirstReport | sdccc/src/test/java/com/draeger/medical/sdccc/tests/biceps/invariant/InvariantParticipantModelStatePartTestTest.java:362-419 | The earliest in-window report carrying the handle decides the verdict on the candidate. |
| Correlation.JudgeOfFirst | sdccc/src/test/java/com/draeger/medical/sdccc/tests/biceps/invariant/InvariantParticipantModelStatePartTestTest.java:333-355 | Once the query has found the report, the verdict is the activation comparison on that report. |
| Correlation.LaterReportsDoNotMatter | sdccc/src/test/java/com/draeger/medical/sdccc/tests/biceps/invariant/InvariantParticipantModelStatePartTestTest.java:362-387 | Reports stored later, at or after the deciding report's time stamp, do not change the verdict, whatever they show. |
| Correlation.UnrelatedMessagesDoNotMatter | sdccc/src/test/java/com/draeger/medical/sdccc/tests/biceps/invariant/InvariantParticipantModelStatePartTestTest.java:239-268 | Once the window holds a report, messages that are not in-window reports carrying the handle do not change the verdict. This covers reports for other metrics at the same time stamp. |
| Correlation.JudgeDependsOnQuery | sdccc/src/test/java/com/draeger/medical/sdccc/tests/biceps/invariant/InvariantParticipantModelStatePartTestTest.java:239-268 | Two stores get the same verdict on a candidate when they agree on two things: whether the window holds a report, and which report carrying the handle comes first. |
| Correlation.OutcomeIgnoresManipulationOrder | sdccc/src/test/java/com/draeger/medical/sdccc/tests/biceps/invariant/InvariantParticipantModelStatePartTestTest.java:521-549 | Storing the same manipulations in another order keeps a pass a pass and a failure a failure, and keeps a NoTestData outcome identical. |
| Correlation.EvaluateSingle | sdccc/src/test/java/com/draeger/medical/sdccc/tests/biceps/invariant/InvariantParticipantModelStatePartTestTest.java:212-231 | With one stored candidate, the check's outcome is the verdict on it. |
| Correlation.AllCandidatesPass | sdccc/src/test/java/com/draeger/medical/sdccc/tests/biceps/invariant/InvariantParticipantModelStatePartTestTest.java:239-268 | A non-empty store of candidates that all pass makes the check pass. |
| Correlation.EvaluatePairPasses | sdccc/src/test/java/com/draeger/medical/sdccc/tests/biceps/invariant/InvariantParticipantModelStatePartTestTest.java:239-268 | Two candidates that both pass make the check pass. |
| Storage.MessageStorage.constructor | sdccc/src/test/java/com/draeger/medical/sdccc/tests/biceps/invariant/InvariantParticipantModelStatePartTestTest.java:127 | A new storage holds no manipulations and no messages. |
| Storage.MessageStorage.AddManipulation | sdccc/src/test/java/com/draeger/medical/sdccc/tests/biceps/invariant/InvariantParticipantModelStatePartTestTest.java:164-165 | Appends the manipulation after all earlier ones and leaves the messages as they were. |
| Storage.MessageStorage.AddMessage | sdccc/src/test/java/com/draeger/medical/sdccc/tests/biceps/invariant/InvariantParticipantModelStatePartTestTest.java:167-169 | Appends the message after all earlier ones and leaves the manipulations as they were. |
| Checker.FindFirstCarrying | sdccc/src/test/java/com/draeger/medical/sdccc/tests/biceps/invariant/InvariantParticipantModelStatePartTestTest.java:304-325 | The front-to-back scan returns the position of the first entry carrying the handle, or none. |
| Checker.JudgeCandidate | sdccc/src/test/java/com/draeger/medical/sdccc/tests/biceps/invariant/InvariantParticipantModelStatePartTestTest.java:212-231 | Judging one candidate against the storage's messages yields the verdict that `Judge` specifies. |
| Checker.SelectSuccessful | sdccc/src/test/java/com/draeger/medical/sdccc/tests/biceps/invariant/InvariantParticipantModelStatePartTestTest.java:153-173 | The selection pass keeps exactly the successful setMetricStatus manipulations, in storage order, whatever activation they requested. |
| Checker.SelectCategory | sdccc/src/test/java/com/draeger/medical/sdccc/tests/biceps/invariant/InvariantParticipantModelStatePartTestTest.java:180-203 | The category pass keeps exactly the manipulations of the given category, in order. |
| Checker.JudgeAll | sdccc/src/test/java/com/draeger/medical/sdccc/tests/biceps/invariant/InvariantParticipantModelStatePartTestTest.java:239-268 | The loop's outcome is `FirstFailure` of the candidates: it passes when all pass, and otherwise it is the verdict on the first candidate that does not pass (`Correlation.FirstFailureAt`). |
| Checker.Run | sdccc/src/test/java/com/draeger/medical/sdccc/tests/biceps/invariant/InvariantParticipantModelStatePartTestTest.java:143-146 | Running the check on a storage yields `Evaluate` of its manipulations and messages. |
| Scenarios.RecordFacts | sdccc/src/test/java/com/draeger/medical/sdccc/tests/biceps/invariant/InvariantParticipantModelStatePartTestTest.java:158-165 | A record carries its handle. It is a successful manipulation exactly when it succeeded, whatever activation it requested. It is a candidate for a requirement exactly when, in addition, its category is the requirement's. |
| Scenarios.FirstInWindow | sdccc/src/test/java/com/draeger/medical/sdccc/tests/biceps/invariant/InvariantParticipantModelStatePartTestTest.java:362-387 | An in-window report carrying the handle is the earliest one when every other such report has a later time stamp. |
| Scenarios.OnlyReportPasses | sdccc/src/test/java/com/draeger/medical/sdccc/tests/biceps/invariant/InvariantParticipantModelStatePartTestTest.java:239-268 | A requested manipulation passes when the only in-window report carrying its handle shows the requested activation. |
| Scenarios.NoTestDataScenario | sdccc/src/test/java/com/draeger/medical/sdccc/tests/biceps/invariant/InvariantParticipantModelStatePartTestTest.java:143-146 | An empty storage gives NoTestData with NO_SUCCESSFUL_MANIPULATION, for each of the six checks. |
| Scenarios.NoSuccessfulManipulationScenario | sdccc/src/test/java/com/draeger/medical/sdccc/tests/biceps/invariant/InvariantParticipantModelStatePartTestTest.java:153-173 | A failed manipulation gives NoTestData with NO_SUCCESSFUL_MANIPULATION, even with a fitting report in its window. |
| Scenarios.WrongMetricCategoryOutcome | sdccc/src/test/java/com/draeger/medical/sdccc/tests/biceps/invariant/InvariantParticipantModelStatePartTestTest.java:180-203 | A lone successful manipulation of the other category gives NoTestData with NO_SET_METRIC_STATUS_MANIPULATION for the required category. |
| Scenarios.WrongMetricCategoryScenario | sdccc/src/test/java/com/draeger/medical/sdccc/tests/biceps/invariant/InvariantParticipantModelStatePartTestTest.java:1028-1051 | The storage built as in the test gives that NoTestData: Msrmt for the Msrmt checks, Set for the Set checks. |
| Scenarios.SingleReportOutcome | sdccc/src/test/java/com/draeger/medical/sdccc/tests/biceps/invariant/InvariantParticipantModelStatePartTestTest.java:212-231 | With one candidate and one in-window report for its metric, the outcome is the comparison of that report's activation. |
| Scenarios.GoodScenario | sdccc/src/test/java/com/draeger/medical/sdccc/tests/biceps/invariant/InvariantParticipantModelStatePartTestTest.java:212-231 | A report in the window showing the requested activation makes the check pass. |
| Scenarios.WrongActivationInFollowingReportScenario | sdccc/src/test/java/com/draeger/medical/sdccc/tests/biceps/invariant/InvariantParticipantModelStatePartTestTest.java:333-355 | A report in the window showing any other activation fails plainly, naming the handle, the expected state and the actual state. |
| Scenarios.OverlappingOutcome | sdccc/src/test/java/com/draeger/medical/sdccc/tests/biceps/invariant/InvariantParticipantModelStatePartTestTest.java:239-268 | Two manipulations with overlapping windows, each with its own report, pass. This holds for either pairing of handles to windows and for equal report time stamps. |
| Scenarios.OverlappingReports | sdccc/src/test/java/com/draeger/medical/sdccc/tests/biceps/invariant/InvariantParticipantModelStatePartTestTest.java:239-268 | In the overlapping store, each manipulation's window holds exactly one report carrying its handle, and that report shows the requested activation. |
| Scenarios.OverlappingTimeIntervalScenario | sdccc/src/test/java/com/draeger/medical/sdccc/tests/biceps/invariant/InvariantParticipantModelStatePartTestTest.java:521-549 | The storage built as in the overlapping tests makes the check pass. |
| Scenarios.NoMetricReportOutcome | sdccc/src/test/java/com/draeger/medical/sdccc/tests/biceps/invariant/InvariantParticipantModelStatePartTestTest.java:275-297 | A report captured at 10 s leaves the window empty. The check fails with a NoTestData cause naming setMetricStatus, 1000 and 2000. |
| Scenarios.NoMetricReportFollowingManipulationScenario | sdccc/src/test/java/com/draeger/medical/sdccc/tests/biceps/invariant/InvariantParticipantModelStatePartTestTest.java:275-297 | The storage built as in the test gives that failure with its cause. |
| Scenarios.NoReportsWithExpectedHandleOutcome | sdccc/src/test/java/com/draeger/medical/sdccc/tests/biceps/invariant/InvariantParticipantModelStatePartTestTest.java:304-325 | An in-window report for the other metric gives a plain failure naming the manipulated handle. |
| Scenarios.NoReportsWithExpectedHandleScenario | sdccc/src/test/java/com/draeger/medical/sdccc/tests/biceps/invariant/InvariantParticipantModelStatePartTestTest.java:304-325 | The storage built as in the test gives that failure. |
| Scenarios.AnyRequestedActivationOutcome | sdccc/src/test/java/com/draeger/medical/sdccc/tests/biceps/invariant/InvariantParticipantModelStatePartTestTest.java:1719-1740 | A successful manipulation of the requirement's category is judged whatever activation it requested. With only reports for the other metric in its window, the check fails plainly, naming the manipulated handle. |
| Scenarios.AnyRequestedActivationScenario | sdccc/src/test/java/com/draeger/medical/sdccc/tests/biceps/invariant/InvariantParticipantModelStatePartTestTest.java:1719-1740 | The storage built as in the test, with an Off manipulation checked against another requirement's check, gives that failure. |
| Scenarios.EarlierReportOutcome | sdccc/src/test/java/com/draeger/medical/sdccc/tests/biceps/invariant/InvariantParticipantModelStatePartTestTest.java:362-387 | Of two in-window reports for the metric, the one at 1500 decides whatever the one at 1550 shows. |
| Scenarios.MultipleReportsInIntervalScenario | sdccc/src/test/java/com/draeger/medical/sdccc/tests/biceps/invariant/InvariantParticipantModelStatePartTestTest.java:362-419 | Good report then bad report passes. Bad report then good report fails, naming the bad report's activation. |

## Left out

- The database-backed message storage, its transactions and the concurrent capture that fills it are not modelled. The storage is two in-memory sequences.
- The SOAP/JAXB encoding of messages is not modelled. Neither are the communication context, the certificates or the MDIB and state versions. A message is its capture time stamp, its kind, and a map from metric handle to activation state.
- Message kinds other than the initial GetMdibResponse and episodic metric reports are not modelled. Only episodic metric reports are ever judged.
- The scenarios do not fix the capture time stamp or the content of the initial MDIB, which the test helper does not show. They take it as a parameter restricted to its kind.
- The configured slack is a parameter. The default of 5 is bound at sdccc/src/main/java/com/draeger/medical/sdccc/configuration/DefaultTestSuiteConfig.java:67, but how it is converted to nanoseconds is not part of this model.
- Correlation.WindowEnd: does not model the 64-bit overflow of `finish + slack`. Time stamps are unbounded integers.
- Scenarios.NoMetricReportFollowingManipulationScenario: holds for every slack that keeps the window's end before 10 s. The test assumes this of the configured value.
- Correlation.Judge: the reason of the outer assertion failure, for a window without reports, is the same value as its NoTestData cause. The tests check only the cause's message.
- Correlation.Judge: a candidate without a handle parameter fails with `NoHandleParameter`. The tests never store such a manipulation, so this branch is this model's choice.
- Correlation.Judge: a report is always compared with the activation the requirement expects, not with the activation the manipulation requested. No test judges a report for a manipulation whose requested activation differs from the requirement's, so a check that compares with the requested activation cannot be told apart.
- Correlation.Evaluate: only the kind of each outcome and the values its message is formatted with are modelled. The message texts are not.
- Manipulations.ParameterName: parameter keys are a datatype. An `OtherParam` whose name equals the key string of a named parameter counts as a different key. The key strings themselves are not part of this model.
- The implementation class of the check is not part of this model. Its behaviour is taken from the assertions of its unit tests.
