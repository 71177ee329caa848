/** The test command of src/cli/commands/test/main.ts: one result per test
    case (iterateTestCases, assertExpectedOutput), one suite per configured
    function (runTests), and the totals and grouping of aggregateResults. */
module TestRun {
  import opened Wrappers
  import opened Types
  import opened AsymmetricMatch
  import opened TestEvent
  import opened Settle

  datatype TestCase = TestCase(name: string, given: Json, expected: Json)

  /** CloudFront's TestResult, reduced: FunctionSummary, FunctionErrorMessage
      ("" when absent, which `!` treats alike) and FunctionOutput as
      JSON.parse reads it (None when the parse throws). */
  datatype TestResult = TestResult(functionSummary: FunctionSummary, functionErrorMessage: string, parsedOutput: Option<Json>)

  /** TestCaseResult: the case, the summary it is filed under, the service's
      answer when there was one, isSuccess, and the error thrown, if any. */
  datatype TestCaseResult =
    TestCaseResult(testCase: TestCase, functionSummary: FunctionSummary, testResult: Option<TestResult>,
                   isSuccess: bool, error: Option<Error>)

  datatype TestError = TestError(functionName: string, error: Error)

  /** What describeFunction returns: the summary and the ETag to test against. */
  datatype DeployedFunction = DeployedFunction(summary: FunctionSummary, eTag: string)

  /** The arguments of a testFunction call (the stage is the same for all). */
  datatype TestRequest = TestRequest(name: string, eTag: string, eventObject: Json)

  /** The service's answer to each request it may be sent. */
  type TestService = TestRequest -> Result<TestResult, Error>

  // ---- one test case ----

  /** assertExpectedOutput: false on a function error; otherwise the spread
      expected value matched against the spread parsed output. A parse
      failure or a thrown match is an error. */
  function AssertExpectedOutput(result: TestResult, expected: Json): (r: Result<bool, Error>)
    ensures result.functionErrorMessage != "" ==> r == Success(false)
    ensures r.Failure? ==> r.error == UnparsableOutput || r.error == KeysOfNull
    ensures r == Success(true) <==>
              && result.functionErrorMessage == ""
              && result.parsedOutput.Some?
              && IsAsymmetricMatch(Spread(expected), Spread(result.parsedOutput.value)) == Some(true)
  {
    if result.functionErrorMessage != "" then Success(false)
    else if result.parsedOutput.None? then Failure(UnparsableOutput)
    else match IsAsymmetricMatch(Spread(expected), Spread(result.parsedOutput.value))
      case None => Failure(KeysOfNull)
      case Some(b) => Success(b)
  }

  /** Without nulls in the expected event, a test passes iff the function
      reported no error and every expected key is a property of the output
      whose value matches; only an unparsable output is then an error. */
  lemma AssertExpectedOutputIff(result: TestResult, expected: Json)
    requires NullFree(Spread(expected))
    ensures AssertExpectedOutput(result, expected).Failure? <==>
              result.functionErrorMessage == "" && result.parsedOutput.None?
    ensures AssertExpectedOutput(result, expected) == Success(true) <==>
              && result.functionErrorMessage == ""
              && result.parsedOutput.Some?
              && forall k :: 0 <= k < |Spread(expected).fields| ==>
                   FieldMatches(Spread(expected).fields[k], Spread(result.parsedOutput.value))
  {
    if result.parsedOutput.Some? {
      ObjectMatchIff(Spread(expected).fields, Spread(result.parsedOutput.value));
    }
  }

  /** The result recorded when anything in the case throws. */
  function Errored(testCase: TestCase, deployed: DeployedFunction, e: Error): TestCaseResult
  {
    TestCaseResult(testCase, deployed.summary, None, false, Some(e))
  }

  /** The body of one task of iterateTestCases: merge the event, call
      testFunction with the deployed name and ETag, assert the output. */
  function RunTestCase(testCase: TestCase, config: FunctionConfig, deployed: DeployedFunction,
                       uuid: string, service: TestService): (r: TestCaseResult)
    ensures r.testCase == testCase
    ensures r.error.Some? ==> !r.isSuccess && r.testResult.None? && r.functionSummary == deployed.summary
    ensures r.error.None? ==>
              && r.testResult.Some?
              && r.functionSummary == r.testResult.value.functionSummary
              && AssertExpectedOutput(r.testResult.value, testCase.expected) == Success(r.isSuccess)
    ensures MergeEventObject(testCase.given, config, uuid).Failure? ==> r.error == Some(NoAssociations)
    ensures MergeEventObject(testCase.given, config, uuid).Success? ==>
              var reply := service(TestRequest(deployed.summary.name, deployed.eTag,
                                               MergeEventObject(testCase.given, config, uuid).value));
              && (reply.Failure? ==> r.error == Some(reply.error))
              && (reply.Success? ==>
                    (r.error.None? <==> AssertExpectedOutput(reply.value, testCase.expected).Success?) &&
                    (r.error.None? ==> r.testResult == Some(reply.value)) &&
                    (AssertExpectedOutput(reply.value, testCase.expected).Failure? ==>
                       r.error == Some(AssertExpectedOutput(reply.value, testCase.expected).error)))
  {
    match MergeEventObject(testCase.given, config, uuid)
    case Failure(e) => Errored(testCase, deployed, e)
    case Success(eventObject) =>
      match service(TestRequest(deployed.summary.name, deployed.eTag, eventObject))
      case Failure(e) => Errored(testCase, deployed, e)
      case Success(testResult) =>
        match AssertExpectedOutput(testResult, testCase.expected)
        case Failure(e) => Errored(testCase, deployed, e)
        case Success(isSuccess) => TestCaseResult(testCase, testResult.functionSummary, Some(testResult), isSuccess, None)
  }

  /** A case passes iff its event merged, the service answered, and the
      output matched. */
  lemma PassIff(testCase: TestCase, config: FunctionConfig, deployed: DeployedFunction, uuid: string, service: TestService)
    ensures RunTestCase(testCase, config, deployed, uuid, service).isSuccess <==>
              && config.associations != []
              && var request := TestRequest(deployed.summary.name, deployed.eTag,
                                            MergeEventObject(testCase.given, config, uuid).value);
                 && service(request).Success?
                 && AssertExpectedOutput(service(request).value, testCase.expected) == Success(true)
  {
  }

  /** iterateTestCases: every case yields exactly one result, pushed in case
      order. `uuids[i]` is the identifier drawn for the i-th case. */
  method IterateTestCases(testCases: seq<TestCase>, config: FunctionConfig, deployed: DeployedFunction,
                          uuids: seq<string>, service: TestService) returns (results: seq<TestCaseResult>)
    requires |uuids| == |testCases|
    ensures |results| == |testCases|
    ensures forall i :: 0 <= i < |testCases| ==> results[i] == RunTestCase(testCases[i], config, deployed, uuids[i], service)
  {
    results := [];
    for i := 0 to |testCases|
      invariant |results| == i
      invariant forall k :: 0 <= k < i ==> results[k] == RunTestCase(testCases[k], config, deployed, uuids[k], service)
    {
      var result := RunTestCase(testCases[i], config, deployed, uuids[i], service);
      assert forall k :: 0 <= k < i ==> (results + [result])[k] == results[k];
      results := results + [result];
    }
  }

  /** One function's suite in runTests: Promise.all over loading the cases
      and describeFunction (the first failure in that order is reported),
      then the cases; any rejection becomes a TestError naming the function. */
  method RunSuite(functionName: string, config: FunctionConfig, testCases: Result<seq<TestCase>, Error>,
                  described: Result<DeployedFunction, Error>, uuids: seq<string>, service: TestService)
    returns (suite: Result<seq<TestCaseResult>, TestError>)
    requires testCases.Success? ==> |uuids| == |testCases.value|
    ensures suite.Failure? <==> testCases.Failure? || described.Failure?
    ensures testCases.Failure? ==> suite == Failure(TestError(functionName, testCases.error))
    ensures testCases.Success? && described.Failure? ==> suite == Failure(TestError(functionName, described.error))
    ensures suite.Success? ==>
              && |suite.value| == |testCases.value|
              && forall i :: 0 <= i < |testCases.value| ==>
                   suite.value[i] == RunTestCase(testCases.value[i], config, described.value, uuids[i], service)
  {
    if testCases.Failure? {
      return Failure(TestError(functionName, testCases.error));
    }
    if described.Failure? {
      return Failure(TestError(functionName, described.error));
    }
    var results := IterateTestCases(testCases.value, config, described.value, uuids, service);
    suite := Success(results);
  }

  // ---- aggregation ----

  /** All case results of the fulfilled suites, suite after suite. */
  function Concat(suites: seq<seq<TestCaseResult>>): seq<TestCaseResult>
    decreases |suites|
  {
    if suites == [] then [] else Concat(suites[..|suites| - 1]) + suites[|suites| - 1]
  }

  /** The four filters aggregateResults applies: `!tc.error`, `!!tc.error`,
      `tc.isSuccess` and `!tc.isSuccess`. */
  datatype Kind = Clean | Threw | Passed | NotPassed

  predicate Is(kind: Kind, tc: TestCaseResult)
  {
    match kind
    case Clean => tc.error.None?
    case Threw => tc.error.Some?
    case Passed => tc.isSuccess
    case NotPassed => !tc.isSuccess
  }

  /** `cases.filter(p)`. */
  function Filter(cases: seq<TestCaseResult>, p: Kind): (r: seq<TestCaseResult>)
    ensures |r| <= |cases|
    decreases |cases|
  {
    if cases == [] then []
    else
      var last := cases[|cases| - 1];
      Filter(cases[..|cases| - 1], p) + (if Is(p, last) then [last] else [])
  }

  /** The TestError pushed for each case that threw, in order. */
  function CaseErrors(cases: seq<TestCaseResult>): (r: seq<TestError>)
    ensures |r| == |Filter(cases, Threw)|
    decreases |cases|
  {
    if cases == [] then []
    else
      var last := cases[|cases| - 1];
      CaseErrors(cases[..|cases| - 1]) +
        (if last.error.Some? then [TestError(last.functionSummary.name, last.error.value)] else [])
  }

  /** resultsMap: function name to its results, in key insertion order (which is
      the order JS enumerates them unless a name is an integer-like key). */
  type ResultsMap = seq<(string, seq<TestCaseResult>)>

  function FindGroup(groups: ResultsMap, name: string): (r: Option<nat>)
    ensures r.Some? ==> r.value < |groups| && groups[r.value].0 == name
    ensures r.Some? ==> forall j :: 0 <= j < r.value ==> groups[j].0 != name
    ensures r.None? ==> forall j :: 0 <= j < |groups| ==> groups[j].0 != name
    decreases |groups|
  {
    if groups == [] then None
    else if groups[0].0 == name then Some(0)
    else match FindGroup(groups[1..], name)
      case None => None
      case Some(j) => Some(j + 1)
  }

  /** `resultsMap[name]`, read as [] when the key is absent. */
  function GroupOf(groups: ResultsMap, name: string): seq<TestCaseResult>
  {
    match FindGroup(groups, name)
    case None => []
    case Some(j) => groups[j].1
  }

  predicate DistinctNames(groups: ResultsMap)
  {
    forall k, l :: 0 <= k < l < |groups| ==> groups[k].0 != groups[l].0
  }

  /** Creating the list if the key is missing, then `resultsMap[name].push(tc)`. */
  function Group(groups: ResultsMap, tc: TestCaseResult): ResultsMap
  {
    var name := tc.functionSummary.name;
    match FindGroup(groups, name)
    case Some(j) => groups[j := (name, groups[j].1 + [tc])]
    case None => groups + [(name, [tc])]
  }

  /** Grouping a result appends it to its own name's list only, and keeps the keys distinct. */
  lemma GroupEffect(groups: ResultsMap, tc: TestCaseResult)
    ensures forall name :: GroupOf(Group(groups, tc), name) ==
              GroupOf(groups, name) + (if name == tc.functionSummary.name then [tc] else [])
    ensures DistinctNames(groups) ==> DistinctNames(Group(groups, tc))
  {
    var name := tc.functionSummary.name;
    var r := Group(groups, tc);
    match FindGroup(groups, name)
    case Some(j) =>
      forall other ensures FindGroup(r, other) == FindGroup(groups, other) {
        FindGroupUpdate(groups, j, groups[j].1 + [tc], other);
      }
    case None =>
      forall other ensures FindGroup(r, other) == (if other == name then Some(|groups|) else FindGroup(groups, other)) {
        FindGroupAppend(groups, (name, [tc]), other);
      }
  }

  lemma {:induction false} FindGroupUpdate(groups: ResultsMap, j: nat, list: seq<TestCaseResult>, name: string)
    requires j < |groups|
    ensures FindGroup(groups[j := (groups[j].0, list)], name) == FindGroup(groups, name)
    decreases |groups|
  {
    if j > 0 {
      assert groups[j := (groups[j].0, list)][1..] == groups[1..][j - 1 := (groups[j].0, list)];
      FindGroupUpdate(groups[1..], j - 1, list, name);
    }
  }

  lemma {:induction false} FindGroupAppend(groups: ResultsMap, group: (string, seq<TestCaseResult>), name: string)
    ensures FindGroup(groups + [group], name) ==
            match FindGroup(groups, name)
            case Some(j) => Some(j)
            case None => if group.0 == name then Some(|groups|) else None
    decreases |groups|
  {
    if groups != [] {
      assert (groups + [group])[1..] == groups[1..] + [group];
      FindGroupAppend(groups[1..], group, name);
    }
  }

  /** The results grouped one by one, in order. */
  function GroupAll(groups: ResultsMap, cases: seq<TestCaseResult>): ResultsMap
    decreases |cases|
  {
    if cases == [] then groups else Group(GroupAll(groups, cases[..|cases| - 1]), cases[|cases| - 1])
  }

  /** The cases filed under a function name, in order. */
  function WithName(cases: seq<TestCaseResult>, name: string): seq<TestCaseResult>
    decreases |cases|
  {
    if cases == [] then []
    else
      var last := cases[|cases| - 1];
      WithName(cases[..|cases| - 1], name) + (if last.functionSummary.name == name then [last] else [])
  }

  /** Grouping keeps, under each name, exactly the cases with that name in
      their original order, and never repeats a key. */
  lemma {:induction false} GroupAllGroups(groups: ResultsMap, cases: seq<TestCaseResult>, name: string)
    requires DistinctNames(groups)
    ensures GroupOf(GroupAll(groups, cases), name) == GroupOf(groups, name) + WithName(cases, name)
    ensures DistinctNames(GroupAll(groups, cases))
    decreases |cases|
  {
    if cases != [] {
      GroupAllGroups(groups, cases[..|cases| - 1], name);
      GroupEffect(GroupAll(groups, cases[..|cases| - 1]), cases[|cases| - 1]);
    }
  }

  /** Filtering distributes over concatenation. */
  lemma {:induction false} FilterAppend(a: seq<TestCaseResult>, b: seq<TestCaseResult>, p: Kind)
    ensures Filter(a + b, p) == Filter(a, p) + Filter(b, p)
    decreases |b|
  {
    if b == [] {
      assert a + b == a;
    } else {
      var b' := b[..|b| - 1];
      assert (a + b)[..|a + b| - 1] == a + b';
      FilterAppend(a, b', p);
    }
  }

  lemma {:induction false} CaseErrorsAppend(a: seq<TestCaseResult>, b: seq<TestCaseResult>)
    ensures CaseErrors(a + b) == CaseErrors(a) + CaseErrors(b)
    decreases |b|
  {
    if b == [] {
      assert a + b == a;
    } else {
      var b' := b[..|b| - 1];
      assert (a + b)[..|a + b| - 1] == a + b';
      CaseErrorsAppend(a, b');
    }
  }

  /** Every case is either clean or errored, and either passed or not. */
  lemma {:induction false} Partitions(cases: seq<TestCaseResult>)
    ensures |Filter(cases, Clean)| + |Filter(cases, Threw)| == |cases|
    ensures |Filter(cases, Passed)| + |Filter(cases, NotPassed)| == |cases|
    decreases |cases|
  {
    if cases != [] {
      Partitions(cases[..|cases| - 1]);
    }
  }

  /** A case that threw never passed (the rule RunTestCase keeps). */
  predicate ErrorsFail(cases: seq<TestCaseResult>)
  {
    forall k :: 0 <= k < |cases| ==> cases[k].error.Some? ==> !cases[k].isSuccess
  }

  /** So a case that threw is among the failures as well as among the errors. */
  lemma {:induction false} ErroredAreFailed(cases: seq<TestCaseResult>)
    requires ErrorsFail(cases)
    ensures |Filter(cases, Threw)| <= |Filter(cases, NotPassed)|
    ensures |Filter(cases, NotPassed)| == |Filter(Filter(cases, Clean), NotPassed)| + |Filter(cases, Threw)|
    decreases |cases|
  {
    if cases != [] {
      var init := cases[..|cases| - 1];
      assert ErrorsFail(init) by {
        forall k | 0 <= k < |init| ensures init[k].error.Some? ==> !init[k].isSuccess {
          assert init[k] == cases[k];
        }
      }
      ErroredAreFailed(init);
      var last := cases[|cases| - 1];
      var clean := Filter(cases, Clean);
      if Is(Clean, last) {
        assert clean[..|clean| - 1] == Filter(init, Clean);
      } else {
        assert clean == Filter(init, Clean);
      }
    }
  }

  lemma FilterSnoc(cases: seq<TestCaseResult>, tc: TestCaseResult, p: Kind)
    ensures Filter(cases + [tc], p) == Filter(cases, p) + (if Is(p, tc) then [tc] else [])
  {
    assert (cases + [tc])[..|cases|] == cases;
  }

  lemma CaseErrorsSnoc(cases: seq<TestCaseResult>, tc: TestCaseResult)
    ensures CaseErrors(cases + [tc]) ==
            CaseErrors(cases) + (if tc.error.Some? then [TestError(tc.functionSummary.name, tc.error.value)] else [])
  {
    assert (cases + [tc])[..|cases|] == cases;
  }

  lemma GroupAllSnoc(groups: ResultsMap, cases: seq<TestCaseResult>, tc: TestCaseResult)
    ensures GroupAll(groups, cases + [tc]) == Group(GroupAll(groups, cases), tc)
  {
    assert (cases + [tc])[..|cases|] == cases;
  }

  lemma {:induction false} GroupAllAppend(groups: ResultsMap, a: seq<TestCaseResult>, b: seq<TestCaseResult>)
    ensures GroupAll(groups, a + b) == GroupAll(GroupAll(groups, a), b)
    decreases |b|
  {
    if b == [] {
      assert a + b == a;
    } else {
      var b' := b[..|b| - 1];
      assert (a + b)[..|a + b| - 1] == a + b';
      GroupAllAppend(groups, a, b');
    }
  }

  /** One more fulfilled suite: every fold of the cases so far takes the suite's cases on. */
  lemma SuiteStep(successList: seq<seq<TestCaseResult>>, i: nat)
    requires i < |successList|
    ensures Concat(successList[..i + 1]) == Concat(successList[..i]) + successList[i]
    ensures GroupAll([], Filter(Concat(successList[..i + 1]), Clean)) ==
            GroupAll(GroupAll([], Filter(Concat(successList[..i]), Clean)), Filter(successList[i], Clean))
    ensures CaseErrors(Concat(successList[..i + 1])) == CaseErrors(Concat(successList[..i])) + CaseErrors(successList[i])
    ensures |Filter(Concat(successList[..i + 1]), Passed)| ==
            |Filter(Concat(successList[..i]), Passed)| + |Filter(successList[i], Passed)|
    ensures |Filter(Concat(successList[..i + 1]), NotPassed)| ==
            |Filter(Concat(successList[..i]), NotPassed)| + |Filter(successList[i], NotPassed)|
  {
    var before, cases := Concat(successList[..i]), successList[i];
    assert successList[..i + 1][..i] == successList[..i];
    FilterAppend(before, cases, Clean);
    GroupAllAppend([], Filter(before, Clean), Filter(cases, Clean));
    CaseErrorsAppend(before, cases);
    FilterAppend(before, cases, Passed);
    FilterAppend(before, cases, NotPassed);
  }

  /** One more case of a suite, for the pass over the clean cases. */
  lemma CleanStep(groups: ResultsMap, cases: seq<TestCaseResult>, j: nat)
    requires j < |cases|
    ensures |Filter(cases[..j + 1], Clean)| == |Filter(cases[..j], Clean)| + (if Is(Clean, cases[j]) then 1 else 0)
    ensures GroupAll(groups, Filter(cases[..j + 1], Clean)) ==
            if Is(Clean, cases[j]) then Group(GroupAll(groups, Filter(cases[..j], Clean)), cases[j])
            else GroupAll(groups, Filter(cases[..j], Clean))
  {
    assert cases[..j + 1] == cases[..j] + [cases[j]];
    FilterSnoc(cases[..j], cases[j], Clean);
    if Is(Clean, cases[j]) {
      GroupAllSnoc(groups, Filter(cases[..j], Clean), cases[j]);
    } else {
      assert Filter(cases[..j + 1], Clean) == Filter(cases[..j], Clean);
    }
  }

  /** One more case of a suite, for the pass over the cases that threw. */
  lemma ThrewStep(errors: seq<TestError>, cases: seq<TestCaseResult>, j: nat)
    requires j < |cases|
    ensures |Filter(cases[..j + 1], Threw)| == |Filter(cases[..j], Threw)| + (if Is(Threw, cases[j]) then 1 else 0)
    ensures errors + CaseErrors(cases[..j + 1]) == errors + CaseErrors(cases[..j]) +
              (if cases[j].error.Some? then [TestError(cases[j].functionSummary.name, cases[j].error.value)] else [])
  {
    assert cases[..j + 1] == cases[..j] + [cases[j]];
    FilterSnoc(cases[..j], cases[j], Threw);
    CaseErrorsSnoc(cases[..j], cases[j]);
  }

  /** The value aggregateResults returns, and the running totals it keeps. */
  datatype Aggregate = Aggregate(resultsMap: ResultsMap, errors: seq<TestError>,
                                 totalSuites: nat, totalTests: nat, totalSuccess: nat, totalFails: nat)

  /** The callback of `successList.forEach`: one fulfilled suite added to the
      running totals, its clean cases grouped and its errors listed. */
  method AddSuite(acc: Aggregate, testCases: seq<TestCaseResult>) returns (next: Aggregate)
    ensures next.totalSuites == acc.totalSuites + 1
    ensures next.totalTests == acc.totalTests + |testCases|
    ensures next.resultsMap == GroupAll(acc.resultsMap, Filter(testCases, Clean))
    ensures next.errors == acc.errors + CaseErrors(testCases)
    ensures next.totalSuccess == acc.totalSuccess + |Filter(testCases, Passed)|
    ensures next.totalFails == acc.totalFails + |Filter(testCases, NotPassed)|
  {
    var totalTests, resultsMap, errors := acc.totalTests, acc.resultsMap, acc.errors;
    for j := 0 to |testCases|
      invariant totalTests == acc.totalTests + |Filter(testCases[..j], Clean)|
      invariant resultsMap == GroupAll(acc.resultsMap, Filter(testCases[..j], Clean))
    {
      CleanStep(acc.resultsMap, testCases, j);
      if testCases[j].error.None? {
        totalTests := totalTests + 1;
        resultsMap := Group(resultsMap, testCases[j]);
      }
    }
    assert testCases[..|testCases|] == testCases;
    for j := 0 to |testCases|
      invariant totalTests == acc.totalTests + |Filter(testCases, Clean)| + |Filter(testCases[..j], Threw)|
      invariant errors == acc.errors + CaseErrors(testCases[..j])
    {
      ThrewStep(acc.errors, testCases, j);
      if testCases[j].error.Some? {
        totalTests := totalTests + 1;
        errors := errors + [TestError(testCases[j].functionSummary.name, testCases[j].error.value)];
      }
    }
    Partitions(testCases);
    next := Aggregate(resultsMap, errors, acc.totalSuites + 1, totalTests,
                      acc.totalSuccess + |Filter(testCases, Passed)|, acc.totalFails + |Filter(testCases, NotPassed)|);
  }

  /** aggregateResults over the settled suites. */
  method AggregateResults(successList: seq<seq<TestCaseResult>>, rejectList: seq<TestError>) returns (agg: Aggregate)
    ensures agg.totalSuites == |successList|
    ensures agg.totalTests == |Concat(successList)|
    ensures agg.resultsMap == GroupAll([], Filter(Concat(successList), Clean))
    ensures agg.errors == CaseErrors(Concat(successList)) + rejectList
    ensures agg.totalSuccess == |Filter(Concat(successList), Passed)|
    ensures agg.totalFails == |Filter(Concat(successList), NotPassed)| + |agg.errors|
  {
    agg := Aggregate([], [], 0, 0, 0, 0);
    for i := 0 to |successList|
      invariant agg.totalSuites == i
      invariant agg.totalTests == |Concat(successList[..i])|
      invariant agg.resultsMap == GroupAll([], Filter(Concat(successList[..i]), Clean))
      invariant agg.errors == CaseErrors(Concat(successList[..i]))
      invariant agg.totalSuccess == |Filter(Concat(successList[..i]), Passed)|
      invariant agg.totalFails == |Filter(Concat(successList[..i]), NotPassed)|
    {
      SuiteStep(successList, i);
      agg := AddSuite(agg, successList[i]);
    }
    assert successList[..|successList|] == successList;
    var errors := agg.errors + rejectList;
    agg := agg.(errors := errors, totalFails := agg.totalFails + |errors|);
  }

  /** The totals count a case that threw twice, as a failure and as an error:
      passes plus failures exceed the number of tests by the errors. */
  lemma FailuresCountErrorsTwice(successList: seq<seq<TestCaseResult>>, rejectList: seq<TestError>)
    requires ErrorsFail(Concat(successList))
    ensures var cases := Concat(successList);
            |Filter(cases, Passed)| + |Filter(cases, NotPassed)| + |CaseErrors(cases) + rejectList|
            == |cases| + |Filter(cases, Threw)| + |rejectList|
    ensures var cases := Concat(successList);
            |Filter(cases, NotPassed)| + |CaseErrors(cases) + rejectList|
            == |Filter(Filter(cases, Clean), NotPassed)| + 2 * |Filter(cases, Threw)| + |rejectList|
  {
    Partitions(Concat(successList));
    ErroredAreFailed(Concat(successList));
  }

  /** The results of iterateTestCases keep the rule that a case that threw failed. */
  lemma IteratedErrorsFail(testCases: seq<TestCase>, config: FunctionConfig, deployed: DeployedFunction,
                           uuids: seq<string>, service: TestService, results: seq<TestCaseResult>)
    requires |uuids| == |testCases| && |results| == |testCases|
    requires forall i :: 0 <= i < |testCases| ==> results[i] == RunTestCase(testCases[i], config, deployed, uuids[i], service)
    ensures ErrorsFail(results)
  {
  }

  /** settleAndPrintTestResults without the printing: the settled suites
      split by settlePromises, then aggregated. */
  method SettleTestResults(suites: seq<Settled<seq<TestCaseResult>, TestError>>) returns (agg: Aggregate)
    ensures agg.totalSuites == |Successes(suites)|
    ensures agg.totalTests == |Concat(Successes(suites))|
    ensures agg.resultsMap == GroupAll([], Filter(Concat(Successes(suites)), Clean))
    ensures agg.errors == CaseErrors(Concat(Successes(suites))) + Rejects(suites)
    ensures agg.totalSuccess == |Filter(Concat(Successes(suites)), Passed)|
    ensures agg.totalFails == |Filter(Concat(Successes(suites)), NotPassed)| + |agg.errors|
  {
    var successList, rejectList := SettlePromises(suites);
    agg := AggregateResults(successList, rejectList);
  }
}
