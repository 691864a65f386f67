/** `showSummaryAndExit`: the tally of the finished run, its messages, the
    data printed for each failure, and the process exit code. */
module Summary {
  import opened Wrappers
  import opened Sequences
  import opened JsText
  import opened Pipelines
  import opened Outcome

  /** What the summary prints for one failing fixture: its name, both
      generated programs (absent for a subject pipeline that stopped after
      compiling) and both `getError` diagnostics. */
  datatype ErrorDetail = ErrorDetail(
    file: string,
    tscJs: Option<string>, tscOutput: Diagnostic,
    glinkaJs: Option<string>, glinkaOutput: Diagnostic)

  datatype Report = Report(
    count: nat,
    successCount: nat,
    errors: seq<TestRecord>,
    successMessage: string,
    errorMessage: string,
    headline: string,
    withWithout: string,
    details: seq<ErrorDetail>,
    closing: string,
    exitCode: int)

  /** The tests the summary lists as errors, in their order in `tests`. */
  function Failures(tests: seq<TestRecord>): seq<TestRecord>
  {
    Filter(tests, IsFailedTest)
  }

  /** The tests counted as successes. */
  function Passes(tests: seq<TestRecord>): seq<TestRecord>
  {
    Filter(tests, IsPassedTest)
  }

  /** `n === 1 ? "1 <singular>" : `${n} <plural>``. */
  function CountMessage(n: nat, singular: string, plural: string): string
  {
    if n == 1 then "1 " + singular else Decimal(n) + " " + plural
  }

  function SuccessMessage(n: nat): string
  {
    CountMessage(n, "success", "successes")
  }

  function ErrorMessage(n: nat): string
  {
    CountMessage(n, "failure", "failures")
  }

  /** Different counts give different messages, as long as the plural word
      is longer than the singular one. */
  lemma CountMessageInjective(m: nat, n: nat, singular: string, plural: string)
    requires |singular| < |plural|
    requires CountMessage(m, singular, plural) == CountMessage(n, singular, plural)
    ensures m == n
  {
    if m != 1 && n != 1 {
      var dm, dn := Decimal(m), Decimal(n);
      assert dm + " " + plural == dn + " " + plural;
      assert |dm| == |dn|;
      assert (dm + " " + plural)[..|dm|] == dm;
      assert (dn + " " + plural)[..|dn|] == dn;
      DecimalInjective(m, n);
    }
  }

  /** The messages name the count, in the singular for exactly one. */
  lemma MessagesOfCount(n: nat)
    ensures SuccessMessage(n) == "1 success" <==> n == 1
    ensures ErrorMessage(n) == "1 failure" <==> n == 1
    ensures n != 1 ==> SuccessMessage(n) == Decimal(n) + " successes"
    ensures n != 1 ==> ErrorMessage(n) == Decimal(n) + " failures"
    ensures forall m: nat :: SuccessMessage(m) == SuccessMessage(n) ==> m == n
    ensures forall m: nat :: ErrorMessage(m) == ErrorMessage(n) ==> m == n
  {
    forall m: nat | SuccessMessage(m) == SuccessMessage(n) ensures m == n {
      CountMessageInjective(m, n, "success", "successes");
    }
    forall m: nat | ErrorMessage(m) == ErrorMessage(n) ensures m == n {
      CountMessageInjective(m, n, "failure", "failures");
    }
    assert SuccessMessage(1) == "1 success" && ErrorMessage(1) == "1 failure";
  }

  /** The first line printed: `Ran ${count} tests: ${successMessage}, ${errorMessage}`. */
  function Headline(count: nat, successMessage: string, errorMessage: string): string
  {
    "Ran " + Decimal(count) + " tests: " + successMessage + ", " + errorMessage
  }

  /** The last line printed. */
  function Closing(withWithout: string): string
  {
    "Glinka integration tests complete " + withWithout + " errors\n"
  }

  /** The block printed for one failing fixture. */
  function Detail(t: TestRecord): (d: ErrorDetail)
    requires t.Finished?
    ensures d.file == t.file
    ensures d.tscJs == t.nodeOutput.js && d.glinkaJs == t.glinkaOutput.js
    ensures d.tscOutput == GetError(t.nodeOutput) && d.glinkaOutput == GetError(t.glinkaOutput)
  {
    ErrorDetail(t.file, t.nodeOutput.js, GetError(t.nodeOutput), t.glinkaOutput.js, GetError(t.glinkaOutput))
  }

  /** One detail block per error, in order. */
  function Details(errors: seq<TestRecord>): (ds: seq<ErrorDetail>)
    requires forall i :: 0 <= i < |errors| ==> errors[i].Finished?
    ensures |ds| == |errors|
    ensures forall i :: 0 <= i < |errors| ==> ds[i] == Detail(errors[i])
  {
    seq(|errors|, i requires 0 <= i < |errors| => Detail(errors[i]))
  }

  lemma FailuresFinished(tests: seq<TestRecord>)
    ensures forall i :: 0 <= i < |Failures(tests)| ==> Failures(tests)[i].Finished?
  {
    forall i | 0 <= i < |Failures(tests)| ensures Failures(tests)[i].Finished? {
      FilterMembership(tests, IsFailedTest, Failures(tests)[i]);
      FailedTestIsFinished(Failures(tests)[i]);
    }
  }

  /** The report of `showSummaryAndExit(tests)`. */
  function ReportOf(tests: seq<TestRecord>): Report
  {
    var errors := Failures(tests);
    var successCount := |Passes(tests)|;
    var successMessage := SuccessMessage(successCount);
    var errorMessage := ErrorMessage(|errors|);
    var withWithout := if |errors| > 0 then "with" else "without";
    FailuresFinished(tests);
    Report(
      |tests|, successCount, errors, successMessage, errorMessage,
      Headline(|tests|, successMessage, errorMessage),
      withWithout,
      if |errors| > 0 then Details(errors) else [],
      Closing(withWithout),
      if |errors| > 0 then 1 else 0)
  }

  /** Every test is either a success or an error, never both. */
  lemma TallyPartition(tests: seq<TestRecord>)
    ensures ReportOf(tests).successCount + |ReportOf(tests).errors| == |tests|
  {
    FilterPartition(tests, IsFailedTest, IsPassedTest);
  }

  /** The errors are exactly the tests whose status contains "Failure",
      each as often as it occurs in `tests` and in the order of `tests`. */
  lemma ErrorsAreFailures(tests: seq<TestRecord>)
    ensures forall t :: t in ReportOf(tests).errors <==> t in tests && IsFailureStatus(t.Status())
    ensures forall t :: multiset(ReportOf(tests).errors)[t] ==
                        if IsFailureStatus(t.Status()) then multiset(tests)[t] else 0
    ensures var pos := Positions(tests, IsFailedTest);
            && |pos| == |ReportOf(tests).errors|
            && (forall k :: 0 <= k < |pos| ==> pos[k] < |tests| && tests[pos[k]] == ReportOf(tests).errors[k])
            && (forall k, l :: 0 <= k < l < |pos| ==> pos[k] < pos[l])
  {
    forall t ensures t in ReportOf(tests).errors <==> t in tests && IsFailureStatus(t.Status()) {
      FilterMembership(tests, IsFailedTest, t);
    }
    forall t ensures multiset(ReportOf(tests).errors)[t] ==
                     if IsFailureStatus(t.Status()) then multiset(tests)[t] else 0 {
      FilterMultiplicity(tests, IsFailedTest, t);
    }
    FilterAt(tests, IsFailedTest);
    PositionsIncrease(tests, IsFailedTest);
  }

  /** The exit code is 0 when no test failed and 1 otherwise; "with" is
      chosen exactly when some test failed. */
  lemma ExitCodeOfTally(tests: seq<TestRecord>)
    ensures ReportOf(tests).exitCode == 0 <==> forall i :: 0 <= i < |tests| ==> !IsFailedTest(tests[i])
    ensures ReportOf(tests).exitCode == 0 || ReportOf(tests).exitCode == 1
    ensures ReportOf(tests).exitCode == 0 <==> |ReportOf(tests).errors| == 0
    ensures ReportOf(tests).withWithout == "with" <==> ReportOf(tests).exitCode == 1
  {
    FilterEmpty(tests, IsFailedTest);
  }

  /** The loop of `showSummaryAndExit`: the tests whose status contains
      "Failure", in order, and the number of the others. */
  method Tally(tests: seq<TestRecord>) returns (errors: seq<TestRecord>, successCount: nat)
    ensures errors == Failures(tests)
    ensures successCount == |Passes(tests)|
  {
    errors := [];
    successCount := 0;
    var i := 0;
    while i < |tests|
      invariant 0 <= i <= |tests|
      invariant errors == Filter(tests[..i], IsFailedTest)
      invariant successCount == |Filter(tests[..i], IsPassedTest)|
    {
      FilterStep(tests, i, IsFailedTest);
      FilterStep(tests, i, IsPassedTest);
      var test := tests[i];
      if IndexOf(test.Status(), "Failure") > -1 {
        errors := errors + [test];
      } else {
        successCount := successCount + 1;
      }
      i := i + 1;
    }
    assert tests[..i] == tests;
  }

  /** `showSummaryAndExit`, with the `process.exit` argument returned as
      `exitCode` and the console lines returned as data. */
  method ShowSummaryAndExit(tests: seq<TestRecord>) returns (r: Report)
    ensures r == ReportOf(tests)
    ensures r.successCount + |r.errors| == r.count == |tests|
    ensures r.exitCode == (if |r.errors| > 0 then 1 else 0)
  {
    var count := |tests|;
    var errors, successCount := Tally(tests);

    var successMessage := SuccessMessage(successCount);
    var errorMessage := ErrorMessage(|errors|);
    var headline := Headline(count, successMessage, errorMessage);

    var withWithout := "without";
    var details: seq<ErrorDetail> := [];
    if |errors| > 0 {
      withWithout := "with";
      FailuresFinished(tests);
      details := Details(errors);
    }
    var closing := Closing(withWithout);
    r := Report(count, successCount, errors, successMessage, errorMessage, headline,
                withWithout, details, closing, if |errors| > 0 then 1 else 0);
    TallyPartition(tests);
  }
}
