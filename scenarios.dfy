/** Whole runs over a corpus of one fixture: one whose two programs print
    the same lines, and one whose programs print different numbers. */
module Scenarios {
  import opened Wrappers
  import opened Sequences
  import opened JsText
  import opened Discovery
  import opened Pipelines
  import opened Outcome
  import opened Summary
  import opened Driver

  /** The listing of a single fixture yields that fixture alone. */
  lemma SingleFixture(file: string)
    requires IsTsFixture(file)
    ensures Fixtures([file]) == [file]
  {
    var listing := [file];
    FilterStep(listing, 0, IsTsFixture);
    assert listing[..1] == listing && listing[..0] == [];
  }

  /** A run of one test lists it as an error exactly when its status
      contains "Failure", and counts it as a success otherwise. */
  lemma SingleTally(t: TestRecord)
    ensures Failures([t]) == if IsFailedTest(t) then [t] else []
    ensures |Passes([t])| == if IsFailedTest(t) then 0 else 1
  {
    var tests := [t];
    FilterStep(tests, 0, IsFailedTest);
    FilterStep(tests, 0, IsPassedTest);
    assert tests[..1] == tests && tests[..0] == [];
  }

  /** The messages for no test and for one. */
  lemma SmallCounts()
    ensures SuccessMessage(0) == "0 successes" && SuccessMessage(1) == "1 success"
    ensures ErrorMessage(0) == "0 failures" && ErrorMessage(1) == "1 failure"
  {
    assert Decimal(0) == "0";
  }

  /** The summary of a run whose one test passed. */
  lemma PassingReport(t: TestRecord)
    requires !IsFailedTest(t)
    ensures ReportOf([t]).exitCode == 0
    ensures ReportOf([t]).successMessage == "1 success"
    ensures ReportOf([t]).errorMessage == "0 failures"
    ensures ReportOf([t]).withWithout == "without"
  {
    SingleTally(t);
    SmallCounts();
  }

  /** The summary of a run whose one test failed: its detail block is the
      only one. */
  lemma FailingReport(t: TestRecord)
    requires IsFailedTest(t)
    ensures t.Finished?
    ensures ReportOf([t]).exitCode == 1
    ensures ReportOf([t]).successMessage == "0 successes"
    ensures ReportOf([t]).errorMessage == "1 failure"
    ensures ReportOf([t]).withWithout == "with"
    ensures ReportOf([t]).details == [Detail(t)]
  {
    FailedTestIsFinished(t);
    SingleTally(t);
    var r := ReportOf([t]);
    assert r.errors == [t] && r.successCount == 0;
    SmallCounts();
    assert r.details == Details([t]);
    assert Details([t])[0] == Detail(t);
  }

  /** Both programs run cleanly and print the same stdout (the lines
      `"string"`, `2`, ... say): the fixture succeeds, the summary reads
      "1 success" and "0 failures", and the exit code is 0. */
  lemma MatchingOutputPasses(tc: Toolchain, read: string -> string, file: string)
    requires IsTsFixture(file)
    requires tc.glinka(read(file)).err == None && tc.glinka(read(file)).stderr == ""
    requires tc.node(tc.transpile(read(file))).err == None
    requires tc.node(tc.transpile(read(file))).stderr == ""
    requires tc.node(tc.glinka(read(file)).stdout) == tc.node(tc.transpile(read(file)))
    ensures var tests := Records(tc, read, Fixtures([file]), |Fixtures([file])|);
            && tests == [FixtureRecord(tc, read, file)]
            && tests[0].Status() == SuccessStatus
            && ReportOf(tests).exitCode == 0
            && ReportOf(tests).successMessage == "1 success"
            && ReportOf(tests).errorMessage == "0 failures"
            && ReportOf(tests).withWithout == "without"
  {
    SingleFixture(file);
    var t := FixtureRecord(tc, read, file);
    RecordsAt(tc, read, [file], 1, 0);
    assert Records(tc, read, [file], 1) == [t];
    RecordClassified(tc, read, file);
    PassingReport(t);
  }

  /** The reference program prints `4` and the subject program `5`: the
      fixture fails, the summary reads "0 successes" and "1 failure" and
      shows both outputs, and the exit code is 1. */
  lemma DifferentOutputFails(tc: Toolchain, read: string -> string, file: string)
    requires IsTsFixture(file)
    requires tc.glinka(read(file)).err == None && tc.glinka(read(file)).stderr == ""
    requires tc.node(tc.transpile(read(file))) == ExecResult(None, "4\n", "")
    requires tc.node(tc.glinka(read(file)).stdout) == ExecResult(None, "5\n", "")
    ensures var tests := Records(tc, read, Fixtures([file]), |Fixtures([file])|);
            && tests == [FixtureRecord(tc, read, file)]
            && tests[0].Status() == FailureStatus
            && ReportOf(tests).exitCode == 1
            && ReportOf(tests).successMessage == "0 successes"
            && ReportOf(tests).errorMessage == "1 failure"
            && ReportOf(tests).withWithout == "with"
            && |ReportOf(tests).details| == 1
            && ReportOf(tests).details[0].file == file
            && ReportOf(tests).details[0].tscOutput == Text("4\n")
            && ReportOf(tests).details[0].glinkaOutput == Text("5\n")
  {
    SingleFixture(file);
    var t := FixtureRecord(tc, read, file);
    RecordsAt(tc, read, [file], 1, 0);
    assert Records(tc, read, [file], 1) == [t];
    assert "4\n" != "5\n" by { assert "4\n"[0] != "5\n"[0]; }
    RecordClassified(tc, read, file);
    FailingReport(t);
  }
}
