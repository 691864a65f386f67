/** The per-fixture verdict and the records kept in the `tests` array. */
module Outcome {
  import opened Wrappers
  import opened JsText
  import opened Pipelines

  const RunningStatus: string := "Running..."
  const FailureStatus: string := "\U{2715} Failure"
  const SuccessStatus: string := "\U{2714} Success"

  /** The failure condition of `run`: an error or stderr output on either
      side, or different stdout. */
  predicate Failed(nodeOutput: Output, glinkaOutput: Output)
  {
    || nodeOutput.err.Some?
    || |nodeOutput.stderr| > 0
    || glinkaOutput.err.Some?
    || |glinkaOutput.stderr| > 0
    || nodeOutput.stdout != glinkaOutput.stdout
  }

  /** The status a finished fixture gets: Success exactly when both sides
      are free of errors and stderr output and print the same stdout. */
  function Verdict(nodeOutput: Output, glinkaOutput: Output): (status: string)
    ensures status == FailureStatus || status == SuccessStatus
    ensures status == SuccessStatus <==>
              && nodeOutput.err == None && glinkaOutput.err == None
              && nodeOutput.stderr == "" && glinkaOutput.stderr == ""
              && nodeOutput.stdout == glinkaOutput.stdout
  {
    if Failed(nodeOutput, glinkaOutput) then FailureStatus else SuccessStatus
  }

  /** A subject compile that stops the pipeline always fails the fixture,
      whatever the reference pipeline did. */
  lemma SkippedSubjectFails(tc: Toolchain, code: string)
    requires CompileFailed(tc.glinka(code))
    ensures Verdict(RunNode(tc, code), RunGlinka(tc, code)) == FailureStatus
  {
  }

  /** When a fixture succeeds, both sides report the same diagnostic: their
      common stdout. */
  lemma SuccessDiagnosticsAgree(nodeOutput: Output, glinkaOutput: Output)
    requires Verdict(nodeOutput, glinkaOutput) == SuccessStatus
    ensures GetError(nodeOutput) == GetError(glinkaOutput) == Text(nodeOutput.stdout)
  {
  }

  /** The `tests` array entries: the placeholder pushed before the
      pipelines run, and the record that replaces it (`done: true`). */
  datatype TestRecord =
    | Running(file: string)
    | Finished(file: string, status: string, nodeOutput: Output, glinkaOutput: Output)
  {
    /** The `status` field; a placeholder's is "Running...". */
    function Status(): string
    {
      if Running? then RunningStatus else status
    }

    /** The `done` field. */
    predicate Done()
    {
      Finished?
    }
  }

  /** The summary's test: `status.indexOf("Failure") > -1`. */
  predicate IsFailureStatus(status: string)
  {
    Contains(status, "Failure")
  }

  predicate IsFailedTest(t: TestRecord)
  {
    IsFailureStatus(t.Status())
  }

  predicate IsPassedTest(t: TestRecord)
  {
    !IsFailedTest(t)
  }

  /** Of the three statuses, only the failure one contains "Failure". */
  lemma StatusesClassified()
    ensures IsFailureStatus(FailureStatus)
    ensures !IsFailureStatus(SuccessStatus)
    ensures !IsFailureStatus(RunningStatus)
  {
    assert OccursAt(FailureStatus, "Failure", 2) by {
      assert FailureStatus[2..9] == "Failure";
    }
    assert SuccessStatus[0] != 'F' && SuccessStatus[1] != 'F';
    assert 'F' !in SuccessStatus;
    NotContainsWithoutHead(SuccessStatus, "Failure");
    assert 'F' !in RunningStatus;
    NotContainsWithoutHead(RunningStatus, "Failure");
  }

  /** The summary counts a fixture as failed exactly when the verdict
      found it failed. */
  lemma VerdictClassified(nodeOutput: Output, glinkaOutput: Output)
    ensures IsFailureStatus(Verdict(nodeOutput, glinkaOutput)) <==> Failed(nodeOutput, glinkaOutput)
  {
    StatusesClassified();
  }

  /** A placeholder is never counted as a failure, so every record the
      summary lists as an error carries both pipelines' outputs. */
  lemma FailedTestIsFinished(t: TestRecord)
    requires IsFailedTest(t)
    ensures t.Finished?
  {
    StatusesClassified();
  }
}
