/** `run`: discover the fixtures, run both pipelines on each in turn, keep
    one slot per fixture in `tests`, and hand the completed slots to the
    summary. */
module Driver {
  import opened Wrappers
  import opened Sequences
  import opened Discovery
  import opened Pipelines
  import opened Outcome
  import opened Summary

  /** The record written into a fixture's slot once both pipelines are done;
      `read(file)` stands for the text of `${testDir}/${file}`. */
  function FixtureRecord(tc: Toolchain, read: string -> string, file: string): (t: TestRecord)
    ensures t.Done() && t.file == file
    ensures t.nodeOutput == RunNode(tc, read(file)) && t.glinkaOutput == RunGlinka(tc, read(file))
    ensures t.Status() == Verdict(t.nodeOutput, t.glinkaOutput)
  {
    var code := read(file);
    var nodeOutput := RunNode(tc, code);
    var glinkaOutput := RunGlinka(tc, code);
    Finished(file, Verdict(nodeOutput, glinkaOutput), nodeOutput, glinkaOutput)
  }

  /** The first `n` slots of `tests` once fixtures `files[..n]` have run. */
  function Records(tc: Toolchain, read: string -> string, files: seq<string>, n: nat): (tests: seq<TestRecord>)
    requires n <= |files|
    ensures |tests| == n
  {
    if n == 0 then [] else Records(tc, read, files, n - 1) + [FixtureRecord(tc, read, files[n - 1])]
  }

  /** One write into `tests[index]`: where, and what the slot held before. */
  datatype Overwrite = Overwrite(slot: int, before: TestRecord)

  /** The writes `run` makes into `tests` for the first `n` fixtures. */
  function Overwrites(files: seq<string>, n: nat): (ws: seq<Overwrite>)
    requires n <= |files|
    ensures |ws| == n
  {
    if n == 0 then [] else Overwrites(files, n - 1) + [Overwrite(n - 1, Running(files[n - 1]))]
  }

  /** Slot i holds the finished record of fixture i. */
  lemma {:induction false} RecordsAt(tc: Toolchain, read: string -> string, files: seq<string>, n: nat, i: nat)
    requires i < n <= |files|
    ensures Records(tc, read, files, n)[i] == FixtureRecord(tc, read, files[i])
  {
    if i < n - 1 {
      RecordsAt(tc, read, files, n - 1, i);
    }
  }

  /** Slot i is written once, as write i, while it holds the placeholder of
      fixture i: no slot is written twice and none after it is done. */
  lemma {:induction false} OverwritesAt(files: seq<string>, n: nat, i: nat)
    requires i < n <= |files|
    ensures Overwrites(files, n)[i] == Overwrite(i, Running(files[i]))
  {
    if i < n - 1 {
      OverwritesAt(files, n - 1, i);
    }
  }

  /** Every fixture got the success status. */
  predicate AllSucceeded(tests: seq<TestRecord>)
  {
    forall i :: 0 <= i < |tests| ==> tests[i].Status() == SuccessStatus
  }

  /** `!tests.some(({ done }) => !done)`. */
  predicate AllDone(tests: seq<TestRecord>)
  {
    forall j :: 0 <= j < |tests| ==> tests[j].Done()
  }

  lemma RecordsDone(tc: Toolchain, read: string -> string, files: seq<string>, n: nat)
    requires n <= |files|
    ensures AllDone(Records(tc, read, files, n))
  {
    forall j | 0 <= j < n ensures Records(tc, read, files, n)[j].Done() {
      RecordsAt(tc, read, files, n, j);
    }
  }

  /** A slot's record is counted as failed exactly when its status is not
      the success status. */
  lemma RecordClassified(tc: Toolchain, read: string -> string, file: string)
    ensures IsFailedTest(FixtureRecord(tc, read, file)) <==> FixtureRecord(tc, read, file).Status() != SuccessStatus
  {
    StatusesClassified();
  }

  /** Once all fixtures have run, every slot names its fixture, and the exit
      code of the summary is 0 exactly when every fixture succeeded. */
  lemma CompletedSlots(tc: Toolchain, read: string -> string, files: seq<string>)
    ensures forall j :: 0 <= j < |files| ==> Records(tc, read, files, |files|)[j].file == files[j]
    ensures ReportOf(Records(tc, read, files, |files|)).exitCode == 0 <==>
              AllSucceeded(Records(tc, read, files, |files|))
  {
    var tests := Records(tc, read, files, |files|);
    ExitCodeOfTally(tests);
    forall j | 0 <= j < |tests|
      ensures tests[j].file == files[j]
      ensures IsFailedTest(tests[j]) <==> tests[j].Status() != SuccessStatus
    {
      RecordsAt(tc, read, files, |files|, j);
      RecordClassified(tc, read, files[j]);
    }
  }

  /** One pass of the loop of `run` up to the redraw: reserve the slot
      `index` with a placeholder, run the fixture, and overwrite that slot
      with the finished record. */
  method FillSlot(tests: seq<TestRecord>, tc: Toolchain, read: string -> string, file: string)
    returns (tests': seq<TestRecord>, ghost write: Overwrite)
    ensures tests' == tests + [FixtureRecord(tc, read, file)]
    ensures write == Overwrite(|tests|, Running(file))
  {
    var index := |tests|;
    tests' := tests + [Running(file)];
    var record := FixtureRecord(tc, read, file);
    write := Overwrite(index, tests'[index]);
    tests' := tests'[index := record];
  }

  /** The call of `showSummaryAndExit` once every slot is done. */
  method Finish(tests: seq<TestRecord>, tc: Toolchain, read: string -> string, files: seq<string>)
    returns (report: Option<Report>, exitCode: int)
    requires tests == Records(tc, read, files, |files|)
    ensures report == Some(ReportOf(tests))
    ensures exitCode == 0 || exitCode == 1
    ensures exitCode == 0 <==> AllSucceeded(tests)
  {
    CompletedSlots(tc, read, files);
    var r := ShowSummaryAndExit(tests);
    report, exitCode := Some(r), r.exitCode;
  }

  /** `run` over the directory listing, with file contents given by `read`
      and the compilers and runtime by `tc`. It returns the final `tests`
      array, the summary when it was printed (not at all for an empty
      corpus, where the loop never reaches it), and the exit status; the
      ghost `replaced` lists the writes into slots, with what each slot
      held before. */
  method Run(listing: seq<string>, read: string -> string, tc: Toolchain)
    returns (tests: seq<TestRecord>, report: Option<Report>, exitCode: int,
             ghost replaced: seq<Overwrite>)
    ensures tests == Records(tc, read, Fixtures(listing), |Fixtures(listing)|)
    ensures report == if |tests| == 0 then None else Some(ReportOf(tests))
    ensures exitCode == 0 <==> AllSucceeded(tests)
    ensures exitCode == 0 || exitCode == 1
    ensures replaced == Overwrites(Fixtures(listing), |Fixtures(listing)|)
  {
    var files := GetFiles(listing);
    tests := [];
    replaced := [];
    report := None;
    exitCode := 0;
    var i := 0;
    while i < |files|
      invariant 0 <= i <= |files|
      invariant 0 < i ==> i < |files|
      invariant tests == Records(tc, read, files, i)
      invariant replaced == Overwrites(files, i)
    {
      ghost var write;
      tests, write := FillSlot(tests, tc, read, files[i]);
      assert Overwrites(files, i + 1) == Overwrites(files, i) + [write];
      replaced := replaced + [write];
      RecordsDone(tc, read, files, i + 1);

      if |tests| == |files| && AllDone(tests) {
        report, exitCode := Finish(tests, tc, read, files);
        return;
      }
      i := i + 1;
    }
  }

  /** A subject compile that reports only diagnostic text fails the fixture,
      and the summary shows that text verbatim beside the missing program. */
  lemma SubjectDiagnosticReported(tc: Toolchain, read: string -> string, file: string)
    requires tc.glinka(read(file)).err == None && |tc.glinka(read(file)).stderr| > 0
    ensures IsFailedTest(FixtureRecord(tc, read, file))
    ensures Detail(FixtureRecord(tc, read, file)).glinkaOutput == Text(tc.glinka(read(file)).stderr)
    ensures Detail(FixtureRecord(tc, read, file)).glinkaJs == None
  {
    SkippedSubjectFails(tc, read(file));
  }
}
