# glinka integration runner, modelled in Dafny

glinka is a TypeScript compiler. Its integration harness, `integration/runner.js`, does three things:

- It takes every `.ts` fixture in `integration/tests`.
- It compiles each fixture twice: once with the TypeScript library (the reference pipeline) and once with the glinka executable (the subject pipeline).
- It runs both outputs under node and compares what they print.

A fixture *succeeds* when neither side reports an error or any stderr output and both print the same stdout. Once every fixture has run, the harness prints a tally and the details of each failure. It exits with 0 when nothing failed and with 1 otherwise.

The model follows the structure of the script, one module per part:

- `Discovery` holds `getFiles` and Node's POSIX `path.extname`. `GetFiles` is a loop pushing into `result`. It is proved equal to a filter of the listing. Lemmas give that filter's membership, multiplicity and order.
- `Pipelines` holds `runNode`, `runGlinka` with its skip rule, and `getError`. These are pure functions over an abstract `Toolchain`.
- `Outcome` holds the verdict expression of `run`, the status strings, and the records of the `tests` array. A record is either a "Running..." placeholder or a finished record.
- `Summary` holds `showSummaryAndExit`:
  - `Tally` is the loop over `tests`;
  - `ShowSummaryAndExit` builds the messages, the detail blocks and the exit code;
  - both are proved against the specification function `ReportOf`.
- `Driver` holds `run`. It is a loop that reserves a slot per fixture, fills it, and hands the completed array to the summary. A ghost trace records every write into a slot.
- `Scenarios` holds whole runs over one fixture: one whose two programs agree, and one whose programs print `4` and `5`.
- `Sequences`, `JsText` and `Wrappers` are the helpers these modules share. They cover:
  - order-preserving filtering;
  - `String.prototype.indexOf` and `lastIndexOf`;
  - the decimal text of a number in a template literal;
  - `Option`.

The compilers, node and the file system are given to the model as functions:

- `Toolchain.transpile` stands for `ts.transpileModule(..).outputText`;
- `Toolchain.node` and `Toolchain.glinka` stand for the `{ err, stdout, stderr }` that `runCommand` resolves to;
- `read` stands for `fs.readFileSync`;
- the directory listing is an input sequence.

Because these are functions, running the model twice over the same corpus gives the same statuses. `Driver.Run`'s postcondition fixes every result as a function of its inputs. For the script itself this holds only when the TypeScript library, the glinka executable, node and the fixture programs are all deterministic.

Points about the script worth stating:

- The fixtures run one after another. Each iteration of the `for` loop awaits its fixture. Only the two pipelines of one fixture are started together.
- The reference pipeline always runs node on the transpiled text. There is no check that the transpile was clean.
- The verdict looks at `err` and `stderr` of both pipeline results. If the subject compile fails, the subject result is that compile result.
- There is no separate "pending" state. A slot is created as "Running..." and overwritten once with the finished record.
- The summary is not awaited after all fixtures. The guard `tests.length === files.length && every slot done` is evaluated after each fixture, and it first holds after the last one. `Driver.Run` proves that it then holds on the finished array.
- For an empty corpus the loop body never runs, so the summary is never printed. The process then ends with status 0. `Driver.Run` returns `None` for the report and 0 for the exit code.

## Model

| member | source | states |
|---|---|---|
| Discovery.TrimTrailingSlashes | integration/runner.js:15 | The path with its trailing '/' characters removed: a prefix that does not end in '/', followed in the path only by '/' |
| Discovery.LastComponent | integration/runner.js:15 | The last component of the path, which holds no '/' |
| Discovery.LastComponentOfPath | integration/runner.js:15 | The last component is the trimmed path's suffix after its last '/', or the whole trimmed path when it has none |
| Discovery.Extname | integration/runner.js:15 | The extension is empty or starts with its only '.', and holds no '/' |
| Discovery.ExtnameOfLastComponent | integration/runner.js:15 | The extension is a suffix of the last component, so with `Extname`'s shape it begins at the last '.'; it is non-empty exactly when the last component has a '.' after its first character and is not ".." |
| Discovery.IsTsFixture | integration/runner.js:15 | The filter of `getFiles`: extension exactly ".ts" |
| Discovery.Fixtures | integration/runner.js:11-20 | The result of `getFiles`: the listing's entries with extension ".ts", in listing order |
| Discovery.EntryFilter | integration/runner.js:15 | A directory entry is kept exactly when it ends in ".ts" with at least one character before it |
| Discovery.KeepsFixture | integration/runner.js:15 | "loops.ts" is kept |
| Discovery.KeepsDeclarationFile | integration/runner.js:15 | "a.d.ts" is kept (the extension is the suffix after the last dot) |
| Discovery.DropsDotFile | integration/runner.js:15 | ".ts" has no extension and is dropped |
| Discovery.DropsOtherExtension | integration/runner.js:15 | "runner.js" is dropped |
| Discovery.ParentHasNoExtension | integration/runner.js:15 | ".." has no extension |
| Discovery.DoubleDotExtension | integration/runner.js:15 | "..ts" has extension ".ts": only the last '.' counts |
| Discovery.DotFileInDirectoryHasNoExtension | integration/runner.js:15 | "a/.ts" has no extension: only the last component is looked at |
| Discovery.FixturesOfListing | integration/runner.js:11-20 | The kept entries are exactly the listing's ".ts" entries, each as often as in the listing, so none is added or duplicated |
| Discovery.GetFiles | integration/runner.js:11-20 | The loop returns the order-preserving filter of the listing by extension ".ts" |
| Sequences.Filter | integration/runner.js:14-16 | The entries that pass a test, in input order: what the push loops of `getFiles` and of the summary's tally build |
| Sequences.FilterStep | integration/runner.js:14-16 | One more entry extends the kept sequence by that entry exactly when the test holds |
| Sequences.FilterMembership | integration/runner.js:14-16 | An element is kept iff it occurs in the input and passes the test |
| Sequences.FilterMultiplicity | integration/runner.js:14-16 | A kept element occurs as often as in the input; a dropped one not at all |
| Sequences.FilterEmpty | integration/runner.js:75-81 | Nothing is kept iff no element passes the test |
| Sequences.FilterPartition | integration/runner.js:75-81 | Filtering by a test and by its negation splits the input's length between the two |
| Sequences.Positions | integration/runner.js:14-16 | One input position per kept element |
| Sequences.FilterAt | integration/runner.js:14-16 | The k-th kept element is the input element at the k-th kept position |
| Sequences.PositionsIncrease | integration/runner.js:14-16 | Kept positions are in range and strictly increasing, so relative order is preserved |
| Sequences.PositionsComplete | integration/runner.js:14-16 | Every input position that passes the test is among the kept positions |
| JsText.IndexOfFrom | integration/runner.js:76 | The first occurrence at or after `from`, or -1 when there is none |
| JsText.IndexOf | integration/runner.js:76 | -1 iff there is no occurrence; otherwise the first occurrence |
| JsText.Contains | integration/runner.js:76 | `s.indexOf(sub) > -1` |
| JsText.NotContainsWithoutHead | integration/runner.js:76 | A text without the first character of `sub` does not contain `sub` |
| JsText.LastIndex | integration/runner.js:15 | The last position of a character, or -1 when absent |
| JsText.Decimal | integration/runner.js:85 | The text of a number is nonempty, all digits, with no leading zero |
| JsText.DecimalRoundTrip | integration/runner.js:85 | Reading the text of n gives back n |
| JsText.DecimalInjective | integration/runner.js:85 | Different numbers have different texts |
| Pipelines.WithJs | integration/runner.js:50 | `{ js, ...result }` keeps the result's process fields and sets `js` |
| Pipelines.Bare | integration/runner.js:60 | A compile result returned as is has no `js` and keeps its process fields |
| Pipelines.CompileFailed | integration/runner.js:59 | The skip test: the compile has an error or non-empty stderr |
| Pipelines.RunNode | integration/runner.js:46-51 | The reference pipeline records the transpiled text as `js` and its result is node's result on that text |
| Pipelines.RunGlinka | integration/runner.js:57-64 | A compile with an error or with stderr text is returned unchanged without `js`; otherwise the compiler's stdout is `js` and node's result on it is the result |
| Pipelines.SkipIgnoresRuntime | integration/runner.js:57-60 | A skipped subject pipeline does not depend on the runtime at all |
| Pipelines.GetError | integration/runner.js:66-68 | The diagnostic is the error if present, else a non-empty stderr, else stdout |
| Pipelines.SkippedCompileDiagnostic | integration/runner.js:57-68 | A skipped subject pipeline is reported by its compile error or else its compile stderr |
| Outcome.Failed | integration/runner.js:134-138 | The failure condition: an error or stderr output on either side, or different stdout |
| Outcome.Verdict | integration/runner.js:134-141 | The status is Success or Failure, and Success iff both errors are absent, both stderrs empty and both stdouts equal |
| Outcome.SkippedSubjectFails | integration/runner.js:57-60 | A fixture whose subject compile stopped the pipeline always fails |
| Outcome.SuccessDiagnosticsAgree | integration/runner.js:66-68 | For a successful fixture both diagnostics are the common stdout |
| Outcome.IsFailureStatus | integration/runner.js:76 | The summary's test that a status contains "Failure" |
| Outcome.IsFailedTest | integration/runner.js:76 | The test `test.status.indexOf("Failure") > -1` of the tally loop |
| Outcome.IsPassedTest | integration/runner.js:78-79 | The else branch of that test, where `successCount` is incremented |
| Outcome.StatusesClassified | integration/runner.js:76 | The failure status contains "Failure"; the success and "Running..." statuses do not |
| Outcome.VerdictClassified | integration/runner.js:134-141 | The summary counts a fixture as failed iff the verdict's failure condition held |
| Outcome.FailedTestIsFinished | integration/runner.js:101 | A test counted as an error is a finished record that carries both outputs |
| Summary.Failures | integration/runner.js:72-77 | `errors`: the tests whose status contains "Failure", in the order of `tests` |
| Summary.Passes | integration/runner.js:73-80 | The tests counted by `successCount` |
| Summary.CountMessage | integration/runner.js:83-89 | "1 <singular>" for a count of 1, else "<n> <plural>" |
| Summary.SuccessMessage | integration/runner.js:83-85 | The success message of a count |
| Summary.ErrorMessage | integration/runner.js:87-89 | The failure message of a count |
| Summary.Headline | integration/runner.js:91 | The line "Ran <count> tests: <successMessage>, <errorMessage>" |
| Summary.Closing | integration/runner.js:111 | The closing line with "with" or "without" |
| Summary.MessagesOfCount | integration/runner.js:83-89 | "1 success"/"1 failure" exactly for a count of 1, "<n> successes"/"<n> failures" otherwise, and different counts give different messages |
| Summary.CountMessageInjective | integration/runner.js:83-89 | The singular/plural message determines its count |
| Summary.Detail | integration/runner.js:101-106 | A detail block names the file and shows both generated programs and both `getError` diagnostics |
| Summary.Details | integration/runner.js:101-108 | One detail block per error, in order |
| Summary.FailuresFinished | integration/runner.js:101 | Every error carries both outputs |
| Summary.ReportOf | integration/runner.js:70-113 | The specification of the summary: the errors, the success count, the messages, the lines printed, the detail blocks and the exit code |
| Summary.TallyPartition | integration/runner.js:71-81 | `successCount + errors.length == tests.length` |
| Summary.ErrorsAreFailures | integration/runner.js:75-81 | The errors are exactly the tests whose status contains "Failure", with their multiplicities and in the order of `tests` |
| Summary.ExitCodeOfTally | integration/runner.js:93-113 | The exit code is 0 iff no test failed, is otherwise 1, and "with" is chosen iff it is 1 |
| Summary.Tally | integration/runner.js:71-81 | The loop collects exactly the failed tests in order and counts the rest |
| Summary.ShowSummaryAndExit | integration/runner.js:70-114 | The printed data and exit code are those of the specification report, with successes plus errors equal to the count and exit code 1 iff there are errors |
| Driver.FixtureRecord | integration/runner.js:126-149 | A finished record of the fixture whose outputs are the two pipelines on its text and whose status is their verdict |
| Driver.Records | integration/runner.js:122-149 | One slot per fixture run so far |
| Driver.RecordsAt | integration/runner.js:143-149 | Slot i holds the finished record of fixture i |
| Driver.Overwrites | integration/runner.js:123-143 | One slot write per fixture run so far |
| Driver.OverwritesAt | integration/runner.js:123-143 | Write i goes to slot i while it holds fixture i's placeholder, so each slot is written once and never after it is done |
| Driver.AllDone | integration/runner.js:155 | `!tests.some(({ done }) => !done)`: every slot is done |
| Driver.RecordsDone | integration/runner.js:148-155 | Every slot filled so far is done |
| Driver.RecordClassified | integration/runner.js:76 | A fixture's record counts as failed iff its status is not Success |
| Driver.CompletedSlots | integration/runner.js:155-156 | Once every fixture has run, slot i names fixture i and the summary exits with 0 iff every status is Success |
| Driver.FillSlot | integration/runner.js:123-149 | The array grows by exactly this fixture's finished record, written over its own placeholder at `index` |
| Driver.Finish | integration/runner.js:155-156 | The summary of the completed array, with exit 0 iff every fixture succeeded |
| Driver.Run | integration/runner.js:116-158 | One finished slot per fixture in listing order; the summary iff the corpus is non-empty; exit 0 iff all succeeded, else 1; the write trace of one write per slot |
| Driver.SubjectDiagnosticReported | integration/runner.js:57-106 | A subject compile that only writes to stderr fails the fixture, and its detail shows that text verbatim with no generated program |
| Scenarios.SingleFixture | integration/runner.js:11-20 | A listing of one fixture yields that fixture |
| Scenarios.SingleTally | integration/runner.js:71-81 | One test is an error iff it failed, else one success |
| Scenarios.SmallCounts | integration/runner.js:83-89 | The messages for counts 0 and 1 |
| Scenarios.PassingReport | integration/runner.js:70-113 | One passing test: "1 success", "0 failures", "without", exit 0 |
| Scenarios.FailingReport | integration/runner.js:70-113 | One failing test: "0 successes", "1 failure", "with", its detail block, exit 1 |
| Scenarios.MatchingOutputPasses | integration/runner.js:116-158 | Equal clean output on both sides: Success, exit 0 |
| Scenarios.DifferentOutputFails | integration/runner.js:116-158 | Outputs `4` and `5`: Failure, exit 1, both outputs shown |

## Left out

- `runCommand` (integration/runner.js:22-37), the `exec` callback and stdin writes are process I/O. Their results are the given `Toolchain.node` and `Toolchain.glinka`.
- The `console.log(code)` in `runCommand` is not modelled.
- `ts.transpileModule` is a foreign library. It is the abstract function `Toolchain.transpile`, assumed not to throw.
- `fs.readdirSync` and `fs.readFileSync` are not modelled as reads. The listing is an input sequence, and file contents come from the function `read`. A failing read, which would abort the run, is not modelled.
- The order `readdirSync` returns is taken as given. The model keeps it and imposes no sort.
- Console output is presentation only, and no `Report` field stands for it:
  - `console.clear`;
  - the "Glinka: Running integration tests..." line;
  - `console.table`;
  - the "Summary of errors:" header;
  - the separator line of `process.stdout.columns` dashes.
- `Report` holds the headline and the closing line as text. It holds each detail block (integration/runner.js:102-106) as the fields that block prints, not as its lines. So the text formatting of the blocks is not modelled:
  - the "  In <file>..." and "    Tsc output: ..." prefixes;
  - a missing `js` is held as `None`, where the script prints "undefined";
  - an `ExecError` is held as `Raised(error)`, where the script prints the Error's `toString()`.
- `process.exit` is returned as `exitCode`. Because the guard first holds after the last fixture, the loop ends there too.
- `Promise.all` runs the two pipelines of one fixture together. Their results do not depend on each other, so the model computes them one after the other.
- The `tests` array is a sequence value that `FillSlot` and `Run` reassign. The push of the placeholder and the overwrite at `index` are modelled as building new sequences, not as updating one array in place. Nothing else holds a reference to `tests`, so no aliasing is lost.
- The fixture programs under `integration/tests` and `examples` are test data. They are not part of this model.
- `ExecError` keeps only the error's text. The fields of Node's `Error` object (code, signal, killed) are never inspected by the script.
- JsText.Decimal: gives plain decimal digits. JavaScript's exponent notation for numbers of 1e21 and beyond is not modelled. No corpus can reach such counts.
- The headline always says "tests", even for a single test ("Ran 1 tests"). That is what the script prints, and the model keeps it.
- A per-fixture timeout is not modelled, because the script has none. A stalled compiler or node process stalls the run.
