/** The two pipelines run on each fixture: the reference one (transpile
    with the TypeScript library, then run the JavaScript under node) and
    the subject one (compile with the glinka executable, then run its
    output under node unless the compile reported a problem). */
module Pipelines {
  import opened Wrappers

  /** The error object `child_process.exec` hands its callback: present
      when the process could not be spawned or exited with a non-zero
      status. Only its text is ever shown. */
  datatype ExecError = ExecError(message: string)

  /** `{ err, stdout, stderr }`, what `runCommand` resolves to; `err` is
      null (None) when the process exited cleanly. */
  datatype ExecResult = ExecResult(err: Option<ExecError>, stdout: string, stderr: string)

  /** A pipeline's result: `{ js, ...result }`, or the bare compile result
      (without `js`) when the subject pipeline stops after compiling. */
  datatype Output = Output(js: Option<string>, err: Option<ExecError>, stdout: string, stderr: string)
  {
    /** The process fields, without `js`. */
    function Process(): ExecResult
    {
      ExecResult(err, stdout, stderr)
    }
  }

  /** The external collaborators, taken as given: `ts.transpileModule(..)
      .outputText`, `runCommand(_, "node")` and `runCommand(_, glinkaExe)`. */
  datatype Toolchain = Toolchain(
    transpile: string -> string,
    node: string -> ExecResult,
    glinka: string -> ExecResult)

  /** `{ js, ...result }`. */
  function WithJs(js: string, r: ExecResult): (o: Output)
    ensures o.js == Some(js) && o.Process() == r
  {
    Output(Some(js), r.err, r.stdout, r.stderr)
  }

  /** A compile result returned as it is, so it has no `js`. */
  function Bare(r: ExecResult): (o: Output)
    ensures o.js == None && o.Process() == r
  {
    Output(None, r.err, r.stdout, r.stderr)
  }

  /** The skip test of `runGlinka`: `err !== null || stderr?.length`. */
  predicate CompileFailed(c: ExecResult)
  {
    c.err.Some? || |c.stderr| > 0
  }

  /** `runNode`: the reference pipeline always executes what the TypeScript
      library produced, and records that text as `js`. */
  function RunNode(tc: Toolchain, code: string): (o: Output)
    ensures o.js == Some(tc.transpile(code))
    ensures o.Process() == tc.node(o.js.value)
  {
    var js := tc.transpile(code);
    WithJs(js, tc.node(js))
  }

  /** `runGlinka`: a compile with an error or with anything on stderr is the
      pipeline's result as it stands; otherwise the compiler's stdout is the
      program that node runs. */
  function RunGlinka(tc: Toolchain, code: string): (o: Output)
    ensures CompileFailed(tc.glinka(code)) ==> o.js == None && o.Process() == tc.glinka(code)
    ensures !CompileFailed(tc.glinka(code)) ==>
              o.js == Some(tc.glinka(code).stdout) && o.Process() == tc.node(o.js.value)
  {
    var compilation := tc.glinka(code);
    if CompileFailed(compilation) then Bare(compilation)
    else
      var js := compilation.stdout;
      WithJs(js, tc.node(js))
  }

  /** A skipped subject pipeline never consults the runtime: two toolchains
      that agree on the compile give the same result whatever their node. */
  lemma SkipIgnoresRuntime(tc1: Toolchain, tc2: Toolchain, code: string)
    requires tc1.glinka(code) == tc2.glinka(code)
    requires CompileFailed(tc1.glinka(code))
    ensures RunGlinka(tc1, code) == RunGlinka(tc2, code)
  {
  }

  /** What `getError` returns: the error object or a stream's text. */
  datatype Diagnostic = Raised(error: ExecError) | Text(text: string)

  /** `getError`: the error when there is one, else stderr when it is
      non-empty, else stdout. */
  function GetError(o: Output): (d: Diagnostic)
    ensures o.err.Some? ==> d == Raised(o.err.value)
    ensures o.err.None? && |o.stderr| > 0 ==> d == Text(o.stderr)
    ensures o.err.None? && |o.stderr| == 0 ==> d == Text(o.stdout)
  {
    match o.err
    case Some(e) => Raised(e)
    case None => if |o.stderr| > 0 then Text(o.stderr) else Text(o.stdout)
  }

  /** A skipped subject compile is reported by what made it stop: its error,
      or else its diagnostic text verbatim. */
  lemma SkippedCompileDiagnostic(tc: Toolchain, code: string)
    requires CompileFailed(tc.glinka(code))
    ensures GetError(RunGlinka(tc, code)) ==
              if tc.glinka(code).err.Some? then Raised(tc.glinka(code).err.value)
              else Text(tc.glinka(code).stderr)
  {
  }
}
