/** Running the matrix and turning the outcome into the process exit code.
    gtest's run is outside the model: `runAllTests` gives its return code
    for the registrations it is handed. */
module Runner {
  import opened Status
  import opened Suite
  import opened Flags
  import opened Trace
  import opened Inputs
  import opened Matrix

  const TestsFailed := UnknownError("tests failed")

  /** The status RunTests reports for gtest's return code. */
  function TestsStatus(returnCode: int): (s: Status)
    ensures s.IsOk() <==> returnCode == 0
    ensures s == if s.IsOk() then OkStatus() else TestsFailed
  {
    var testsOk := returnCode == 0;
    if testsOk then OkStatus() else TestsFailed
  }

  /** RunTests: register the engine x test matrix, run it once, and report OK
      exactly when gtest returns 0. */
  method RunTests(cfg: TestSuite, engines: seq<string>, runAllTests: seq<Registration> -> int)
    returns (s: Status, trace: seq<Event>)
    ensures trace == [RunAllTests(Expand(engines, cfg.tests, cfg.runtime))]
    ensures s.IsOk() <==> runAllTests(Expand(engines, cfg.tests, cfg.runtime)) == 0
    ensures s == if s.IsOk() then OkStatus() else TestsFailed
  {
    var regs := RegisterTests(engines, cfg);
    var returnCode := runAllTests(regs);
    trace := [RunAllTests(regs)];
    s := TestsStatus(returnCode);
  }

  /** The status the runner ends with: the input error if resolution failed,
      otherwise the status of running the resolved suite's matrix. */
  function FinalStatus(flags: Flags, read: string -> StatusOr<string>, parse: string -> Option<TestSuite>,
                       isValid: LogLevel -> bool, engines: seq<string>,
                       runAllTests: seq<Registration> -> int): Status
  {
    match ResolvedInputs(flags, read, parse, isValid)
    case Error(e) => e
    case Value(cfg) => TestsStatus(runAllTests(Expand(engines, cfg.tests, cfg.runtime)))
  }

  /** The final status is OK exactly when the inputs resolved and gtest
      returned 0 on the resolved suite's matrix; an input error comes
      through unchanged. */
  lemma FinalStatusOk(flags: Flags, read: string -> StatusOr<string>, parse: string -> Option<TestSuite>,
                      isValid: LogLevel -> bool, engines: seq<string>, runAllTests: seq<Registration> -> int)
    ensures var inputs := ResolvedInputs(flags, read, parse, isValid);
            FinalStatus(flags, read, parse, isValid, engines, runAllTests).IsOk() <==>
              inputs.IsOk() && runAllTests(Expand(engines, inputs.value.tests, inputs.value.runtime)) == 0
    ensures var inputs := ResolvedInputs(flags, read, parse, isValid);
            !inputs.IsOk() ==> FinalStatus(flags, read, parse, isValid, engines, runAllTests) == inputs.error
  {
  }

  /** The interactions of the namespace-level main: those of input
      resolution, then one test run on the resolved suite's matrix if
      resolution succeeded. */
  function MainEvents(flags: Flags, read: string -> StatusOr<string>, parse: string -> Option<TestSuite>,
                      isValid: LogLevel -> bool, engines: seq<string>): seq<Event>
  {
    InputEvents(flags, read, parse, isValid) +
    match ResolvedInputs(flags, read, parse, isValid)
    case Error(_) => []
    case Value(cfg) => [RunAllTests(Expand(engines, cfg.tests, cfg.runtime))]
  }

  /** The namespace-level main: resolve the inputs and, only if that
      succeeded, run the tests. */
  method SamplesMain(flags: Flags, read: string -> StatusOr<string>, parse: string -> Option<TestSuite>,
                     isValid: LogLevel -> bool, engines: seq<string>, runAllTests: seq<Registration> -> int)
    returns (res: Status, trace: seq<Event>)
    ensures res == FinalStatus(flags, read, parse, isValid, engines, runAllTests)
    ensures trace == MainEvents(flags, read, parse, isValid, engines)
    ensures var inputs := ResolvedInputs(flags, read, parse, isValid);
            !inputs.IsOk() ==> res == inputs.error && forall e <- trace :: !e.RunAllTests?
    ensures var inputs := ResolvedInputs(flags, read, parse, isValid);
            inputs.IsOk() ==>
              |trace| >= 1 &&
              trace[|trace| - 1] == RunAllTests(Expand(engines, inputs.value.tests, inputs.value.runtime)) &&
              forall e <- trace[..|trace| - 1] :: !e.RunAllTests?
  {
    var cfg, inputTrace := ParseInputs(flags, read, parse, isValid);
    trace := inputTrace;
    if !cfg.IsOk() {
      return cfg.error, trace;
    }
    var runTrace;
    res, runTrace := RunTests(cfg.value, engines, runAllTests);
    trace := trace + runTrace;
    assert trace[..|trace| - 1] == inputTrace;
  }

  /** The process exit code for the final status. */
  function ExitCode(res: Status): (code: int)
    ensures code == 0 || code == 1
    ensures code == 1 <==> !res.IsOk()
  {
    if !res.IsOk() then 1 else 0
  }

  /** The process entry point: run, print a failing status to stderr, and
      exit 1 on any failure, 0 on success. */
  method ProcessMain(flags: Flags, read: string -> StatusOr<string>, parse: string -> Option<TestSuite>,
                     isValid: LogLevel -> bool, engines: seq<string>, runAllTests: seq<Registration> -> int)
    returns (exitCode: int, trace: seq<Event>)
    ensures var res := FinalStatus(flags, read, parse, isValid, engines, runAllTests);
            trace == MainEvents(flags, read, parse, isValid, engines) + (if res.IsOk() then [] else [PrintError(res)])
    ensures var res := FinalStatus(flags, read, parse, isValid, engines, runAllTests);
            exitCode == ExitCode(res) &&
            (!res.IsOk() <==> |trace| >= 1 && trace[|trace| - 1] == PrintError(res))
    ensures var inputs := ResolvedInputs(flags, read, parse, isValid);
            exitCode == 0 <==>
              inputs.IsOk() && runAllTests(Expand(engines, inputs.value.tests, inputs.value.runtime)) == 0
  {
    var res;
    res, trace := SamplesMain(flags, read, parse, isValid, engines, runAllTests);
    FinalStatusOk(flags, read, parse, isValid, engines, runAllTests);
    if !res.IsOk() {
      trace := trace + [PrintError(res)];
      return 1, trace;
    }
    return 0, trace;
  }

  /** Without --proto the final status is the missing-flag error and the
      process exits 1, whatever the other collaborators would do. */
  lemma MissingProtoExitsOne(flags: Flags, read: string -> StatusOr<string>, parse: string -> Option<TestSuite>,
                             isValid: LogLevel -> bool, engines: seq<string>, runAllTests: seq<Registration> -> int)
    requires flags.proto == ""
    ensures FinalStatus(flags, read, parse, isValid, engines, runAllTests) == ProtoRequired
    ensures ExitCode(FinalStatus(flags, read, parse, isValid, engines, runAllTests)) == 1
  {
  }
}
