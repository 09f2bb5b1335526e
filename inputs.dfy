/** Input resolution: find, read and parse the suite file, then apply the
    flag overrides to it. Reading the file and parsing its text are done by
    code outside this model, given here as the functions `read` and `parse`. */
module Inputs {
  import opened Status
  import opened Suite
  import opened Flags
  import opened Trace

  const ProtoRequired := InvalidArgumentError("Flag --proto is required.")
  const ParseFailed := InvalidArgumentError("Failed to parse input proto")

  /** What input resolution returns: the first failing check in the fixed
      order (flag present, file read, text parsed), or else the parsed suite
      with its runtime resolved against the flags. */
  function ResolvedInputs(flags: Flags, read: string -> StatusOr<string>, parse: string -> Option<TestSuite>,
                  isValid: LogLevel -> bool): (r: StatusOr<TestSuite>)
    ensures flags.proto == "" ==> r == Error(ProtoRequired)
    ensures flags.proto != "" && !read(flags.proto).IsOk() ==> r == Error(read(flags.proto).error)
    ensures flags.proto != "" && read(flags.proto).IsOk() && parse(read(flags.proto).value).None? ==>
              r == Error(ParseFailed)
    ensures r.IsOk() <==>
              flags.proto != "" && read(flags.proto).IsOk() && parse(read(flags.proto).value).Some?
    ensures r.IsOk() ==>
              var parsed := parse(read(flags.proto).value).value;
              r.value.tests == parsed.tests && r.value.runtime == Resolve(parsed.runtime, flags, isValid)
  {
    if flags.proto == "" then Error(ProtoRequired)
    else match read(flags.proto)
      case Error(e) => Error(e)
      case Value(bytes) =>
        match parse(bytes)
        case None => Error(ParseFailed)
        case Some(parsed) => Value(TestSuite(Resolve(parsed.runtime, flags, isValid), parsed.tests))
  }

  /** The interactions input resolution has with the outside world: the
      read only with a --proto path, the parse only after a successful read,
      and the dump only for a resolved suite whose effective level is TRACE. */
  function InputEvents(flags: Flags, read: string -> StatusOr<string>, parse: string -> Option<TestSuite>,
                       isValid: LogLevel -> bool): seq<Event>
  {
    if flags.proto == "" then []
    else match read(flags.proto)
      case Error(_) => [ReadFile(flags.proto)]
      case Value(text) =>
        [ReadFile(flags.proto), ParseText(text)] +
        match ResolvedInputs(flags, read, parse, isValid)
        case Error(_) => []
        case Value(suite) => if suite.runtime.minLogLevel == TRACE then [DumpConfig(suite)] else []
  }

  /** ParseInputs: the checks in order, each returning early, then the
      overrides applied through the message's setters, then the diagnostic
      dump when the effective level is TRACE. */
  method ParseInputs(flags: Flags, read: string -> StatusOr<string>, parse: string -> Option<TestSuite>,
                     isValid: LogLevel -> bool)
    returns (r: StatusOr<TestSuite>, trace: seq<Event>)
    ensures r == ResolvedInputs(flags, read, parse, isValid)
    ensures trace == InputEvents(flags, read, parse, isValid)
    // No read and no parse without a --proto path; no parse after a failed read.
    ensures flags.proto == "" ==> trace == []
    ensures flags.proto != "" && !read(flags.proto).IsOk() ==> trace == [ReadFile(flags.proto)]
    ensures flags.proto != "" && read(flags.proto).IsOk() ==>
              |trace| >= 2 && trace[..2] == [ReadFile(flags.proto), ParseText(read(flags.proto).value)]
    ensures flags.proto != "" && read(flags.proto).IsOk() && parse(read(flags.proto).value).None? ==>
              trace == [ReadFile(flags.proto), ParseText(read(flags.proto).value)]
    // The dump happens exactly when the suite is returned with effective level TRACE.
    ensures !r.IsOk() ==> forall e <- trace :: !e.DumpConfig?
    ensures r.IsOk() ==>
              trace[2..] == if r.value.runtime.minLogLevel == TRACE then [DumpConfig(r.value)] else []
    ensures forall e <- trace :: e.ReadFile? || e.ParseText? || e.DumpConfig?
  {
    trace := [];
    if flags.proto == "" {
      return Error(ProtoRequired), trace;
    }
    trace := trace + [ReadFile(flags.proto)];
    var cfgBytes := read(flags.proto);
    if !cfgBytes.IsOk() {
      return Error(cfgBytes.error), trace;
    }
    trace := trace + [ParseText(cfgBytes.value)];
    var parsed := parse(cfgBytes.value);
    if parsed.None? {
      return Error(ParseFailed), trace;
    }
    var tests := new SuiteMessage(parsed.value);
    // Apply flag overrides.
    if flags.plugin != "" {
      tests.SetWasmPath(flags.plugin);
    }
    if flags.config != "" {
      tests.SetConfigPath(flags.config);
    }
    if isValid(flags.minLogLevel) {
      tests.SetMinLogLevel(flags.minLogLevel);
    }
    if tests.runtime.minLogLevel == TRACE {
      trace := trace + [DumpConfig(tests.Value())];
    }
    r := Value(tests.Value());
  }
}
