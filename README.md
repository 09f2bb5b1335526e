# Wasm plugin test runner: orchestration model

This project models the orchestration core of the service-extensions dynamic
test runner (`plugins/test/runner_main.cc`). The runner reads a text-format
`TestSuite` message named by `--proto` and lets the `--plugin`, `--config` and
`--min_log_level` flags override the suite's runtime settings. It then
registers one gtest test per (Wasm engine, test case) pair, runs them all, and
exits 1 on any failure and 0 otherwise.

Modules:

- `Status`: absl status codes, `Status`, `StatusOr` (a value or a non-OK status) and `Option`.
- `Suite`: the suite data (`LogLevel`, `Runtime`, `TestCase`, `TestSuite`), the gtest registration record, and
  `SuiteMessage`, the parsed message that the runner updates in place through its runtime setters.
- `Flags`: the flag values and `Resolve`, the per-field override rule, with its lemmas.
- `Trace`: the observable interactions (file read, text parse, config dump, test run, error print), recorded in order.
- `Inputs`: `ParseInputs` (the early-return check chain, then the in-place overrides, then the dump) and
  `ResolvedInputs`, the function that specifies its result.
- `Matrix`: `Expand`, the engine-major cross product, with its lemmas; `RegisterTests`, the nested registration
  loop, proved equal to it.
- `Runner`: the status of a gtest run, `RunTests`, the namespace-level main (`SamplesMain`), and the process entry
  point (`ProcessMain`) with its exit-code mapping.

Code that `runner_main.cc` calls but does not define is taken as parameters:

- `read: string -> StatusOr<string>` stands for `ReadDataFile`.
- `parse: string -> Option<TestSuite>` stands for `TextFormat::ParseFromString`.
- `isValid: LogLevel -> bool` stands for the generated `LogLevel_IsValid`.
- `engines: seq<string>` stands for `getWasmEngines()`.
- `runAllTests: seq<Registration> -> int` stands for `RUN_ALL_TESTS()`, applied to what was registered.

Behaviour the code does not have, which the model does not add:

- The code does not treat an `UNDEFINED` level override as absent. It replaces the level whenever `LogLevel_IsValid`
  accepts the flag's value. The flag defaults to `UNDEFINED` (line 42). So if `UNDEFINED` is valid, a run without
  `--min_log_level` sets the suite's level to `UNDEFINED` (`Flags.DefaultLevelFlagOverrides`).
- Registered names are gtest suite `HttpTest_<engine>` plus the test's own name, not `<engine>::<test>`.
- An empty engine list or an empty test list is not an error. The matrix is just empty.
- Test names are not checked for being empty or duplicated. Distinctness of the registered names is proved under the
  assumption that engines and test names are distinct (`Matrix.ExpandIdsDistinct`).
- There is no separate exit code for configuration errors. Every non-OK status exits 1.

## Model

| member | source | states |
|---|---|---|
| `Suite.SuiteMessage.SetWasmPath` | plugins/test/runner_main.cc:78-80 | sets the runtime's wasm path and leaves every other runtime field and the test list unchanged |
| `Suite.SuiteMessage.SetConfigPath` | plugins/test/runner_main.cc:81-83 | sets the runtime's config path and leaves everything else unchanged |
| `Suite.SuiteMessage.SetMinLogLevel` | plugins/test/runner_main.cc:84-86 | sets the runtime's minimum log level and leaves everything else unchanged |
| `Flags.ResolvePrecedence` | plugins/test/runner_main.cc:74-86 | each field on its own: a non-empty plugin path gives the effective wasm path and an empty one keeps the suite's; the same for the config path; a level accepted by `isValid` gives the effective level and a rejected one keeps the suite's; the other runtime fields never change |
| `Flags.ResolveIdempotent` | plugins/test/runner_main.cc:74-86 | applying the same overrides twice gives the same runtime as applying them once |
| `Flags.ResolveFieldsIndependent` | plugins/test/runner_main.cc:78-86 | two flag sets that agree on one override give the same effective value for that field, whatever the other flags are |
| `Flags.ResolveWithoutOverrides` | plugins/test/runner_main.cc:78-86 | with no path overrides and a level that `isValid` rejects, the runtime is unchanged |
| `Flags.DefaultLevelFlagOverrides` | plugins/test/runner_main.cc:84-86 | with every flag at its default (level `UNDEFINED`, line 42), if `isValid(UNDEFINED)` holds then the effective level is `UNDEFINED` and nothing else changes |
| `Inputs.ResolvedInputs` | plugins/test/runner_main.cc:58-91 | the checks run in a fixed order. An empty `--proto` gives `InvalidArgument("Flag --proto is required.")` whatever the file and parser would do. A failed read gives the read's own status. A failed parse gives `InvalidArgument("Failed to parse input proto")`. The result is a suite exactly when all three checks pass; that suite keeps the parsed test list and has the resolved runtime |
| `Inputs.ParseInputs` | plugins/test/runner_main.cc:58-91 | the in-place setters produce exactly `ResolvedInputs`. Without `--proto` nothing is read or parsed, after a failed read nothing is parsed, and after a failed parse nothing else happens. The config is dumped only on success, exactly when the effective level is `TRACE`, and the dump is the returned suite |
| `Matrix.Row` | plugins/test/runner_main.cc:96-104 | the inner loop registers as many tests for an engine as the suite has |
| `Matrix.RowAt` | plugins/test/runner_main.cc:96-104 | one engine's registrations follow suite order. Entry k has suite `HttpTest_<engine>`, test k's name, and a fixture of (engine, runtime, test k) |
| `Matrix.ExpandLength` | plugins/test/runner_main.cc:95-105 | the matrix has exactly (number of engines) times (number of tests) registrations |
| `Matrix.ExpandAt` | plugins/test/runner_main.cc:95-105 | engine-major, test-minor order: position i * (number of tests) + j holds engine i's registration of test j, with the shared runtime |
| `Matrix.ExpandAllAt` | plugins/test/runner_main.cc:95-105 | the same for every engine i and test j at once, so no engine is registered with only part of the tests |
| `Matrix.ExpandOrigin` | plugins/test/runner_main.cc:95-105 | every registration is the entry of a listed engine and a listed test, so nothing outside the cross product is registered |
| `Matrix.ExpandIdsDistinct` | plugins/test/runner_main.cc:95-105 | with distinct engine ids and distinct test names, no two registrations share both suite name and test name |
| `Matrix.RegisterTests` | plugins/test/runner_main.cc:95-105 | the nested loop registers exactly `Expand(engines, tests, runtime)`, in that order. So by `ExpandLength` and `ExpandAllAt` it makes (number of engines) * (number of tests) registrations, with engine i's registration of test j at position i * (number of tests) + j |
| `Runner.TestsStatus` | plugins/test/runner_main.cc:106-116 | the run's status is OK exactly when gtest returns 0, and is `Unknown("tests failed")` otherwise |
| `Runner.RunTests` | plugins/test/runner_main.cc:93-117 | runs gtest once, on exactly the expanded matrix. Reports OK exactly when gtest returns 0, and `Unknown("tests failed")` otherwise |
| `Runner.FinalStatusOk` | plugins/test/runner_main.cc:119-129 | the final status is OK exactly when the inputs resolved and gtest returned 0 on the resolved suite's matrix. An input error is the final status unchanged |
| `Runner.SamplesMain` | plugins/test/runner_main.cc:119-129 | returns the final status. Its interactions are exactly those of input resolution followed, only when resolution succeeded, by one test run. When input resolution fails, it returns that error unchanged and no test run happens. When it succeeds, the single test run comes last and covers the resolved suite's matrix |
| `Runner.ExitCode` | plugins/test/runner_main.cc:133-139 | the exit code is 0 or 1, and it is 1 exactly when the final status is not OK |
| `Runner.ProcessMain` | plugins/test/runner_main.cc:133-139 | exits with `ExitCode` of the final status, which is 0 exactly when the inputs resolved and gtest returned 0. Its interactions are exactly those of the namespace-level main, followed by printing the status when, and only when, it is not OK |
| `Runner.MissingProtoExitsOne` | plugins/test/runner_main.cc:62-65 | without `--proto`, the final status is the missing-flag error and the exit code is 1, whatever the file system, parser, engines and gtest would do |

## Left out

- Command-line parsing (`absl::ParseCommandLine`), `InitGoogleTest`, and the flag (un)parsing hooks `AbslParseFlag`/`AbslUnparseFlag` (lines 28-56). These delegate to generated enum code that is not part of this model, so the flag values are taken as already parsed (`Flags.Flags`).
- `runner.pb.h` is not part of this model. The `LogLevel` enumerators are taken to be UNDEFINED, TRACE, DEBUG, INFO, WARN and ERROR. `LogLevel_IsValid` is the parameter `isValid`, with nothing assumed about it. Integer enum values outside the declared ones are not representable.
- Runtime fields other than the wasm path, config path and level are one opaque field (`rest`). Test case contents other than the name are one opaque field (`scenario`).
- `ReadDataFile` and `TextFormat::ParseFromString` are parameters. What a failed parse leaves in the half-filled message is not modelled, since that message is never returned.
- `DebugString` formatting and the text written to stdout and stderr: the trace records which suite was dumped and which status was printed, not the characters.
- gtest's global registry is modelled as the sequence of registrations that `RUN_ALL_TESTS` receives. The C-string conversion of names (truncation at an embedded NUL) is not modelled.
- How gtest runs each registered test, isolates failures and combines outcomes into its return code is not modelled. The return code is `runAllTests(registrations)`.
- `DynamicTest`, `DynamicFixture` and the plugin runtime: the fixture is recorded as the (engine, runtime, test) triple it is built from, and is never run.
- The commented-out benchmark block (lines 108-114) is not code.
