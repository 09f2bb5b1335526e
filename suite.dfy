/** The runner's data: the test suite message (runtime settings and an
    ordered list of test cases) and the registrations made from it. */
module Suite {

  /** Minimum log severity of the runtime, UNDEFINED being the unset value. */
  datatype LogLevel = UNDEFINED | TRACE | DEBUG | INFO | WARN | ERROR

  /** The suite's runtime settings. `rest` stands for every other field of
      the runtime message, which the orchestration never reads or writes. */
  datatype Runtime = Runtime(wasmPath: string, configPath: string, minLogLevel: LogLevel, rest: string)

  /** One named test. `scenario` is its input and expectation data, which
      only the plugin runtime interprets. */
  datatype TestCase = TestCase(name: string, scenario: string)

  datatype TestSuite = TestSuite(runtime: Runtime, tests: seq<TestCase>)

  /** What the test fixture factory closes over: the engine, the suite's runtime and the test. */
  datatype Fixture = DynamicTest(engine: string, runtime: Runtime, test: TestCase)

  /** One call to gtest's RegisterTest: suite name, test name and fixture. */
  datatype Registration = Registration(suiteName: string, testName: string, fixture: Fixture)

  /** A parsed TestSuite message, which the runner updates in place through
      the setters of its runtime sub-message. */
  class SuiteMessage {
    var runtime: Runtime
    var tests: seq<TestCase>

    function Value(): TestSuite
      reads this
    {
      TestSuite(runtime, tests)
    }

    constructor (parsed: TestSuite)
      ensures Value() == parsed
    {
      runtime := parsed.runtime;
      tests := parsed.tests;
    }

    method SetWasmPath(path: string)
      modifies this
      ensures runtime == old(runtime).(wasmPath := path)
      ensures tests == old(tests)
    {
      runtime := runtime.(wasmPath := path);
    }

    method SetConfigPath(path: string)
      modifies this
      ensures runtime == old(runtime).(configPath := path)
      ensures tests == old(tests)
    {
      runtime := runtime.(configPath := path);
    }

    method SetMinLogLevel(level: LogLevel)
      modifies this
      ensures runtime == old(runtime).(minLogLevel := level)
      ensures tests == old(tests)
    {
      runtime := runtime.(minLogLevel := level);
    }
  }
}
