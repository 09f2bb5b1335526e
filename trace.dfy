/** The runner's observable interactions with the outside world, recorded in
    the order they happen. */
module Trace {
  import opened Status
  import opened Suite

  datatype Event =
    | ReadFile(path: string)               // the suite file is read
    | ParseText(text: string)              // the file's text is handed to the text-format parser
    | DumpConfig(suite: TestSuite)         // the final configuration is printed to stdout
    | RunAllTests(registered: seq<Registration>) // gtest runs everything registered so far
    | PrintError(status: Status)           // the failing status is printed to stderr
}
