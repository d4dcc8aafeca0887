/**
  The parts of the test runner's object model that the reporters read, as
  immutable values. Identity and tree shape are static; results, durations,
  states and aggregated errors change while tests run and are read from a
  `World` snapshot taken at the moment the reporter looks at them.
*/
module VitestModel {
  import opened Wrappers

  type Id = string

  /** A structured error: message, stack/details, and the diff sides. */
  datatype TestError = TestError(
    message: Option<string>,
    stack: Option<string>,
    actual: Option<string>,
    expected: Option<string>)

  /** The state of a test case's result, or of a suite or module. */
  datatype State = Pending | Passed | Failed | Skipped

  /** `TestCase.result()`: a state and, when recorded, the case's own errors. */
  datatype TestResult = TestResult(state: State, errors: Option<seq<TestError>>)

  /** A child of a module or suite: a test case or a nested suite. */
  datatype Node =
    | Case(id: Id, name: string)
    | Suite(id: Id, name: string, children: seq<Node>)

  /** A test file; `relativeModuleId` may be missing. */
  datatype TestModule = TestModule(id: Id, relativeModuleId: Option<string>, children: seq<Node>)

  datatype LogKind = Stdout | Stderr

  /** A captured console entry (`UserConsoleLog`): its stream and its text. */
  datatype ConsoleLog = ConsoleLog(kind: LogKind, content: string)

  /**
    What the runner reports about tasks at one moment. A key that is absent
    stands for `null`/`undefined`:
    - `results`: `TestCase.result()` per case id;
    - `durations`: `TestCase.diagnostic()?.duration` per case id;
    - `states`: `state()` per suite or module id;
    - `errors`: `errors()` per suite or module id.
  */
  datatype World = World(
    results: map<Id, TestResult>,
    durations: map<Id, nat>,
    states: map<Id, State>,
    errors: map<Id, seq<TestError>>)
}
