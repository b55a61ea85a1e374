/**
 * The payloads that the test framework publishes on `/suite/start`,
 * `/suite/end`, `/test/pass` and `/test/fail`.  The reporters only read them;
 * the transient annotations the JavaScript reporters attach to suites are
 * kept in side tables keyed by `SuiteId` instead.
 */
module Events {
  import opened Wrappers

  /** The identity of a suite object, the key of the reporters' side tables. */
  type SuiteId = nat

  /**
   * A suite as the reporters see it.  `parent` is `None` for the
   * framework's implicit top-level suite.  `numTests` and `numFailedTests`
   * are the counts the framework reports at `/suite/end`.
   */
  datatype Suite = Suite(
    id: SuiteId,
    name: string,
    parent: Option<SuiteId>,
    numTests: nat,
    numFailedTests: nat)

  /**
   * The error attached to a failed test.  `constructorName` is
   * `error.constructor.name` (`None` when the error has no constructor);
   * `toStringTag` is the `X` in the `[object X]` string that
   * `Object.prototype.toString` yields for the error; `stack` is
   * `error.stack` (`None` when undefined).
   */
  datatype TestError = TestError(
    constructorName: Option<string>,
    toStringTag: string,
    message: string,
    stack: Option<string>)

  /**
   * A finished test.  `message` is the test object's own `message` field,
   * which the XML reporter reads instead of `error.message`.
   * `timeElapsed` is in integer milliseconds.
   */
  datatype Test = Test(
    name: string,
    timeElapsed: int,
    error: Option<TestError>,
    message: string,
    parent: SuiteId)
}
