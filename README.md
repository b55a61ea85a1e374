# Intern reporters in Dafny

A model of two of Intern's test reporters. Each reporter subscribes to the
events the test framework publishes (`start`, `/suite/start`, `/suite/end`,
`/test/pass` and `/test/fail`) and updates a small amount of module state as
they arrive:

- `lib/reporters/html.js` (module `Html`, file `html.dfy`) keeps running
  counts of suites, tests and failures and a nesting level. It appends one
  row to the report table per suite and per test. It closes a suite's row at
  the suite's end and re-renders a summary row. The rows are abstract
  `Row` records with a class name, cells and left padding. A duration cell
  holds the milliseconds and shows them as `formatDuration` renders them; the
  tests-passed cell holds the two counts and shows them as `testInfo` is
  built.
  The module's variables are the fields of the class `HtmlReporter`.
- `lib/reporters/xml.js` (module `Xml`, file `xml.dfy`) grows a JUnit-style
  tree of mutable `XmlNode` objects in place. The root is `testsuites`.
  Each suite adds a `testsuite` node and each test a `testcase` node, plus
  a `failure` node when the test failed. A suite's end sets its
  attributes. The root suite's end emits the tree. The module's variables
  are the fields of the class `XmlReporter`. A ghost depth map lists the
  nodes of the report; none of them is its own child and no node has two
  parents, so the nodes form a forest.

Supporting modules:

- `Strings` (`strings.dfy`) covers the JavaScript string operations the
  reporters use: `String(n)` for integers with its parser, and
  `split`/`join` on one character, each proved to undo the other.
- `Events` (`events.dfy`) holds the suite, test and error payloads.
- `Wrappers` (`wrappers.dfy`) holds `Option`.

The `_startTick`, `_htmlReportNode` and `_xmlReportNode` annotations that
the handlers attach to suite objects become maps keyed by suite id. The clock
(`new Date().getTime()`) becomes a `now` parameter of each handler.

A handler that would throw a `TypeError` returns `thrown == true` rather
than having a precondition. Its contract states the state exactly as the
JavaScript leaves it at the throw point. For example:

- `/suite/start` before `start` has already counted the suite and stored
  its start tick.
- `/suite/end` for the skipped `main` suite, which has no row, changes
  nothing.

The cases that throw are:

- a suite start or test before `start` in the HTML reporter;
- the end of a suite that has no row, which is always the case for the
  skipped `main` suite, since html.js has no special case for it there;
- an XML suite start when there is no report;
- an XML suite or test whose node is missing;
- an XML root suite end with no report.

Two behaviours of the code are kept as written.

- `formatDuration` does not reduce seconds modulo 60. From one minute on,
  the milliseconds field goes negative: 61000 ms renders as
  `1:61.-60000`.
- The HTML reporter adds every suite's `numTests` and `numFailedTests` to
  the totals at that suite's end, nested suites included. With the
  framework's counts including nested suites, a nested suite's tests are
  counted once for it and once more for each enclosing suite;
  `Html.NestedSuitesTotals` works through such a run.

## Model

| member | source | states |
|---|---|---|
| Html.Padded | lib/reporters/html.js:36-44 | a value already `size` long comes back unchanged; a shorter one becomes exactly `size` long, ends with the value, and every added character is `'0'` |
| Html.Pad | lib/reporters/html.js:36-44 | the `while` loop that prepends `'0'` returns `Padded(String(val), size)` |
| Html.PaddedDecimalValue | lib/reporters/html.js:36-44 | padding a decimal with zeroes keeps the number it denotes |
| Html.PaddedLength | lib/reporters/html.js:36-44 | a number below 10^k, padded to k digits, is exactly k characters long |
| Html.SplitDuration | lib/reporters/html.js:47-60 | minutes·60000 + seconds·1000 + milliseconds equals the duration, for every duration |
| Html.SplitDurationUnderAMinute | lib/reporters/html.js:52-60 | below 60000 ms: minutes 0, seconds `d/1000` in 0..59, milliseconds `d%1000` in 0..999 |
| Html.SplitDurationFromAMinute | lib/reporters/html.js:52-60 | from 60000 ms: seconds count whole minutes again (at least 60) and the milliseconds are negative |
| Html.FormatDuration | lib/reporters/html.js:47-62 | `formatDuration`; what it writes is stated by `FormatDurationUnderAMinute`, `FormatDurationRoundTrip` and `FormatDurationPastAMinute` |
| Html.FormatDurationUnderAMinute | lib/reporters/html.js:47-62 | below a minute the text is `"0:" + pad(seconds, 2) + "." + pad(ms, 3)`, eight characters |
| Html.FormatDurationRoundTrip | lib/reporters/html.js:47-62 | below a minute the text parses back to the duration |
| Html.FormatDurationPastAMinute | lib/reporters/html.js:52-62 | 61000 ms renders as `1:61.-60000` |
| Html.Indent | lib/reporters/html.js:166-168 | padding is set exactly when the level is non-zero, and is then level·18 px |
| Html.RowLevelOfIndent | lib/reporters/html.js:212-214 | the padding of a row gives back the level it was made at |
| Html.SuiteRow | lib/reporters/html.js:160-176 | the row `/suite/start` appends is an open suite row: class `suite` and one cell; `ClosedSuiteRow` gives its cells and level |
| Html.TestInfo | lib/reporters/html.js:183 | the tests-passed text; `TestInfoReadsBack` states what it holds |
| Html.TestInfoReadsBack | lib/reporters/html.js:183 | the info text splits at `/` into the passed count, which parses back, and `numTests + " tests passed"` |
| Html.CloseSuiteRow | lib/reporters/html.js:183-196 | the row after `/suite/end`; `ClosedOpenRow` and `ClosedSuiteRow` state its class and cells |
| Html.ClosedOpenRow | lib/reporters/html.js:183-196 | closing an open suite row keeps its cell and padding, appends the tests-passed cell and the duration cell, and marks it failed exactly when `numFailedTests != 0` |
| Html.ClosedSuiteRow | lib/reporters/html.js:160-196 | a closed suite row has the `failed` class exactly when `numFailedTests != 0`; its cells are the marked name, the tests-passed text and the duration; it keeps its level |
| Html.TestRow | lib/reporters/html.js:208-231 | the row `/test/pass` appends; `TestRowMarked` states its class and cells |
| Html.TestRowMarked | lib/reporters/html.js:208-231 | a test row has the `failed` class exactly when the test has an error; its middle cell is then the error's message and otherwise empty; its cells are name, message and duration at the current level |
| Html.SummaryTexts | lib/reporters/html.js:67-90 | the summary cells; `SummaryTextsReadBack` states what they hold |
| Html.SummaryTextsReadBack | lib/reporters/html.js:67-90 | four cells, blank before the first suite end; afterwards the suite, test and failure counts read back as numbers and the last cell is `formatDuration` of the run's duration |
| Html.HtmlReporter.constructor | lib/reporters/html.js:18-33 | all counters zero, `isFirstSuite` set, nothing started |
| Html.HtmlReporter.Start | lib/reporters/html.js:95-150 | an empty report table and a blank summary; the start tick is recorded; the counters are unchanged |
| Html.HtmlReporter.SuiteStart | lib/reporters/html.js:152-178 | the first `main` suite is skipped and clears `isFirstSuite` with no other change. Any other suite adds 1 to `suiteCount` and stores its start tick. After `start`, it also appends its row at the current level, records that row, and adds 1 to the level; before `start` it throws. The invariant keeps every recorded row an open suite row of one suite only |
| Html.HtmlReporter.SuiteEnd | lib/reporters/html.js:180-206 | throws, changing nothing, exactly when the suite has no row. Otherwise the suite's row is still open; it closes that row with the suite's elapsed time and lowers the level by 1. It adds exactly `numTests` and `numFailedTests` to the totals and leaves `suiteCount` alone. It sets the summary to the totals and the run's duration, and drops the suite's annotations |
| Html.HtmlReporter.TestPass | lib/reporters/html.js:208-235 | after `start`, it appends exactly the test's row at the current level and changes nothing else; before `start` it throws; `/test/fail` is the same handler |
| Html.StartEndKeepsLevel | lib/reporters/html.js:163-198 | a start followed by the same suite's end leaves the nesting level unchanged and counts the suite once, unless it is the skipped `main` |
| Html.MainSkippedOnce | lib/reporters/html.js:155-158 | of two suites named `main`, only the first is skipped; the second is counted |
| Html.NestedSuitesTotals | lib/reporters/html.js:199-200 | for `main` ⊃ `A` ⊃ `B` with two tests, one failed: 2 suites, 4 tests and 2 failures, level back at 0, and the end of `main` throws |
| Xml.XmlNode.CreateNode | lib/reporters/xml.js:25 | appends one fresh, empty child with the given tag and attributes and returns it; the node's other fields are unchanged |
| Xml.XmlNode.SetContent | lib/reporters/xml.js:87 | replaces the text content only |
| Xml.ObjectTag | lib/reporters/xml.js:72 | `Object.prototype.toString` yields `[object` and a space before the tag |
| Xml.StripClosingBracket | lib/reporters/xml.js:75 | one `]` at the very end is removed and nothing else; a string not ending in `]` is unchanged |
| Xml.ErrorTypeOf | lib/reporters/xml.js:66-80 | the failure type is never `Object` |
| Xml.ErrorType | lib/reporters/xml.js:66-80 | the successive reassignments of `errorType` end at `ErrorTypeOf(error)` |
| Xml.ErrorTypeFromConstructor | lib/reporters/xml.js:67-69 | a non-empty constructor name is the type, with `Object` read as `Error` |
| Xml.ErrorTypeFromTag | lib/reporters/xml.js:71-76 | without a constructor name, the type is the first space-separated word of `X]`, with one closing bracket stripped, and `Object` read as `Error` |
| Xml.ErrorTypeFromOneWordTag | lib/reporters/xml.js:71-80 | for a one-word tag `X`, the type is `X` itself, with `Object` read as `Error` |
| Xml.StackText | lib/reporters/xml.js:87 | the failure's content, the stack or `''`; `XmlReporter.AddFailure` and `XmlReporter.TestPass` state where it goes |
| Xml.SecondsString | lib/reporters/xml.js:48 | `String(ms / 1000)`; `SecondsStringRoundTrip` states what it holds |
| Xml.SecondsStringRoundTrip | lib/reporters/xml.js:48 | the `time` text `String(ms / 1000)` parses back to exactly `ms`, for every integer `ms` |
| Xml.SuiteAttributes | lib/reporters/xml.js:44-49 | a suite node's attributes; `SuiteAttributesReadBack` states what they hold |
| Xml.SuiteAttributesReadBack | lib/reporters/xml.js:44-49 | a suite node gets exactly `name`, `tests`, `failures` and `time`. `tests` and `failures` are the decimal strings of the counts and parse back to them; `time` parses back to the elapsed milliseconds |
| Xml.TestAttributes | lib/reporters/xml.js:61-64 | a test node's attributes; `TestAttributesReadBack` states what they hold |
| Xml.TestAttributesReadBack | lib/reporters/xml.js:61-64 | a test node gets exactly `name` and `time`, and `time` parses back to `timeElapsed` |
| Xml.FailureAttributes | lib/reporters/xml.js:82-85 | a failure node's `type` and `message`; `ErrorTypeOf` and `XmlReporter.TestPass` state what they hold |
| Xml.XmlReporter.constructor | lib/reporters/xml.js:4 | no report yet and no annotations |
| Xml.XmlReporter.AddChild | lib/reporters/xml.js:25 | `createNode` on a node of the report: one fresh child with the given tag and attributes and no content or children is appended to that node, whose other fields stay as they were; the child sits one level deeper and the invariant still holds |
| Xml.XmlReporter.Start | lib/reporters/xml.js:7-9 | the report becomes a fresh `testsuites` node with no attributes, content or children |
| Xml.XmlReporter.SuiteStart | lib/reporters/xml.js:11-27 | a root suite adds nothing. Any other suite appends exactly one fresh, empty `testsuite` child, under its parent's node if the parent has one and otherwise under the report, and records the child and the start tick. No other node changes. The handler throws exactly when that parent node is null |
| Xml.XmlReporter.SuiteEnd | lib/reporters/xml.js:29-53 | a root suite's end emits the report and sets it to null, or throws when there is none. Any other suite's end sets its node's attributes to exactly `SuiteAttributes(suite, elapsed)`, changes no other node, and drops the suite's annotations. It throws, changing nothing, when the suite has no node |
| Xml.XmlReporter.TestPass | lib/reporters/xml.js:55-92 | appends exactly one fresh `testcase` child, carrying name and time, to the parent suite's node. That child has one `failure` child exactly when the test has an error, and none otherwise. The failure's `type` is `ErrorTypeOf(error)`, its `message` is `test.message`, and its content is the stack or `''`. No other node changes. It throws, changing nothing, when the parent suite has no node |
| Xml.XmlReporter.AddFailure | lib/reporters/xml.js:82-87 | the failure child appended to a test node, with its type, message and stack |
| Xml.NodeHasOneParent | lib/reporters/xml.js:25 | in the reporter's invariant a node is the child of one node only, at one position |
| Xml.ChildIsNotAncestor | lib/reporters/xml.js:25 | in the reporter's invariant no node is its own child and the report root is nobody's child |
| Strings.IntToString | lib/reporters/xml.js:46-47 | `String(n)` for an integer; `IntToStringRoundTrip` states what it holds |
| Strings.IntToStringRoundTrip | lib/reporters/xml.js:46-47 | `String(i)` parses back to `i` for every integer |
| Strings.Split | lib/reporters/xml.js:73 | `split` on one character gives at least one piece, at least two when the separator occurs, and no piece holds the separator |
| Strings.JoinSplit | lib/reporters/xml.js:73 | joining the pieces of a split gives back the string |
| Strings.SplitJoin | lib/reporters/xml.js:73 | pieces without the separator, once joined, split back into exactly those pieces |

## Left out

- DOM work (`createElement`, `innerHTML`, `className`, `style`, the header, heading and table nodes): UI. The model keeps abstract rows. Suite names are stored as text, so HTML markup in a name is not parsed.
- Only the latest summary is kept. When `start` runs more than once, the earlier summary tables stay in the document unchanged, and the model does not keep them.
- Fetching and injecting `html.css`: asynchronous I/O.
- The clock: it is a parameter. `renderSummary` reads the clock again after `/suite/end` has read it; the model uses one `now` for both.
- `console.log` of the XML header and `XmlNode.toString()`: output. `lib/XmlNode.js` is not part of this model. Its `createNode` and `setContent` are modelled as the append and assignment that the reporter relies on.
- The success-rate cell (`percentPassed`): floating-point `Math.round` that is NaN when no test ran. `SummaryTexts` gives the other four cells.
- Strings.IntToString: JavaScript numbers are doubles. `String(n)` gives the plain decimal digits only for |n| < 10^21, and the counters add exactly only up to 2^53. The model uses unbounded integers, so it covers `pad`, `formatDuration`, `testInfo`, the summary counts and the XML `tests` and `failures` attributes only within those ranges.
- Xml.SecondsString: `String(ms / 1000)` is modelled as exact decimal division. For integer milliseconds below 10^15 in magnitude, the shortest form of the nearest double is that exact decimal. Larger values and non-integer times are not covered.
- Attribute order: attributes are a map, so the insertion order that serialisation would show is not modelled.
- `test.message` and `error.message` are strings; an `undefined` message is not told apart from a defined one.
- JavaScript reflection: the error is a record with an optional constructor name and the `X` of its `[object X]` tag.
