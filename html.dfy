/**
 * The HTML reporter (lib/reporters/html.js) with the DOM abstracted away:
 * the report table is a list of `Row` records, the summary table one
 * `Summary` record, and the clock a parameter of every handler.
 */
module Html {
  import opened Wrappers
  import opened Strings
  import opened Events

  /** Pixels of left padding per nesting level. */
  const IndentSize := 18

  /** The text `&#x25B8; ` puts before a suite's name: a small right-pointing triangle and a space. */
  const SuiteMarker := "\U{25B8} "

  // ---------------------------------------------------------------------
  // pad and formatDuration
  // ---------------------------------------------------------------------

  /** What `pad` returns for a value whose string form is `s`. */
  function Padded(s: string, size: int): (r: string)
    ensures |s| >= size ==> r == s
    ensures |s| < size ==> |r| == size && r[size - |s|..] == s
    ensures |s| < size ==> forall i :: 0 <= i < size - |s| ==> r[i] == '0'
  {
    if |s| >= size then s else Zeros(size - |s|) + s
  }

  /** `pad(val, size)`: prepends `'0'` to `String(val)` until it is `size` long. */
  method Pad(val: int, size: int) returns (padded: string)
    ensures padded == Padded(IntToString(val), size)
  {
    var s := IntToString(val);
    padded := s;
    while |padded| < size
      invariant |s| <= |padded|
      invariant padded == Zeros(|padded| - |s|) + s
      invariant |padded| > |s| ==> |padded| <= size
      decreases size - |padded|
    {
      padded := "0" + padded;
    }
  }

  /** A padded decimal still denotes the number it was made from. */
  lemma PaddedDecimalValue(n: nat, size: int)
    requires |NatToDecimal(n)| <= size
    ensures AllDigits(Padded(NatToDecimal(n), size))
    ensures DecimalValue(Padded(NatToDecimal(n), size)) == n
  {
    var s := NatToDecimal(n);
    DecimalValueOfNatToDecimal(n);
    DecimalValueLeadingZeros(size - |s|, s);
    if |s| == size {
      assert Zeros(0) + s == s;
    }
  }

  /** A number below `10^k`, padded to `k`, is exactly `k` characters long. */
  lemma PaddedLength(n: nat, k: nat)
    requires 1 <= k && n < Pow10(k)
    ensures |Padded(NatToDecimal(n), k)| == k
  {
    NatToDecimalLength(n, k);
  }

  /** The three fields `formatDuration` computes before rendering them. */
  datatype Duration = Duration(minutes: int, seconds: int, milliseconds: int)

  /**
   * The arithmetic of `formatDuration`.  Minutes and seconds are each
   * taken from the whole duration and the milliseconds are what is left, so
   * the three fields always add back up to the duration, but from one minute
   * on the seconds are not reduced modulo 60.
   */
  function SplitDuration(duration: int): (d: Duration)
    ensures d.minutes * 60000 + d.seconds * 1000 + d.milliseconds == duration
  {
    var minutes := if duration >= 60000 then duration / 60000 else 0;
    var seconds := if duration >= 1000 then duration / 1000 else 0;
    Duration(minutes, seconds, duration - minutes * 60000 - seconds * 1000)
  }

  /** `formatDuration(duration)`: `minutes:SS.mmm`. */
  function FormatDuration(duration: int): string {
    var d := SplitDuration(duration);
    IntToString(d.minutes) + ":" + Padded(IntToString(d.seconds), 2) + "." +
      Padded(IntToString(d.milliseconds), 3)
  }

  /** Below one minute the fields are the usual ones. */
  lemma SplitDurationUnderAMinute(duration: int)
    requires 0 <= duration < 60000
    ensures SplitDuration(duration) == Duration(0, duration / 1000, duration % 1000)
    ensures 0 <= duration / 1000 <= 59 && 0 <= duration % 1000 <= 999
  {
  }

  /** From one minute on, the seconds count whole minutes again and the milliseconds go negative. */
  lemma SplitDurationFromAMinute(duration: int)
    requires duration >= 60000
    ensures var d := SplitDuration(duration);
      && d.minutes == duration / 60000 >= 1
      && d.seconds == duration / 1000 >= 60
      && d.milliseconds == duration % 1000 - 60000 * d.minutes
      && d.milliseconds < 0
  {
  }

  /** Below one minute the rendering is `0:SS.mmm`, eight characters. */
  lemma FormatDurationUnderAMinute(duration: int)
    requires 0 <= duration < 60000
    ensures FormatDuration(duration) ==
      "0:" + Padded(NatToDecimal(duration / 1000), 2) + "." + Padded(NatToDecimal(duration % 1000), 3)
    ensures |FormatDuration(duration)| == 8
  {
    var d := SplitDuration(duration);
    SplitDurationUnderAMinute(duration);
    assert IntToString(d.minutes) == "0";
    assert IntToString(d.seconds) == NatToDecimal(duration / 1000);
    assert IntToString(d.milliseconds) == NatToDecimal(duration % 1000);
    PaddedLength(duration / 1000, 2);
    PaddedLength(duration % 1000, 3);
  }

  /** Reads a `0:SS.mmm` rendering back into milliseconds. */
  function ParseShortDuration(s: string): Option<int> {
    if |s| == 8 && s[0] == '0' && s[1] == ':' && s[4] == '.' && AllDigits(s[2..4]) && AllDigits(s[5..]) then
      Some(1000 * DecimalValue(s[2..4]) + DecimalValue(s[5..]))
    else
      None
  }

  /** How `0:SS.mmm` parses, for digit strings `secs` and `millis`. */
  lemma ParseShortDurationOf(secs: string, millis: string)
    requires |secs| == 2 && AllDigits(secs) && |millis| == 3 && AllDigits(millis)
    ensures ParseShortDuration("0:" + secs + "." + millis) == Some(1000 * DecimalValue(secs) + DecimalValue(millis))
  {
    var s := "0:" + secs + "." + millis;
    assert s[0] == '0' && s[1] == ':';
    assert s[2..4] == secs;
    assert s[4] == '.';
    assert s[5..] == millis;
  }

  /** Below one minute, the rendering determines the duration. */
  lemma FormatDurationRoundTrip(duration: int)
    requires 0 <= duration < 60000
    ensures ParseShortDuration(FormatDuration(duration)) == Some(duration)
  {
    FormatDurationUnderAMinute(duration);
    NatToDecimalLength(duration / 1000, 2);
    NatToDecimalLength(duration % 1000, 3);
    PaddedDecimalValue(duration / 1000, 2);
    PaddedDecimalValue(duration % 1000, 3);
    ParseShortDurationOf(Padded(NatToDecimal(duration / 1000), 2), Padded(NatToDecimal(duration % 1000), 3));
  }

  /** One minute and one second renders with 61 seconds and negative milliseconds. */
  lemma FormatDurationPastAMinute()
    ensures FormatDuration(61000) == "1:61.-60000"
  {
    var d := SplitDuration(61000);
    assert d == Duration(1, 61, -60000);
    assert IntToString(1) == "1";
    assert IntToString(61) == "61" by { AppendDigit(6, "6", 1); }
    assert IntToString(-60000) == "-60000" by {
      AppendDigit(6, "6", 0);
      AppendDigit(60, "60", 0);
      AppendDigit(600, "600", 0);
      AppendDigit(6000, "6000", 0);
    }
    assert Padded("61", 2) == "61" && Padded("-60000", 3) == "-60000";
  }

  /** Writing one more digit after the decimal form of `n`. */
  lemma AppendDigit(n: nat, s: string, digit: nat)
    requires 1 <= n && digit < 10 && NatToDecimal(n) == s
    ensures NatToDecimal(10 * n + digit) == s + [DigitChar(digit)]
  {
    assert (10 * n + digit) / 10 == n && (10 * n + digit) % 10 == digit;
  }

  // ---------------------------------------------------------------------
  // Rows
  // ---------------------------------------------------------------------

  /**
   * A `td` of the report table: a text; the test counts of a suite, which
   * the cell shows as `TestInfo` renders them; or a duration in
   * milliseconds, which the cell shows as `formatDuration` renders it.
   */
  datatype Cell = Text(text: string) | Info(numTests: int, numFailedTests: int) | Elapsed(ms: int)

  /** The text a cell shows. */
  function CellText(cell: Cell): string {
    match cell
    case Text(s) => s
    case Info(numTests, numFailedTests) => TestInfo(numTests, numFailedTests)
    case Elapsed(ms) => FormatDuration(ms)
  }

  /**
   * A `tr` of the report table: its class name, its cells in order, and the
   * left padding in pixels of its first cell (`None` when no padding is set).
   */
  datatype Row = Row(className: string, cells: seq<Cell>, padding: Option<int>)

  /** The padding of a row's first cell at nesting level `level`. */
  function Indent(level: int): (padding: Option<int>)
    ensures padding.Some? <==> level != 0
    ensures padding.Some? ==> padding.value == level * IndentSize
  {
    if level != 0 then Some(level * IndentSize) else None
  }

  /** The nesting level a row's padding stands for. */
  function RowLevel(row: Row): int {
    match row.padding
    case None => 0
    case Some(px) => px / IndentSize
  }

  /** The row `/suite/start` appends at nesting level `level`. */
  function SuiteRow(name: string, level: int): (row: Row)
    ensures OpenSuiteRow(row)
  {
    Row("suite", [Text(SuiteMarker + name)], Indent(level))
  }

  /** The text of the cell `/suite/end` appends: passed tests over all tests. */
  function TestInfo(numTests: int, numFailedTests: int): string {
    IntToString(numTests - numFailedTests) + "/" + IntToString(numTests) + " tests passed"
  }

  /** `row` after `/suite/end` has marked it and appended its two cells. */
  function CloseSuiteRow(row: Row, suite: Suite, elapsed: int): Row {
    Row(if suite.numFailedTests != 0 then row.className + " failed" else row.className,
        row.cells + [Info(suite.numTests, suite.numFailedTests), Elapsed(elapsed)],
        row.padding)
  }

  /** The row `/test/pass` (and `/test/fail`) appends at nesting level `level`. */
  function TestRow(test: Test, level: int): Row {
    Row(if test.error.Some? then "failed" else "",
        [Text(test.name), Text(if test.error.Some? then test.error.value.message else ""), Elapsed(test.timeElapsed)],
        Indent(level))
  }

  predicate HasSuffix(s: string, suffix: string) {
    |suffix| <= |s| && s[|s| - |suffix|..] == suffix
  }

  /** A suite row that `/suite/start` appended and no `/suite/end` has closed yet. */
  predicate OpenSuiteRow(row: Row) {
    row.className == "suite" && |row.cells| == 1
  }

  /** A row the stylesheet shows as failed: its class list holds `failed`. */
  predicate MarkedFailed(row: Row) {
    row.className == "failed" || HasSuffix(row.className, " failed")
  }

  /** The padding of every row gives back the nesting level it was made at. */
  lemma RowLevelOfIndent(level: int)
    ensures RowLevel(Row("", [], Indent(level))) == level
  {
  }

  /** A closed suite row is marked failed exactly when one of its tests failed, and carries its three cells. */
  lemma ClosedSuiteRow(name: string, level: int, suite: Suite, elapsed: int)
    ensures var r := CloseSuiteRow(SuiteRow(name, level), suite, elapsed);
      && (MarkedFailed(r) <==> suite.numFailedTests != 0)
      && |r.cells| == 3
      && CellText(r.cells[0]) == SuiteMarker + name
      && CellText(r.cells[1]) == TestInfo(suite.numTests, suite.numFailedTests)
      && CellText(r.cells[2]) == FormatDuration(elapsed)
      && RowLevel(r) == level
  {
  }

  /** Closing any open suite row marks it failed exactly when one of the suite's tests failed. */
  lemma ClosedOpenRow(row: Row, suite: Suite, elapsed: int)
    requires OpenSuiteRow(row)
    ensures var r := CloseSuiteRow(row, suite, elapsed);
      && (MarkedFailed(r) <==> suite.numFailedTests != 0)
      && r.cells == row.cells + [Info(suite.numTests, suite.numFailedTests), Elapsed(elapsed)]
      && r.padding == row.padding
  {
    var r := CloseSuiteRow(row, suite, elapsed);
    if suite.numFailedTests != 0 {
      assert HasSuffix(r.className, " failed");
    }
  }

  /** A test row is marked failed exactly when the test has an error, whose message fills the middle cell. */
  lemma TestRowMarked(test: Test, level: int)
    ensures var r := TestRow(test, level);
      && (MarkedFailed(r) <==> test.error.Some?)
      && |r.cells| == 3 && CellText(r.cells[0]) == test.name
      && CellText(r.cells[1]) == (if test.error.Some? then test.error.value.message else "")
      && CellText(r.cells[2]) == FormatDuration(test.timeElapsed)
      && RowLevel(r) == level
  {
  }

  /** The passed and total counts can be read back from the info cell. */
  lemma TestInfoReadsBack(numTests: int, numFailedTests: int)
    ensures var parts := Split(TestInfo(numTests, numFailedTests), '/');
      && |parts| == 2
      && ParseInt(parts[0]) == Some(numTests - numFailedTests)
      && parts[1] == IntToString(numTests) + " tests passed"
  {
    var passed := IntToString(numTests - numFailedTests);
    var rest := IntToString(numTests) + " tests passed";
    assert '/' !in passed;
    assert '/' !in rest;
    assert Join([passed, rest], '/') == TestInfo(numTests, numFailedTests);
    SplitJoin([passed, rest], '/');
    IntToStringRoundTrip(numTests - numFailedTests);
  }

  // ---------------------------------------------------------------------
  // The reporter
  // ---------------------------------------------------------------------

  /** The summary row: suites, tests, failures and the run's duration, or blank cells before the first suite end. */
  datatype Summary = Blank | Totals(suites: int, tests: int, failed: int, elapsed: int)

  /** The texts of the summary cells (the success-rate cell aside). */
  function SummaryTexts(summary: Summary): seq<string> {
    match summary
    case Blank => ["", "", "", ""]
    case Totals(suites, tests, failed, elapsed) =>
      [IntToString(suites), IntToString(tests), IntToString(failed), FormatDuration(elapsed)]
  }

  /**
   * The summary shows four cells: all blank before the first suite end, and
   * afterwards three counts that read back as numbers and the run's
   * duration as `formatDuration` writes it.
   */
  lemma SummaryTextsReadBack(summary: Summary)
    ensures var texts := SummaryTexts(summary);
      && |texts| == 4
      && (summary.Blank? ==> forall i :: 0 <= i < 4 ==> texts[i] == "")
      && (summary.Totals? ==>
            && ParseInt(texts[0]) == Some(summary.suites)
            && ParseInt(texts[1]) == Some(summary.tests)
            && ParseInt(texts[2]) == Some(summary.failed)
            && texts[3] == FormatDuration(summary.elapsed))
  {
    if summary.Totals? {
      IntToStringRoundTrip(summary.suites);
      IntToStringRoundTrip(summary.tests);
      IntToStringRoundTrip(summary.failed);
    }
  }

  /**
   * The reporter's invariant, on the fields it is about: the current table
   * starts inside `rows`; every suite with a recorded row also has a start
   * tick; every recorded row exists, is an open suite row, and belongs to
   * one suite only; and rows are recorded only once `start` has run.
   */
  ghost predicate Annotated(started: bool, tableStart: nat, rows: seq<Row>,
                            suiteStartTick: map<SuiteId, int>, suiteRow: map<SuiteId, nat>)
  {
    && tableStart <= |rows|
    && suiteRow.Keys <= suiteStartTick.Keys
    && (forall id :: id in suiteRow ==> suiteRow[id] < |rows| && OpenSuiteRow(rows[suiteRow[id]]))
    && (forall id, id' :: id in suiteRow && id' in suiteRow && id != id' ==> suiteRow[id] != suiteRow[id'])
    && (suiteRow != map[] ==> started)
  }

  /** Appending a row keeps the invariant. */
  lemma AppendKeepsAnnotated(started: bool, tableStart: nat, rows: seq<Row>,
                             suiteStartTick: map<SuiteId, int>, suiteRow: map<SuiteId, nat>, row: Row)
    requires Annotated(started, tableStart, rows, suiteStartTick, suiteRow)
    ensures Annotated(started, tableStart, rows + [row], suiteStartTick, suiteRow)
  {
    forall k | k in suiteRow
      ensures suiteRow[k] < |rows + [row]| && OpenSuiteRow((rows + [row])[suiteRow[k]])
    {
      assert (rows + [row])[suiteRow[k]] == rows[suiteRow[k]];
    }
  }

  /** Recording a start tick, appending an open suite row after `start` and recording that row keeps the invariant. */
  lemma SuiteStartKeepsAnnotated(tableStart: nat, rows: seq<Row>, suiteStartTick: map<SuiteId, int>,
                                 suiteRow: map<SuiteId, nat>, id: SuiteId, now: int, row: Row)
    requires Annotated(true, tableStart, rows, suiteStartTick, suiteRow) && OpenSuiteRow(row)
    ensures Annotated(true, tableStart, rows + [row], suiteStartTick[id := now], suiteRow[id := |rows|])
  {
    AppendKeepsAnnotated(true, tableStart, rows, suiteStartTick, suiteRow, row);
  }

  /** Closing one suite's row and dropping its annotations keeps the invariant. */
  lemma SuiteEndKeepsAnnotated(started: bool, tableStart: nat, rows: seq<Row>,
                               suiteStartTick: map<SuiteId, int>, suiteRow: map<SuiteId, nat>, id: SuiteId, closed: Row)
    requires Annotated(started, tableStart, rows, suiteStartTick, suiteRow) && id in suiteRow
    ensures Annotated(started, tableStart, rows[suiteRow[id] := closed], suiteStartTick - {id}, suiteRow - {id})
  {
    var rows', others := rows[suiteRow[id] := closed], suiteRow - {id};
    forall k | k in others
      ensures others[k] < |rows'| && OpenSuiteRow(rows'[others[k]])
    {
      assert others[k] == suiteRow[k] != suiteRow[id];
    }
  }

  /**
   * The module-level state of html.js.  `started` says that `start` has
   * created the report and summary nodes.  `rows` holds every report row put
   * into the document, and `rows[tableStart..]` are those of the report
   * table `start` created last.  `suiteStartTick` and `suiteRow` are the
   * side tables for the `_startTick` and `_htmlReportNode` annotations.
   */
  class HtmlReporter {
    var suiteCount: int
    var testCount: int
    var failCount: int
    var startTick: int
    var isFirstSuite: bool
    var indentLevel: int
    var started: bool
    var rows: seq<Row>
    var tableStart: nat
    var summary: Summary
    var suiteStartTick: map<SuiteId, int>
    var suiteRow: map<SuiteId, nat>

    ghost predicate Valid()
      reads this
    {
      Annotated(started, tableStart, rows, suiteStartTick, suiteRow)
    }

    /** The rows of the current report table. */
    function ReportRows(): seq<Row>
      reads this
      requires Valid()
    {
      rows[tableStart..]
    }

    /** The state when the module is loaded. */
    constructor ()
      ensures Valid()
      ensures suiteCount == 0 && testCount == 0 && failCount == 0 && startTick == 0
      ensures isFirstSuite && indentLevel == 0 && !started
      ensures rows == [] && tableStart == 0 && summary == Blank
      ensures suiteStartTick == map[] && suiteRow == map[]
    {
      suiteCount, testCount, failCount, startTick := 0, 0, 0, 0;
      isFirstSuite, indentLevel, started := true, 0, false;
      rows, tableStart, summary := [], 0, Blank;
      suiteStartTick, suiteRow := map[], map[];
    }

    /** `start`: appends a fresh empty report table and blank summary, and records the start tick. */
    method Start(now: int)
      requires Valid()
      modifies this
      ensures Valid()
      ensures started && startTick == now
      ensures rows == old(rows) && tableStart == |rows| && ReportRows() == []
      ensures summary == Blank
      ensures suiteCount == old(suiteCount) && testCount == old(testCount) && failCount == old(failCount)
      ensures isFirstSuite == old(isFirstSuite) && indentLevel == old(indentLevel)
      ensures suiteStartTick == old(suiteStartTick) && suiteRow == old(suiteRow)
    {
      started := true;
      tableStart := |rows|;
      summary := Blank;
      startTick := now;
    }

    /**
     * `/suite/start`.  The first suite named `main` is skipped and clears
     * `isFirstSuite`.  Any other suite is counted and its start tick
     * recorded; then, if `start` has run, its row is appended one level
     * deeper than the last, and otherwise appending it throws.
     */
    method SuiteStart(suite: Suite, now: int) returns (thrown: bool)
      requires Valid()
      modifies this
      ensures Valid()
      ensures startTick == old(startTick) && started == old(started) && tableStart == old(tableStart)
      ensures testCount == old(testCount) && failCount == old(failCount) && summary == old(summary)
      ensures old(isFirstSuite) && suite.name == "main" ==>
        && !thrown && !isFirstSuite
        && suiteCount == old(suiteCount) && indentLevel == old(indentLevel) && rows == old(rows)
        && suiteStartTick == old(suiteStartTick) && suiteRow == old(suiteRow)
      ensures !(old(isFirstSuite) && suite.name == "main") ==>
        && thrown == !started
        && isFirstSuite == old(isFirstSuite)
        && suiteCount == old(suiteCount) + 1
        && suiteStartTick == old(suiteStartTick)[suite.id := now]
        && (thrown ==> indentLevel == old(indentLevel) && rows == old(rows) && suiteRow == old(suiteRow))
        && (!thrown ==>
              && rows == old(rows) + [SuiteRow(suite.name, old(indentLevel))]
              && suiteRow == old(suiteRow)[suite.id := |old(rows)|]
              && indentLevel == old(indentLevel) + 1)
    {
      if isFirstSuite && suite.name == "main" {
        isFirstSuite := false;
        return false;
      }
      thrown := !started;
      if thrown {
        suiteCount, suiteStartTick := suiteCount + 1, suiteStartTick[suite.id := now];
        return;
      }
      var row := SuiteRow(suite.name, indentLevel);
      var rows', ticks', suiteRow' := rows + [row], suiteStartTick[suite.id := now], suiteRow[suite.id := |rows|];
      SuiteStartKeepsAnnotated(tableStart, rows, suiteStartTick, suiteRow, suite.id, now, row);
      suiteCount, rows, suiteStartTick, suiteRow, indentLevel := suiteCount + 1, rows', ticks', suiteRow', indentLevel + 1;
    }

    /**
     * `/suite/end`.  A suite without a row (the skipped `main`, or one
     * started before `start`) makes the handler throw before it changes
     * anything.  Otherwise the suite's row is closed, the nesting level
     * drops by one, the suite's counts are added to the totals, the summary
     * is rendered and the suite's annotations are removed.
     */
    method SuiteEnd(suite: Suite, now: int) returns (thrown: bool)
      requires Valid()
      modifies this
      ensures Valid()
      ensures thrown <==> suite.id !in old(suiteRow)
      ensures startTick == old(startTick) && started == old(started) && tableStart == old(tableStart)
      ensures isFirstSuite == old(isFirstSuite) && suiteCount == old(suiteCount)
      ensures thrown ==>
        && rows == old(rows) && indentLevel == old(indentLevel)
        && testCount == old(testCount) && failCount == old(failCount) && summary == old(summary)
        && suiteStartTick == old(suiteStartTick) && suiteRow == old(suiteRow)
      ensures !thrown ==>
        var i := old(suiteRow)[suite.id];
        && OpenSuiteRow(old(rows)[i])
        && rows == old(rows)[i := CloseSuiteRow(old(rows)[i], suite, now - old(suiteStartTick)[suite.id])]
        && indentLevel == old(indentLevel) - 1
        && testCount == old(testCount) + suite.numTests
        && failCount == old(failCount) + suite.numFailedTests
        && summary == Totals(suiteCount, testCount, failCount, now - startTick)
        && suiteStartTick == old(suiteStartTick) - {suite.id}
        && suiteRow == old(suiteRow) - {suite.id}
    {
      thrown := suite.id !in suiteRow;
      if thrown {
        return;
      }
      var i := suiteRow[suite.id];
      var closed := CloseSuiteRow(rows[i], suite, now - suiteStartTick[suite.id]);
      var rows', ticks', suiteRow' := rows[i := closed], suiteStartTick - {suite.id}, suiteRow - {suite.id};
      SuiteEndKeepsAnnotated(started, tableStart, rows, suiteStartTick, suiteRow, suite.id, closed);
      var tests', failures' := testCount + suite.numTests, failCount + suite.numFailedTests;
      rows, suiteStartTick, suiteRow, indentLevel, testCount, failCount, summary :=
        rows', ticks', suiteRow', indentLevel - 1, tests', failures', Totals(suiteCount, tests', failures', now - startTick);
    }

    /**
     * `/test/pass`, which html.js also registers as `/test/fail`: appends
     * the test's row at the current nesting level, or throws before `start`.
     */
    method TestPass(test: Test) returns (thrown: bool)
      requires Valid()
      modifies this
      ensures Valid()
      ensures thrown <==> !started
      ensures rows == if thrown then old(rows) else old(rows) + [TestRow(test, indentLevel)]
      ensures started == old(started) && tableStart == old(tableStart) && startTick == old(startTick)
      ensures suiteCount == old(suiteCount) && testCount == old(testCount) && failCount == old(failCount)
      ensures isFirstSuite == old(isFirstSuite) && indentLevel == old(indentLevel) && summary == old(summary)
      ensures suiteStartTick == old(suiteStartTick) && suiteRow == old(suiteRow)
    {
      if !started {
        return true;
      }
      AppendKeepsAnnotated(started, tableStart, rows, suiteStartTick, suiteRow, TestRow(test, indentLevel));
      rows := rows + [TestRow(test, indentLevel)];
      thrown := false;
    }
  }

  // ---------------------------------------------------------------------
  // Event sequences
  // ---------------------------------------------------------------------

  /** A suite start followed by the same suite's end leaves the nesting level where it was. */
  method StartEndKeepsLevel(r: HtmlReporter, suite: Suite, startNow: int, endNow: int)
    requires r.Valid() && suite.id !in r.suiteRow
    modifies r
    ensures r.Valid()
    ensures r.indentLevel == old(r.indentLevel)
    ensures old(r.isFirstSuite) && suite.name == "main" ==> r.suiteCount == old(r.suiteCount)
    ensures !(old(r.isFirstSuite) && suite.name == "main") ==> r.suiteCount == old(r.suiteCount) + 1
  {
    var thrown := r.SuiteStart(suite, startNow);
    thrown := r.SuiteEnd(suite, endNow);
  }

  /** Only the first start of a suite named `main` is skipped: a second `main` is counted. */
  method MainSkippedOnce(r: HtmlReporter, first: Suite, second: Suite, now: int)
    requires r.Valid() && r.isFirstSuite
    requires first.name == "main" && second.name == "main"
    modifies r
    ensures r.Valid() && !r.isFirstSuite
    ensures r.suiteCount == old(r.suiteCount) + 1
  {
    var thrown := r.SuiteStart(first, now);
    assert r.suiteCount == old(r.suiteCount);
    thrown := r.SuiteStart(second, now);
  }

  /**
   * The first half of the run in `NestedSuitesTotals`: `start`, the three
   * suite starts and the two tests of `B`, leaving `A` and `B` open.
   */
  method NestedSuitesRun() returns (r: HtmlReporter)
    ensures fresh(r) && r.Valid()
    ensures r.suiteCount == 2 && r.testCount == 0 && r.failCount == 0 && r.indentLevel == 2
    ensures 1 in r.suiteRow && 2 in r.suiteRow && 0 !in r.suiteRow
  {
    r := new HtmlReporter();
    var t := Test("t", 5, None, "", 2);
    r.Start(0);
    var thrown := r.SuiteStart(Suite(0, "main", None, 2, 1), 0);
    assert r.suiteRow == map[] && r.indentLevel == 0;
    thrown := r.SuiteStart(Suite(1, "A", Some(0), 2, 1), 1);
    thrown := r.SuiteStart(Suite(2, "B", Some(1), 2, 1), 2);
    thrown := r.TestPass(t);
    thrown := r.TestPass(t.(error := Some(TestError(None, "Error", "boom", None))));
  }

  /**
   * The run of the framework's `main` suite holding suite `A`, which holds
   * suite `B` with two tests, one failed.  The framework's counts are
   * recursive, so `A` reports the same two tests as `B`, and because every
   * suite end adds its counts the totals come out as four tests and two
   * failures.
   */
  method NestedSuitesTotals() returns (suites: int, tests: int, failures: int, level: int, mainEndThrew: bool)
    ensures suites == 2 && tests == 4 && failures == 2 && level == 0
    ensures mainEndThrew
  {
    var r := NestedSuitesRun();
    var thrown := r.SuiteEnd(Suite(2, "B", Some(1), 2, 1), 3);
    assert r.testCount == 2 && r.failCount == 1 && 1 in r.suiteRow && 0 !in r.suiteRow;
    thrown := r.SuiteEnd(Suite(1, "A", Some(0), 2, 1), 4);
    mainEndThrew := r.SuiteEnd(Suite(0, "main", None, 2, 1), 5);
    suites, tests, failures, level := r.suiteCount, r.testCount, r.failCount, r.indentLevel;
  }
}
