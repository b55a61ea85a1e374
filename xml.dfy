/**
 * The JUnit-style XML reporter (lib/reporters/xml.js).  The report is a
 * tree of mutable `XmlNode` objects that the handlers grow in place; the
 * `_xmlReportNode` and `_startTick` annotations are side tables keyed by
 * suite id, and the clock is a parameter.
 */
module Xml {
  import opened Wrappers
  import opened Strings
  import opened Events

  /**
   * A node of the report: a tag, an attribute map, text content and an
   * ordered list of children.  `CreateNode` appends a new child and returns it.
   */
  class XmlNode {
    var tag: string
    var attributes: map<string, string>
    var content: string
    var children: seq<XmlNode>

    constructor (tag: string, attributes: map<string, string>)
      ensures this.tag == tag && this.attributes == attributes
      ensures content == "" && children == []
    {
      this.tag := tag;
      this.attributes := attributes;
      content := "";
      children := [];
    }

    method CreateNode(tag: string, attributes: map<string, string>) returns (child: XmlNode)
      modifies this
      ensures fresh(child)
      ensures child.tag == tag && child.attributes == attributes
      ensures child.content == "" && child.children == []
      ensures children == old(children) + [child]
      ensures this.tag == old(this.tag) && this.attributes == old(this.attributes)
      ensures content == old(content)
    {
      child := new XmlNode(tag, attributes);
      children := children + [child];
    }

    method SetContent(text: string)
      modifies this
      ensures content == text
      ensures tag == old(tag) && attributes == old(attributes) && children == old(children)
    {
      content := text;
    }
  }

  // ---------------------------------------------------------------------
  // The failure type
  // ---------------------------------------------------------------------

  /** What `Object.prototype.toString.call(error)` yields. */
  function ObjectTag(e: TestError): (s: string)
    ensures |s| > 7 && s[7] == ' ' && s[..7] == "[object"
  {
    "[object " + e.toStringTag + "]"
  }

  /** `s.replace(/]$/, '')`: drops one closing bracket at the very end. */
  function StripClosingBracket(s: string): (r: string)
    ensures if |s| > 0 && s[|s| - 1] == ']' then r + "]" == s else r == s
  {
    if |s| > 0 && s[|s| - 1] == ']' then s[..|s| - 1] else s
  }

  /**
   * The `type` attribute of a failure: the error's constructor name when
   * it has a non-empty one, otherwise the second space-separated word of
   * its `[object X]` tag without a closing bracket at the end; `Object` is
   * reported as `Error`.
   */
  function ErrorTypeOf(e: TestError): (t: string)
    ensures t != "Object"
  {
    var named :=
      if e.constructorName.Some? && e.constructorName.value != "" then e.constructorName.value
      else StripClosingBracket(Split(ObjectTag(e), ' ')[1]);
    if named == "Object" then "Error" else named
  }

  /** The successive reassignments of `errorType` in the test handler. */
  method ErrorType(e: TestError) returns (errorType: string)
    ensures errorType == ErrorTypeOf(e)
    ensures errorType != "Object"
  {
    errorType := "";
    if e.constructorName.Some? && e.constructorName.value != "" {
      errorType := e.constructorName.value;
    }
    if errorType == "" {
      var words := Split(ObjectTag(e), ' ');
      errorType := words[1];
      errorType := StripClosingBracket(errorType);
    }
    if errorType == "Object" {
      errorType := "Error";
    }
  }

  /** A non-empty constructor name is the type, `Object` read as `Error`. */
  lemma ErrorTypeFromConstructor(e: TestError)
    requires e.constructorName.Some? && e.constructorName.value != ""
    ensures ErrorTypeOf(e) == if e.constructorName.value == "Object" then "Error" else e.constructorName.value
  {
  }

  /**
   * Without a constructor name, the type is the first word of the tag
   * (a closing bracket stripped when the tag is a single word).
   */
  lemma ErrorTypeFromTag(e: TestError)
    requires e.constructorName.None? || e.constructorName.value == ""
    ensures var word := StripClosingBracket(Split(e.toStringTag + "]", ' ')[0]);
      ErrorTypeOf(e) == if word == "Object" then "Error" else word
  {
    assert ObjectTag(e) == "[object" + [' '] + (e.toStringTag + "]");
    SplitAtFirst("[object", ' ', e.toStringTag + "]");
  }

  /** A one-word tag is the type itself, `Object` read as `Error`. */
  lemma ErrorTypeFromOneWordTag(e: TestError)
    requires e.constructorName.None? || e.constructorName.value == ""
    requires ' ' !in e.toStringTag
    ensures ErrorTypeOf(e) == if e.toStringTag == "Object" then "Error" else e.toStringTag
  {
    ErrorTypeFromTag(e);
    assert ' ' !in e.toStringTag + "]";
    assert (e.toStringTag + "]")[..|e.toStringTag|] == e.toStringTag;
  }

  /** `error.stack || ''`. */
  function StackText(e: TestError): string {
    e.stack.GetOr("")
  }

  // ---------------------------------------------------------------------
  // Attribute values
  // ---------------------------------------------------------------------

  /** `s` without its trailing zeroes. */
  function TrimTrailingZeros(s: string): (r: string)
    ensures |r| <= |s| && r == s[..|r|]
    ensures r == [] || r[|r| - 1] != '0'
    ensures forall i :: |r| <= i < |s| ==> s[i] == '0'
  {
    if |s| > 0 && s[|s| - 1] == '0' then TrimTrailingZeros(s[..|s| - 1]) else s
  }

  /** The digits after the point of `String(n / 1000)` when `n % 1000 == frac`. */
  function FractionDigits(frac: nat): string
    requires 0 < frac < 1000
  {
    var d := NatToDecimal(frac);
    TrimTrailingZeros(Zeros(if |d| <= 3 then 3 - |d| else 0) + d)
  }

  /** `String(a / 1000)` for `a >= 0`: whole seconds, then the needed decimals if any. */
  function UnsignedSecondsString(a: nat): string {
    NatToDecimal(a / 1000) + FractionPart(a % 1000)
  }

  /** The part after the whole seconds: nothing for whole seconds, else a point and the digits. */
  function FractionPart(frac: nat): string
    requires frac < 1000
  {
    if frac == 0 then "" else "." + FractionDigits(frac)
  }

  /** `String(ms / 1000)`: the seconds, with as many decimals as they need. */
  function SecondsString(ms: int): string {
    Sign(ms < 0) + UnsignedSecondsString(Magnitude(ms))
  }

  /** The minus sign `String` writes before a negative number. */
  function Sign(negative: bool): string {
    if negative then "-" else ""
  }

  /** The absolute value. */
  function Magnitude(i: int): nat {
    if i < 0 then -i else i
  }

  /** Reads an unsigned `whole[.fraction]` number of seconds back into milliseconds. */
  function ParseUnsignedSeconds(s: string): Option<int> {
    SecondsOfParts(Split(s, '.'))
  }

  /** The milliseconds that the pieces of `whole[.fraction]` around the point denote. */
  function SecondsOfParts(parts: seq<string>): Option<int> {
    if |parts| == 1 && 1 <= |parts[0]| && AllDigits(parts[0]) then
      Some(1000 * DecimalValue(parts[0]))
    else if |parts| == 2 && 1 <= |parts[0]| && AllDigits(parts[0])
         && 1 <= |parts[1]| <= 3 && AllDigits(parts[1] + Zeros(3 - |parts[1]|)) then
      Some(1000 * DecimalValue(parts[0]) + DecimalValue(parts[1] + Zeros(3 - |parts[1]|)))
    else
      None
  }

  /** Reads what `SecondsString` writes back into milliseconds. */
  function ParseSeconds(s: string): Option<int> {
    var negative := |s| >= 1 && s[0] == '-';
    match ParseUnsignedSeconds(if negative then s[1..] else s)
    case Some(v) => Some(if negative then -v else v)
    case None => None
  }

  lemma DecimalValueOfZeros(k: nat)
    ensures AllDigits(Zeros(k)) && DecimalValue(Zeros(k)) == 0
  {
    DecimalValueLeadingZeros(k, "");
    assert Zeros(k) + "" == Zeros(k);
  }

  /** The fraction digits, padded back to three, denote the thousandths. */
  lemma FractionDigitsValue(frac: nat)
    requires 0 < frac < 1000
    ensures var f := FractionDigits(frac);
      && 1 <= |f| <= 3 && AllDigits(f) && '.' !in f
      && AllDigits(f + Zeros(3 - |f|)) && DecimalValue(f + Zeros(3 - |f|)) == frac
  {
    var d := NatToDecimal(frac);
    NatToDecimalLength(frac, 3);
    var padded := Zeros(3 - |d|) + d;
    DecimalValueOfNatToDecimal(frac);
    DecimalValueLeadingZeros(3 - |d|, d);
    var f := FractionDigits(frac);
    assert f == TrimTrailingZeros(padded);
    assert padded == f + Zeros(3 - |f|);
    if f == [] {
      assert padded == Zeros(3);
      DecimalValueOfZeros(3);
    }
    assert AllDigits(f) by {
      forall i | 0 <= i < |f| ensures IsDigit(f[i]) {
        assert f[i] == padded[i];
      }
    }
  }

  /** A digit string carries no point. */
  lemma NoPointInDigits(s: string)
    requires AllDigits(s)
    ensures '.' !in s
  {
  }

  lemma WholeSecondsRoundTrip(a: nat)
    requires a % 1000 == 0
    ensures ParseUnsignedSeconds(UnsignedSecondsString(a)) == Some(a)
  {
    var whole := NatToDecimal(a / 1000);
    DecimalValueOfNatToDecimal(a / 1000);
    NoPointInDigits(whole);
    assert UnsignedSecondsString(a) == whole;
    assert ParseUnsignedSeconds(whole) == Some(1000 * (a / 1000));
  }

  /** `whole.frac` is read from its two pieces, when neither holds a point. */
  lemma ParseUnsignedSecondsWithPoint(whole: string, frac: string)
    requires '.' !in whole && '.' !in frac
    ensures ParseUnsignedSeconds(whole + ("." + frac)) == SecondsOfParts([whole, frac])
  {
    SplitPair(whole, '.', frac);
  }

  lemma FractionalSecondsRoundTrip(a: nat)
    requires a % 1000 != 0
    ensures ParseUnsignedSeconds(UnsignedSecondsString(a)) == Some(a)
  {
    var whole := NatToDecimal(a / 1000);
    DecimalValueOfNatToDecimal(a / 1000);
    NoPointInDigits(whole);
    var f := FractionDigits(a % 1000);
    FractionDigitsValue(a % 1000);
    ParseUnsignedSecondsWithPoint(whole, f);
    assert SecondsOfParts([whole, f]) == Some(1000 * (a / 1000) + a % 1000);
  }

  lemma UnsignedSecondsRoundTrip(a: nat)
    ensures ParseUnsignedSeconds(UnsignedSecondsString(a)) == Some(a)
  {
    if a % 1000 == 0 {
      WholeSecondsRoundTrip(a);
    } else {
      FractionalSecondsRoundTrip(a);
    }
  }

  /** The unsigned rendering starts with a digit, never a minus sign. */
  lemma UnsignedSecondsUnsigned(a: nat)
    ensures |UnsignedSecondsString(a)| >= 1 && UnsignedSecondsString(a)[0] != '-'
  {
  }

  /** A leading minus sign negates what the rest reads as; without one the rest reads unchanged. */
  lemma ParseSignedSeconds(negative: bool, u: string, v: int)
    requires ParseUnsignedSeconds(u) == Some(v) && |u| >= 1 && u[0] != '-'
    ensures ParseSeconds(Sign(negative) + u) == Some(if negative then -v else v)
  {
    if negative {
      assert (Sign(negative) + u)[1..] == u;
    } else {
      assert Sign(negative) + u == u;
    }
  }

  /** The `time` attribute determines the elapsed milliseconds. */
  lemma SecondsStringRoundTrip(ms: int)
    ensures ParseSeconds(SecondsString(ms)) == Some(ms)
  {
    UnsignedSecondsRoundTrip(Magnitude(ms));
    UnsignedSecondsUnsigned(Magnitude(ms));
    ParseSignedSeconds(ms < 0, UnsignedSecondsString(Magnitude(ms)), Magnitude(ms));
  }

  /** The attributes `/suite/end` gives a suite's node. */
  function SuiteAttributes(suite: Suite, elapsed: int): map<string, string> {
    map["name" := suite.name,
        "tests" := IntToString(suite.numTests),
        "failures" := IntToString(suite.numFailedTests),
        "time" := SecondsString(elapsed)]
  }

  /** The attributes of a test's `testcase` node. */
  function TestAttributes(test: Test): map<string, string> {
    map["name" := test.name, "time" := SecondsString(test.timeElapsed)]
  }

  /** The attributes of a `failure` node; `message` is the test's own message. */
  function FailureAttributes(e: TestError, message: string): map<string, string> {
    map["type" := ErrorTypeOf(e), "message" := message]
  }

  /** A suite node gets exactly four attributes, from which its counts and time read back. */
  lemma SuiteAttributesReadBack(suite: Suite, elapsed: int)
    ensures var attrs := SuiteAttributes(suite, elapsed);
      && attrs.Keys == {"name", "tests", "failures", "time"}
      && attrs["name"] == suite.name
      && ParseInt(attrs["tests"]) == Some(suite.numTests as int)
      && ParseInt(attrs["failures"]) == Some(suite.numFailedTests as int)
      && ParseSeconds(attrs["time"]) == Some(elapsed)
  {
    IntToStringRoundTrip(suite.numTests);
    IntToStringRoundTrip(suite.numFailedTests);
    SecondsStringRoundTrip(elapsed);
  }

  /** A test node gets exactly its name and time. */
  lemma TestAttributesReadBack(test: Test)
    ensures var attrs := TestAttributes(test);
      && attrs.Keys == {"name", "time"}
      && attrs["name"] == test.name
      && ParseSeconds(attrs["time"]) == Some(test.timeElapsed)
  {
    SecondsStringRoundTrip(test.timeElapsed);
  }

  // ---------------------------------------------------------------------
  // The reporter
  // ---------------------------------------------------------------------

  /**
   * The module-level state of xml.js.  `report` is the tree being built
   * (`null` before `start` and after the root suite ends); `emitted` lists
   * the root nodes the root suite end serialised, as live references: a
   * later event can still change such a node, while xml.js printed its
   * text at that moment.  `suiteNode` and `suiteStartTick` are the side
   * tables for the `_xmlReportNode` and `_startTick` annotations.  `Depth`
   * gives every node so far its depth below the root of its tree; each
   * child is one level below its parent, and no node is the child of two
   * nodes or twice the child of one, so the nodes form a forest.
   */
  class XmlReporter {
    var report: XmlNode?
    var suiteNode: map<SuiteId, XmlNode>
    var suiteStartTick: map<SuiteId, int>
    var emitted: seq<XmlNode>
    ghost var Depth: map<XmlNode, nat>

    ghost predicate Valid()
      reads this, Depth.Keys
    {
      && (report != null ==> report in Depth && Depth[report] == 0)
      && suiteNode.Keys == suiteStartTick.Keys
      && (forall id :: id in suiteNode ==> suiteNode[id] in Depth)
      && (forall k :: 0 <= k < |emitted| ==> emitted[k] in Depth)
      && (forall n, i :: n in Depth && 0 <= i < |n.children| ==>
            n.children[i] in Depth && Depth[n.children[i]] == Depth[n] + 1)
      && (forall n, m, i, j ::
            (n in Depth && m in Depth && 0 <= i < |n.children| && 0 <= j < |m.children| &&
             n.children[i] == m.children[j]) ==> n == m && i == j)
    }

    /** The node a suite start attaches under: the parent's node if it has one, else the root. */
    function ParentNode(suite: Suite): XmlNode?
      reads this
    {
      if suite.parent.Some? && suite.parent.value in suiteNode then suiteNode[suite.parent.value] else report
    }

    /** The state when the module is loaded: `report` is still unset. */
    constructor ()
      ensures Valid()
      ensures report == null && suiteNode == map[] && suiteStartTick == map[] && emitted == []
      ensures Depth == map[]
    {
      report := null;
      suiteNode, suiteStartTick := map[], map[];
      emitted := [];
      Depth := map[];
    }

    /** `parent.createNode(tag, attributes)` on a node of the report, placing the new child one level deeper. */
    method AddChild(parent: XmlNode, tag: string, attributes: map<string, string>) returns (child: XmlNode)
      requires Valid() && parent in Depth
      modifies this`Depth, parent
      ensures Valid()
      ensures fresh(child)
      ensures child.tag == tag && child.attributes == attributes && child.content == "" && child.children == []
      ensures parent.children == old(parent.children) + [child]
      ensures parent.tag == old(parent.tag) && parent.attributes == old(parent.attributes)
      ensures parent.content == old(parent.content)
      ensures Depth == old(Depth)[child := old(Depth)[parent] + 1]
    {
      child := parent.CreateNode(tag, attributes);
      Depth := Depth[child := Depth[parent] + 1];
    }

    /** The `failure` child a failed test's node receives, holding the error's stack. */
    method AddFailure(testNode: XmlNode, e: TestError, message: string)
      requires Valid() && testNode in Depth
      modifies this`Depth, testNode
      ensures Valid()
      ensures |testNode.children| == |old(testNode.children)| + 1
      ensures testNode.children[..|old(testNode.children)|] == old(testNode.children)
      ensures testNode.tag == old(testNode.tag) && testNode.attributes == old(testNode.attributes)
      ensures testNode.content == old(testNode.content)
      ensures var f := testNode.children[|old(testNode.children)|];
        && fresh(f)
        && f.tag == "failure" && f.attributes == FailureAttributes(e, message)
        && f.content == StackText(e) && f.children == []
        && Depth == old(Depth)[f := old(Depth)[testNode] + 1]
    {
      var errorType := ErrorType(e);
      var failureNode := AddChild(testNode, "failure", map["type" := errorType, "message" := message]);
      failureNode.SetContent(StackText(e));
    }

    /** `start`: the report becomes a lone `testsuites` node. */
    method Start()
      requires Valid()
      modifies this
      ensures Valid()
      ensures report != null && fresh(report)
      ensures report.tag == "testsuites" && report.attributes == map[]
      ensures report.content == "" && report.children == []
      ensures suiteNode == old(suiteNode) && suiteStartTick == old(suiteStartTick) && emitted == old(emitted)
      ensures Depth == old(Depth)[report := 0]
    {
      var root := new XmlNode("testsuites", map[]);
      report := root;
      Depth := Depth[root := 0];
    }

    /**
     * `/suite/start`.  The root suite (no parent) adds nothing.  Any other
     * suite appends one empty `testsuite` child to `ParentNode(suite)` and
     * records it and the start tick; when there is no such node the
     * `createNode` call throws before anything changes.
     */
    method SuiteStart(suite: Suite, now: int) returns (thrown: bool)
      requires Valid()
      modifies this, Depth.Keys
      ensures Valid()
      ensures thrown <==> suite.parent.Some? && old(ParentNode(suite)) == null
      ensures report == old(report) && emitted == old(emitted)
      ensures suite.parent.None? || thrown ==>
        && suiteNode == old(suiteNode) && suiteStartTick == old(suiteStartTick)
        && Depth == old(Depth) && unchanged(old(Depth.Keys))
      ensures suite.parent.Some? && !thrown ==>
        var p := old(ParentNode(suite));
        && p != null
        && suite.id in suiteNode
        && var c := suiteNode[suite.id];
        && fresh(c)
        && c.tag == "testsuite" && c.attributes == map[] && c.content == "" && c.children == []
        && p.children == old(p.children) + [c]
        && p.tag == old(p.tag) && p.attributes == old(p.attributes) && p.content == old(p.content)
        && suiteNode == old(suiteNode)[suite.id := c]
        && suiteStartTick == old(suiteStartTick)[suite.id := now]
        && Depth == old(Depth)[c := old(Depth)[p] + 1]
        && unchanged(old(Depth.Keys) - {p})
    {
      if suite.parent.None? {
        return false;
      }
      var parentNode := report;
      if suite.parent.value in suiteNode {
        parentNode := suiteNode[suite.parent.value];
      }
      if parentNode == null {
        return true;
      }
      var child := AddChild(parentNode, "testsuite", map[]);
      suiteNode := suiteNode[suite.id := child];
      suiteStartTick := suiteStartTick[suite.id := now];
      thrown := false;
    }

    /**
     * `/suite/end`.  The root suite's end emits the report and clears it
     * (serialising a cleared report throws).  Any other suite's end sets its
     * node's attributes and removes its annotations; a suite without a node
     * throws before anything changes.
     */
    method SuiteEnd(suite: Suite, now: int) returns (thrown: bool)
      requires Valid()
      modifies this, Depth.Keys
      ensures Valid()
      ensures Depth == old(Depth)
      ensures suite.parent.None? ==>
        && thrown == (old(report) == null)
        && suiteNode == old(suiteNode) && suiteStartTick == old(suiteStartTick)
        && unchanged(old(Depth.Keys))
        && (thrown ==> report == old(report) && emitted == old(emitted))
        && (!thrown ==> report == null && emitted == old(emitted) + [old(report)])
      ensures suite.parent.Some? ==>
        && thrown == (suite.id !in old(suiteNode))
        && report == old(report) && emitted == old(emitted)
        && (thrown ==>
              suiteNode == old(suiteNode) && suiteStartTick == old(suiteStartTick) && unchanged(old(Depth.Keys)))
        && (!thrown ==>
              var n := old(suiteNode)[suite.id];
              && n.attributes == SuiteAttributes(suite, now - old(suiteStartTick)[suite.id])
              && n.tag == old(n.tag) && n.content == old(n.content) && n.children == old(n.children)
              && unchanged(old(Depth.Keys) - {n})
              && suiteNode == old(suiteNode) - {suite.id}
              && suiteStartTick == old(suiteStartTick) - {suite.id})
    {
      if suite.parent.None? {
        if report == null {
          return true;
        }
        emitted := emitted + [report];
        report := null;
        return false;
      }
      if suite.id !in suiteNode {
        return true;
      }
      var node := suiteNode[suite.id];
      node.attributes := SuiteAttributes(suite, now - suiteStartTick[suite.id]);
      suiteNode := suiteNode - {suite.id};
      suiteStartTick := suiteStartTick - {suite.id};
      thrown := false;
    }

    /**
     * `/test/pass`, which xml.js also registers as `/test/fail`: appends a
     * `testcase` node to the parent suite's node and, when the test has an
     * error, gives that node one `failure` child.  A test whose suite has
     * no node throws before anything changes.
     */
    method TestPass(test: Test) returns (thrown: bool)
      requires Valid()
      modifies this, Depth.Keys
      ensures Valid()
      ensures thrown <==> test.parent !in old(suiteNode)
      ensures report == old(report) && emitted == old(emitted)
      ensures suiteNode == old(suiteNode) && suiteStartTick == old(suiteStartTick)
      ensures thrown ==> Depth == old(Depth) && unchanged(old(Depth.Keys))
      ensures !thrown ==>
        var s := old(suiteNode)[test.parent];
        && |s.children| == |old(s.children)| + 1
        && s.children[..|old(s.children)|] == old(s.children)
        && s.tag == old(s.tag) && s.attributes == old(s.attributes) && s.content == old(s.content)
        && unchanged(old(Depth.Keys) - {s})
        && var tc := s.children[|old(s.children)|];
        && fresh(tc)
        && tc.tag == "testcase" && tc.attributes == TestAttributes(test) && tc.content == ""
        && (test.error.None? ==> tc.children == [])
        && (test.error.Some? ==>
              && |tc.children| == 1
              && var f := tc.children[0];
              && fresh(f)
              && f.tag == "failure"
              && f.attributes == FailureAttributes(test.error.value, test.message)
              && f.content == StackText(test.error.value)
              && f.children == [])
    {
      if test.parent !in suiteNode {
        return true;
      }
      var node := suiteNode[test.parent];
      var testNode := AddChild(node, "testcase", TestAttributes(test));
      if test.error.Some? {
        AddFailure(testNode, test.error.value, test.message);
      }
      thrown := false;
    }
  }

  /** A node has at most one parent, and sits at most once among its children. */
  lemma NodeHasOneParent(r: XmlReporter, n: XmlNode, m: XmlNode, i: int, j: int)
    requires r.Valid() && n in r.Depth && m in r.Depth
    requires 0 <= i < |n.children| && 0 <= j < |m.children| && n.children[i] == m.children[j]
    ensures n == m && i == j
  {
  }

  /** No node is its own child, and the report root is nobody's child. */
  lemma ChildIsNotAncestor(r: XmlReporter, n: XmlNode, i: int)
    requires r.Valid() && n in r.Depth && 0 <= i < |n.children|
    ensures n.children[i] != n && n.children[i] != r.report
  {
  }
}
