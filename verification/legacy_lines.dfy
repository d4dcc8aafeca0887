/**
  The six TeamCity service messages of the legacy reporter (src/printer.ts,
  `printSuiteStarted` … `printSuiteFinished`) as values, the exact text each
  one is printed as, and the reading a TeamCity parser makes of that text.

  A `Line` carries its attribute values as they are put on the wire: the
  printer decides which of them it has escaped.
*/
module LegacyLines {
  import opened Wrappers
  import opened Escaping
  import opened Seqs

  datatype Line =
    | SuiteStarted(name: string, flowId: string)
    | TestStarted(name: string, flowId: string)
    | TestFailed(name: string, message: string, details: string, actual: string, expected: string, flowId: string)
    | TestIgnored(name: string, message: string, flowId: string)
    | TestFinished(name: string, duration: nat, flowId: string)
    | SuiteFinished(name: string, flowId: string)

  // ---------------------------------------------------------------------------
  // Durations: `${duration}` for a whole number of milliseconds
  // ---------------------------------------------------------------------------

  predicate IsDigit(c: char) {
    '0' <= c <= '9'
  }

  function DigitChar(d: nat): (c: char)
    requires d < 10
    ensures IsDigit(c)
  {
    ('0' as int + d) as char
  }

  /** Decimal notation of `n`, without leading zeros. */
  function NatToString(n: nat): (r: string)
    ensures |r| >= 1
    ensures forall i :: 0 <= i < |r| ==> IsDigit(r[i])
    ensures |r| > 1 ==> r[0] != '0'
    decreases n
  {
    if n < 10 then [DigitChar(n)] else NatToString(n / 10) + [DigitChar(n % 10)]
  }

  /** The value of a non-empty string of decimal digits. */
  function ParseNat(s: string): (r: Option<nat>)
    ensures r.Some? ==> |s| >= 1 && forall i :: 0 <= i < |s| ==> IsDigit(s[i])
    decreases |s|
  {
    if |s| == 0 || !IsDigit(s[|s| - 1]) then None
    else if |s| == 1 then Some(s[0] as int - '0' as int)
    else
      match ParseNat(s[..|s| - 1])
      case Some(v) => Some(v * 10 + (s[|s| - 1] as int - '0' as int))
      case None => None
  }

  lemma {:induction false} NatToStringParses(n: nat)
    ensures ParseNat(NatToString(n)) == Some(n)
    decreases n
  {
    if n >= 10 {
      NatToStringParses(n / 10);
      var s := NatToString(n);
      assert s[..|s| - 1] == NatToString(n / 10);
    }
  }

  // ---------------------------------------------------------------------------
  // Rendering
  // ---------------------------------------------------------------------------

  /** The message name after `##teamcity[`. */
  function KindName(l: Line): string {
    match l
    case SuiteStarted(_, _) => "testSuiteStarted"
    case TestStarted(_, _) => "testStarted"
    case TestFailed(_, _, _, _, _, _) => "testFailed"
    case TestIgnored(_, _, _) => "testIgnored"
    case TestFinished(_, _, _) => "testFinished"
    case SuiteFinished(_, _) => "testSuiteFinished"
  }

  /** The attributes of each message, in the order its template writes them. */
  function Attributes(l: Line): seq<(string, string)> {
    match l
    case SuiteStarted(name, flowId) => [("name", name), ("flowId", flowId)]
    case TestStarted(name, flowId) => [("name", name), ("flowId", flowId)]
    case TestFailed(name, message, details, actual, expected, flowId) =>
      [("name", name), ("message", message), ("details", details), ("actual", actual),
       ("expected", expected), ("type", "comparisonFailure"), ("flowId", flowId)]
    case TestIgnored(name, message, flowId) => [("name", name), ("message", message), ("flowId", flowId)]
    case TestFinished(name, duration, flowId) =>
      [("name", name), ("duration", NatToString(duration)), ("flowId", flowId)]
    case SuiteFinished(name, flowId) => [("name", name), ("flowId", flowId)]
  }

  /** ` key='value'` for each attribute, in order. */
  function AttributeText(kvs: seq<(string, string)>): string {
    if |kvs| == 0 then "" else " " + kvs[0].0 + "='" + kvs[0].1 + "'" + AttributeText(kvs[1..])
  }

  /** The printed text of a message. */
  function Render(l: Line): string {
    "##teamcity[" + KindName(l) + AttributeText(Attributes(l)) + "]"
  }

  // ---------------------------------------------------------------------------
  // Reading a message back
  // ---------------------------------------------------------------------------

  /** The characters before the first `stop`, and the rest starting at `stop`. */
  function Split(s: string, stop: char): (r: Option<(string, string)>)
    ensures r.Some? ==> |r.value.1| >= 1 && r.value.1[0] == stop && |r.value.1| <= |s|
  {
    if |s| == 0 then None
    else if s[0] == stop then Some(("", s))
    else
      match Split(s[1..], stop)
      case Some((before, rest)) => Some(([s[0]] + before, rest))
      case None => None
  }

  /** Reads a value up to its closing quote; a `|` protects the character after it. */
  function ReadValue(s: string): (r: Option<(string, string)>)
    ensures r.Some? ==> |r.value.1| < |s|
    decreases |s|
  {
    if |s| == 0 then None
    else if s[0] == '\'' then Some(("", s[1..]))
    else if s[0] == '|' then
      if |s| < 2 then None
      else
        match ReadValue(s[2..])
        case Some((v, rest)) => Some((s[..2] + v, rest))
        case None => None
    else
      match ReadValue(s[1..])
      case Some((v, rest)) => Some(([s[0]] + v, rest))
      case None => None
  }

  /** Reads ` key='value'` pairs up to the closing `]`. */
  function ReadAttributes(s: string): Option<seq<(string, string)>>
    decreases |s|
  {
    if s == "]" then Some([])
    else if |s| < 2 || s[0] != ' ' then None
    else
      match Split(s[1..], '=')
      case None => None
      case Some((key, fromEq)) =>
        if |fromEq| < 2 || fromEq[1] != '\'' then None
        else
          match ReadValue(fromEq[2..])
          case None => None
          case Some((v, rest)) =>
            match ReadAttributes(rest)
            case Some(kvs) => Some([(key, v)] + kvs)
            case None => None
  }

  function FromParts(kind: string, kvs: seq<(string, string)>): Option<Line> {
    if kind == "testSuiteStarted" && |kvs| == 2 && kvs[0].0 == "name" && kvs[1].0 == "flowId" then
      Some(SuiteStarted(kvs[0].1, kvs[1].1))
    else if kind == "testStarted" && |kvs| == 2 && kvs[0].0 == "name" && kvs[1].0 == "flowId" then
      Some(TestStarted(kvs[0].1, kvs[1].1))
    else if kind == "testFailed" && |kvs| == 7 && kvs[0].0 == "name" && kvs[1].0 == "message"
         && kvs[2].0 == "details" && kvs[3].0 == "actual" && kvs[4].0 == "expected"
         && kvs[5] == ("type", "comparisonFailure") && kvs[6].0 == "flowId" then
      Some(TestFailed(kvs[0].1, kvs[1].1, kvs[2].1, kvs[3].1, kvs[4].1, kvs[6].1))
    else if kind == "testIgnored" && |kvs| == 3 && kvs[0].0 == "name" && kvs[1].0 == "message"
         && kvs[2].0 == "flowId" then
      Some(TestIgnored(kvs[0].1, kvs[1].1, kvs[2].1))
    else if kind == "testFinished" && |kvs| == 3 && kvs[0].0 == "name" && kvs[1].0 == "duration"
         && kvs[2].0 == "flowId" && ParseNat(kvs[1].1).Some? then
      Some(TestFinished(kvs[0].1, ParseNat(kvs[1].1).value, kvs[2].1))
    else if kind == "testSuiteFinished" && |kvs| == 2 && kvs[0].0 == "name" && kvs[1].0 == "flowId" then
      Some(SuiteFinished(kvs[0].1, kvs[1].1))
    else None
  }

  /** How a TeamCity server reads one printed message. */
  function Parse(s: string): Option<Line> {
    if |s| < 11 || s[..11] != "##teamcity[" then None
    else
      match Split(s[11..], ' ')
      case None => None
      case Some((kind, attrs)) =>
        match ReadAttributes(attrs)
        case None => None
        case Some(kvs) => FromParts(kind, kvs)
  }

  // ---------------------------------------------------------------------------
  // Well-formed messages are read back exactly
  // ---------------------------------------------------------------------------

  /** A value the TeamCity decoder accepts: every special character is escaped. */
  predicate Escaped(v: string) {
    Unescape(v).Some?
  }

  /** Every free-text attribute of the message, the flow id included, is escaped. */
  predicate WellFormed(l: Line) {
    match l
    case SuiteStarted(name, flowId) => Escaped(name) && Escaped(flowId)
    case TestStarted(name, flowId) => Escaped(name) && Escaped(flowId)
    case TestFailed(name, message, details, actual, expected, flowId) =>
      Escaped(name) && Escaped(message) && Escaped(details) && Escaped(actual) && Escaped(expected) && Escaped(flowId)
    case TestIgnored(name, message, flowId) => Escaped(name) && Escaped(message) && Escaped(flowId)
    case TestFinished(name, _, flowId) => Escaped(name) && Escaped(flowId)
    case SuiteFinished(name, flowId) => Escaped(name) && Escaped(flowId)
  }

  /** A key the reader can find the end of, and a value the decoder accepts. */
  predicate AttributeOk(kv: (string, string)) {
    PlainKey(kv.0) && Escaped(kv.1)
  }

  lemma {:induction false} SplitAt(a: string, stop: char, b: string)
    requires stop !in a
    ensures Split(a + [stop] + b, stop) == Some((a, [stop] + b))
    decreases |a|
  {
    if |a| > 0 {
      assert (a + [stop] + b)[1..] == a[1..] + [stop] + b;
      SplitAt(a[1..], stop, b);
      assert [a[0]] + a[1..] == a;
    } else {
      assert a + [stop] + b == [stop] + b;
    }
  }

  lemma {:induction false} ReadEscapedValue(v: string, rest: string)
    requires Escaped(v)
    ensures ReadValue(v + "'" + rest) == Some((v, rest))
    decreases |v|
  {
    var s := v + "'" + rest;
    if |v| == 0 {
      assert s == "'" + rest;
      assert s[1..] == rest;
    } else if v[0] == '|' {
      assert s[2..] == v[2..] + "'" + rest;
      ReadEscapedValue(v[2..], rest);
      assert s[..2] + v[2..] == v;
    } else {
      assert v[0] != '\'';
      assert s[1..] == v[1..] + "'" + rest;
      ReadEscapedValue(v[1..], rest);
      assert [s[0]] + v[1..] == v;
    }
  }

  /** One ` key='value'` pair in front of attributes the reader already accepts. */
  lemma ReadOneAttribute(k: string, v: string, rest: string, tail: seq<(string, string)>)
    requires AttributeOk((k, v))
    requires ReadAttributes(rest) == Some(tail)
    ensures ReadAttributes(" " + k + "='" + v + "'" + rest) == Some([(k, v)] + tail)
  {
    var s := " " + k + "='" + v + "'" + rest;
    var fromEq := ['='] + ("'" + v + "'" + rest);
    assert s[1..] == k + ['='] + ("'" + v + "'" + rest);
    SplitAt(k, '=', "'" + v + "'" + rest);
    assert fromEq[2..] == v + "'" + rest;
    ReadEscapedValue(v, rest);
  }

  lemma {:induction false} ReadAttributesRoundTrip(kvs: seq<(string, string)>)
    requires forall i :: 0 <= i < |kvs| ==> AttributeOk(kvs[i])
    ensures ReadAttributes(AttributeText(kvs) + "]") == Some(kvs)
    decreases |kvs|
  {
    if |kvs| > 0 {
      var head := " " + kvs[0].0 + "='" + kvs[0].1 + "'";
      var rest := AttributeText(kvs[1..]) + "]";
      ReadAttributesRoundTrip(kvs[1..]);
      assert AttributeText(kvs) + "]" == head + rest by {
        AppendAssoc(head, AttributeText(kvs[1..]), "]");
      }
      ReadOneAttribute(kvs[0].0, kvs[0].1, rest, kvs[1..]);
      assert [kvs[0]] + kvs[1..] == kvs;
    }
  }

  lemma {:induction false} DigitsEscaped(s: string)
    requires forall i :: 0 <= i < |s| ==> IsDigit(s[i])
    ensures Escaped(s)
    decreases |s|
  {
    if |s| > 0 {
      DigitsEscaped(s[1..]);
    }
  }

  lemma ComparisonFailureEscaped()
    ensures Escaped("comparisonFailure")
  {
    DigitsOrLettersEscaped("comparisonFailure");
  }

  lemma {:induction false} DigitsOrLettersEscaped(s: string)
    requires forall i :: 0 <= i < |s| ==> IsDigit(s[i]) || 'a' <= s[i] <= 'z' || 'A' <= s[i] <= 'Z'
    ensures Escaped(s)
    decreases |s|
  {
    if |s| > 0 {
      DigitsOrLettersEscaped(s[1..]);
    }
  }

  /** The attributes of a well-formed message: plain keys and escaped values. */
  lemma AttributesEscaped(l: Line)
    requires WellFormed(l)
    ensures forall i :: 0 <= i < |Attributes(l)| ==> AttributeOk(Attributes(l)[i])
  {
    KeysArePlain();
    if l.TestFailed? {
      FailedAttributesEscaped(l);
    } else if l.TestFinished? {
      FinishedAttributesEscaped(l);
    } else if l.TestIgnored? {
      assert AttributeOk(Attributes(l)[0]);
      assert AttributeOk(Attributes(l)[1]);
      assert AttributeOk(Attributes(l)[2]);
    } else {
      assert AttributeOk(Attributes(l)[0]);
      assert AttributeOk(Attributes(l)[1]);
    }
  }

  /** An attribute key the reader can find the end of. */
  predicate PlainKey(k: string) {
    '=' !in k && NoLineBreak(k)
  }

  lemma KeysArePlain()
    ensures PlainKey("name") && PlainKey("flowId") && PlainKey("message") && PlainKey("details")
    ensures PlainKey("actual") && PlainKey("expected") && PlainKey("type") && PlainKey("duration")
  {
    LettersArePlain("name");
    LettersArePlain("flowId");
    LettersArePlain("message");
    LettersArePlain("details");
    LettersArePlain("actual");
    LettersArePlain("expected");
    LettersArePlain("type");
    LettersArePlain("duration");
  }

  lemma LettersArePlain(k: string)
    requires forall i :: 0 <= i < |k| ==> 'a' <= k[i] <= 'z' || 'A' <= k[i] <= 'Z'
    ensures PlainKey(k) && ' ' !in k
  {
  }

  lemma KindNameIsPlain(l: Line)
    ensures PlainKey(KindName(l)) && ' ' !in KindName(l)
  {
    LettersArePlain(KindName(l));
  }

  lemma FailedAttributesEscaped(l: Line)
    requires l.TestFailed? && WellFormed(l)
    ensures forall i :: 0 <= i < |Attributes(l)| ==> AttributeOk(Attributes(l)[i])
  {
    var kvs := Attributes(l);
    KeysArePlain();
    ComparisonFailureEscaped();
    assert AttributeOk(kvs[0]);
    assert AttributeOk(kvs[1]);
    assert AttributeOk(kvs[2]);
    assert AttributeOk(kvs[3]);
    assert AttributeOk(kvs[4]);
    assert AttributeOk(kvs[5]);
    assert AttributeOk(kvs[6]);
  }

  lemma FinishedAttributesEscaped(l: Line)
    requires l.TestFinished? && WellFormed(l)
    ensures forall i :: 0 <= i < |Attributes(l)| ==> AttributeOk(Attributes(l)[i])
  {
    var kvs := Attributes(l);
    KeysArePlain();
    DigitsEscaped(NatToString(l.duration));
    assert AttributeOk(kvs[0]);
    assert AttributeOk(kvs[1]);
    assert AttributeOk(kvs[2]);
  }

  /** The message is rebuilt from its kind and its attribute list. */
  lemma FromPartsInverts(l: Line)
    ensures FromParts(KindName(l), Attributes(l)) == Some(l)
  {
    if l.TestFinished? {
      NatToStringParses(l.duration);
    }
  }

  /**
    The point of escaping: a message whose values are all escaped is read
    back by the server as exactly the message that was printed.
  */
  lemma RenderParseRoundTrip(l: Line)
    requires WellFormed(l)
    ensures Parse(Render(l)) == Some(l)
  {
    var kvs := Attributes(l);
    AttributesEscaped(l);
    ReadAttributesRoundTrip(kvs);
    FromPartsInverts(l);
    RenderSplitsAtKind(l);
    ParseSteps(Render(l), KindName(l), AttributeText(kvs) + "]", kvs, l);
  }

  /** The printed text is the prefix, the kind, and the attributes starting with a space. */
  lemma RenderSplitsAtKind(l: Line)
    ensures |Render(l)| >= 11 && Render(l)[..11] == "##teamcity["
    ensures Split(Render(l)[11..], ' ') == Some((KindName(l), AttributeText(Attributes(l)) + "]"))
  {
    var kind := KindName(l);
    var attrs := AttributeText(Attributes(l)) + "]";
    var s := Render(l);
    assert attrs == [' '] + attrs[1..];
    assert s[11..] == kind + [' '] + attrs[1..] by {
      AppendAssoc("##teamcity[" + kind, AttributeText(Attributes(l)), "]");
      AppendAssoc("##teamcity[", kind, attrs);
      AppendAssoc(kind, [' '], attrs[1..]);
    }
    KindNameIsPlain(l);
    SplitAt(kind, ' ', attrs[1..]);
  }

  lemma ParseSteps(s: string, kind: string, attrs: string, kvs: seq<(string, string)>, l: Line)
    requires |s| >= 11 && s[..11] == "##teamcity[" && Split(s[11..], ' ') == Some((kind, attrs))
    requires ReadAttributes(attrs) == Some(kvs) && FromParts(kind, kvs) == Some(l)
    ensures Parse(s) == Some(l)
  {
  }

  lemma NoLineBreakConcat(a: string, b: string)
    requires NoLineBreak(a) && NoLineBreak(b)
    ensures NoLineBreak(a + b)
  {
    assert forall i :: 0 <= i < |a + b| ==> (a + b)[i] == if i < |a| then a[i] else b[i - |a|];
  }

  lemma {:induction false} AttributeTextOneLine(kvs: seq<(string, string)>)
    requires forall i :: 0 <= i < |kvs| ==> AttributeOk(kvs[i])
    ensures NoLineBreak(AttributeText(kvs))
    decreases |kvs|
  {
    if |kvs| > 0 {
      AttributeTextOneLine(kvs[1..]);
      var (k, v) := kvs[0];
      assert AttributeOk(kvs[0]);
      NoLineBreakConcat(" ", k);
      NoLineBreakConcat(" " + k, "='");
      NoLineBreakConcat(" " + k + "='", v);
      NoLineBreakConcat(" " + k + "='" + v, "'");
      NoLineBreakConcat(" " + k + "='" + v + "'", AttributeText(kvs[1..]));
    }
  }

  /** A well-formed message prints as a single physical line. */
  lemma RenderIsOneLine(l: Line)
    requires WellFormed(l)
    ensures NoLineBreak(Render(l))
  {
    var kvs := Attributes(l);
    var kind := KindName(l);
    AttributesEscaped(l);
    AttributeTextOneLine(kvs);
    KindNameIsPlain(l);
    NoLineBreakConcat("##teamcity[", kind);
    NoLineBreakConcat("##teamcity[" + kind, AttributeText(kvs));
    NoLineBreakConcat("##teamcity[" + kind + AttributeText(kvs), "]");
  }
}
