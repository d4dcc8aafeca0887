/**
  The legacy reporter's two printers (src/printer.ts).

  `printTask` walks a collected task tree depth-first, printing the opening
  message of each suite and test before its children, and records every
  suite and test in a task index. `printTaskResultPack` prints, for a task
  found in that index, the message that closes it once a result arrives; it
  never changes the index.

  Printing is modelled as appending to the `out` sequence of the result.
*/
module LegacyPrinter {
  import opened Wrappers
  import opened Escaping
  import opened LegacyLines
  import VitestModel
  import opened Seqs

  datatype Mode = Run | Skip | Only | Todo

  /** The runner's collected task tree; a custom task is neither a suite nor a test. */
  datatype Task =
    | SuiteTask(id: string, name: string, mode: Mode, tasks: seq<Task>)
    | TestTask(id: string, name: string, mode: Mode)
    | CustomTask(id: string, name: string, mode: Mode)

  type TaskIndex = map<string, Task>

  /** The index after a walk, and the messages printed during it, in order. */
  datatype Printed = Printed(index: TaskIndex, out: seq<Line>)

  function BuildTestName(t: Task): (r: string)
    ensures Unescape(r) == Some(StripAnsi(t.name))
    ensures NoLineBreak(r)
  {
    Escape(Some(t.name))
  }

  // ---------------------------------------------------------------------------
  // printTask
  // ---------------------------------------------------------------------------

  function PrintTask(index: TaskIndex, t: Task): (p: Printed)
    ensures index.Keys <= p.index.Keys
    ensures forall i :: 0 <= i < |p.out| ==> p.out[i].SuiteStarted? || p.out[i].TestStarted? || p.out[i].TestIgnored?
    decreases t
  {
    match t
    case SuiteTask(id, name, mode, tasks) =>
      var opening := if mode == Run then [SuiteStarted(name, id)] else [];
      var rest := PrintTasks(index[id := t], tasks);
      Printed(rest.index, opening + rest.out)
    case TestTask(id, _, mode) =>
      var name := BuildTestName(t);
      var ignored := if mode == Skip then [TestIgnored(name, "", id)] else [];
      var started := if mode == Run then [TestStarted(name, id)] else [];
      Printed(index[id := t], ignored + started)
    case CustomTask(_, _, _) =>
      Printed(index, [])
  }

  /** `tasks.forEach(printTask(taskIndex))`: each child sees the index its elder siblings left. */
  function PrintTasks(index: TaskIndex, ts: seq<Task>): (p: Printed)
    ensures index.Keys <= p.index.Keys
    ensures forall i :: 0 <= i < |p.out| ==> p.out[i].SuiteStarted? || p.out[i].TestStarted? || p.out[i].TestIgnored?
    decreases ts
  {
    if |ts| == 0 then Printed(index, [])
    else
      var first := PrintTask(index, ts[0]);
      var rest := PrintTasks(first.index, ts[1..]);
      Printed(rest.index, first.out + rest.out)
  }

  // ---------------------------------------------------------------------------
  // The pre-order reference
  // ---------------------------------------------------------------------------

  /** Every task of the tree, each before its children, children in array order. */
  function Preorder(t: Task): seq<Task>
    decreases t
  {
    match t
    case SuiteTask(_, _, _, tasks) => [t] + PreorderAll(tasks)
    case _ => [t]
  }

  function PreorderAll(ts: seq<Task>): seq<Task>
    decreases ts
  {
    if |ts| == 0 then [] else Preorder(ts[0]) + PreorderAll(ts[1..])
  }

  /** The message printed for the task itself, before anything of its children. */
  function Opening(t: Task): (r: seq<Line>)
    ensures forall i :: 0 <= i < |r| ==> r[i].flowId == t.id
    ensures |r| <= 1
  {
    match t
    case SuiteTask(id, name, mode, _) => if mode == Run then [SuiteStarted(name, id)] else []
    case TestTask(id, _, mode) =>
      if mode == Skip then [TestIgnored(BuildTestName(t), "", id)]
      else if mode == Run then [TestStarted(BuildTestName(t), id)]
      else []
    case CustomTask(_, _, _) => []
  }

  function Openings(ts: seq<Task>): seq<Line> {
    if |ts| == 0 then [] else Opening(ts[0]) + Openings(ts[1..])
  }

  /** The ids `printTask` records: those of suites and tests. */
  function IndexedIds(ts: seq<Task>): set<string> {
    set i | 0 <= i < |ts| && !ts[i].CustomTask? :: ts[i].id
  }

  lemma {:induction false} OpeningsConcat(a: seq<Task>, b: seq<Task>)
    ensures Openings(a + b) == Openings(a) + Openings(b)
    decreases |a|
  {
    if |a| > 0 {
      var rest := a[1..];
      assert Openings(a + b) == Opening(a[0]) + Openings(rest + b) by {
        assert (a + b)[0] == a[0];
        assert (a + b)[1..] == rest + b;
      }
      OpeningsConcat(rest, b);
      AppendAssoc(Opening(a[0]), Openings(rest), Openings(b));
    } else {
      assert a + b == b;
    }
  }

  lemma IndexedIdsConcat(a: seq<Task>, b: seq<Task>)
    ensures IndexedIds(a + b) == IndexedIds(a) + IndexedIds(b)
  {
    forall k | k in IndexedIds(a + b)
      ensures k in IndexedIds(a) + IndexedIds(b)
    {
      var i :| 0 <= i < |a + b| && !(a + b)[i].CustomTask? && (a + b)[i].id == k;
      if i >= |a| {
        assert b[i - |a|] == (a + b)[i];
      }
    }
    forall k | k in IndexedIds(a) + IndexedIds(b)
      ensures k in IndexedIds(a + b)
    {
      if k in IndexedIds(a) {
        var i :| 0 <= i < |a| && !a[i].CustomTask? && a[i].id == k;
        assert (a + b)[i] == a[i];
      } else {
        var i :| 0 <= i < |b| && !b[i].CustomTask? && b[i].id == k;
        assert (a + b)[|a| + i] == b[i];
      }
    }
  }

  lemma IndexedIdsSingle(t: Task)
    ensures IndexedIds([t]) == if t.CustomTask? then {} else {t.id}
  {
    if !t.CustomTask? {
      assert [t][0] == t;
    }
  }

  /** The index after a walk: old entries outside the walk kept, walked ids mapped to walked tasks. */
  predicate IndexAfter(before: TaskIndex, walked: seq<Task>, after: TaskIndex) {
    && after.Keys == before.Keys + IndexedIds(walked)
    && (forall k :: k in after && k !in IndexedIds(walked) ==> after[k] == before[k])
    && (forall k :: k in IndexedIds(walked) ==> after[k] in walked && after[k].id == k)
  }

  /**
    `printTask` is a depth-first pre-order walk: it prints exactly the opening
    messages of the pre-order sequence, in that order, and indexes exactly
    the suites and tests of that sequence.
  */
  lemma {:induction false} PrintTaskIsPreorder(index: TaskIndex, t: Task)
    ensures PrintTask(index, t).out == Openings(Preorder(t))
    ensures IndexAfter(index, Preorder(t), PrintTask(index, t).index)
    decreases t
  {
    match t
    case SuiteTask(id, name, mode, tasks) =>
      var inner := index[id := t];
      PrintTasksIsPreorder(inner, tasks);
      var rest := PrintTasks(inner, tasks);
      var below := PreorderAll(tasks);
      assert Preorder(t) == [t] + below;
      OpeningsConcat([t], below);
      assert Openings([t]) == Opening(t);
      IndexedIdsConcat([t], below);
      IndexedIdsSingle(t);
      forall k | k in IndexedIds(Preorder(t))
        ensures rest.index[k] in Preorder(t) && rest.index[k].id == k
      {
        if k !in IndexedIds(below) {
          assert k == id;
        }
      }
    case TestTask(_, _, _) =>
      IndexedIdsSingle(t);
    case CustomTask(_, _, _) =>
      IndexedIdsSingle(t);
  }

  lemma {:induction false} PrintTasksIsPreorder(index: TaskIndex, ts: seq<Task>)
    ensures PrintTasks(index, ts).out == Openings(PreorderAll(ts))
    ensures IndexAfter(index, PreorderAll(ts), PrintTasks(index, ts).index)
    decreases ts
  {
    if |ts| == 0 {
      assert IndexedIds([]) == {};
    } else {
      var first := PrintTask(index, ts[0]);
      PrintTaskIsPreorder(index, ts[0]);
      PrintTasksIsPreorder(first.index, ts[1..]);
      var a, b := Preorder(ts[0]), PreorderAll(ts[1..]);
      OpeningsConcat(a, b);
      IndexedIdsConcat(a, b);
      var after := PrintTasks(index, ts).index;
      forall k | k in IndexedIds(a + b)
        ensures after[k] in a + b && after[k].id == k
      {
        if k !in IndexedIds(b) {
          assert after[k] == first.index[k];
        }
      }
    }
  }

  // ---------------------------------------------------------------------------
  // What each task contributes
  // ---------------------------------------------------------------------------

  /** The messages of `ls` whose flow id is `id`, in order. */
  function LinesFor(ls: seq<Line>, id: string): (r: seq<Line>)
    ensures forall i :: 0 <= i < |r| ==> r[i].flowId == id
  {
    if |ls| == 0 then []
    else (if ls[0].flowId == id then [ls[0]] else []) + LinesFor(ls[1..], id)
  }

  lemma {:induction false} LinesForConcat(a: seq<Line>, b: seq<Line>, id: string)
    ensures LinesFor(a + b, id) == LinesFor(a, id) + LinesFor(b, id)
    decreases |a|
  {
    if |a| > 0 {
      assert (a + b)[1..] == a[1..] + b;
      LinesForConcat(a[1..], b, id);
    } else {
      assert a + b == b;
    }
  }

  lemma LinesForOpening(t: Task, id: string)
    ensures LinesFor(Opening(t), id) == if t.id == id then Opening(t) else []
  {
    var r := Opening(t);
    if |r| == 1 {
      assert r[1..] == [];
    }
  }

  predicate UniqueIds(ts: seq<Task>) {
    forall i, j :: 0 <= i < j < |ts| ==> ts[i].id != ts[j].id
  }

  /** With unique ids, the messages carrying a task's id are exactly that task's opening. */
  lemma {:induction false} OpeningsProjection(ts: seq<Task>, i: nat)
    requires UniqueIds(ts) && i < |ts|
    ensures LinesFor(Openings(ts), ts[i].id) == Opening(ts[i])
    decreases |ts|
  {
    var id := ts[i].id;
    LinesForConcat(Opening(ts[0]), Openings(ts[1..]), id);
    LinesForOpening(ts[0], id);
    if i == 0 {
      OpeningsAbsent(ts[1..], id);
    } else {
      OpeningsProjection(ts[1..], i - 1);
    }
  }

  lemma {:induction false} OpeningsAbsent(ts: seq<Task>, id: string)
    requires forall j :: 0 <= j < |ts| ==> ts[j].id != id
    ensures LinesFor(Openings(ts), id) == []
    decreases |ts|
  {
    if |ts| > 0 {
      LinesForConcat(Opening(ts[0]), Openings(ts[1..]), id);
      LinesForOpening(ts[0], id);
      OpeningsAbsent(ts[1..], id);
    }
  }

  /**
    In a tree with unique ids, a skip-mode test is printed as exactly one
    `testIgnored` and never started, a run-mode test as exactly one
    `testStarted`, and a test in any other mode not at all.
  */
  lemma PrintTaskPerTest(index: TaskIndex, t: Task, i: nat)
    requires UniqueIds(Preorder(t)) && i < |Preorder(t)| && Preorder(t)[i].TestTask?
    ensures var u := Preorder(t)[i];
      var mine := LinesFor(PrintTask(index, t).out, u.id);
      && (u.mode == Skip ==> mine == [TestIgnored(BuildTestName(u), "", u.id)])
      && (u.mode == Run ==> mine == [TestStarted(BuildTestName(u), u.id)])
      && (u.mode != Skip && u.mode != Run ==> mine == [])
  {
    PrintTaskIsPreorder(index, t);
    OpeningsProjection(Preorder(t), i);
  }

  /** A run-mode suite's `testSuiteStarted` comes before every message of its descendants. */
  lemma SuiteStartedFirst(index: TaskIndex, t: Task)
    requires t.SuiteTask? && t.mode == Run
    ensures PrintTask(index, t).out == [SuiteStarted(t.name, t.id)] + Openings(PreorderAll(t.tasks))
  {
    PrintTaskIsPreorder(index, t);
    OpeningsConcat([t], PreorderAll(t.tasks));
    assert Openings([t]) == Opening(t);
  }

  // ---------------------------------------------------------------------------
  // printTaskResultPack
  // ---------------------------------------------------------------------------

  datatype TaskState = StateRun | StateSkip | StateOnly | StateTodo | StatePass | StateFail

  /** A task result as it arrives in a result pack; `error` is the result's `error` field, if set. */
  datatype TaskResult = TaskResult(
    state: TaskState,
    duration: Option<nat>,
    error: Option<VitestModel.TestError>)

  /** `printTestFailed(name, { message: error?.message, … })`: missing fields default to ''. */
  function FailedLine(name: string, error: Option<VitestModel.TestError>, flowId: string): (r: Line)
    ensures r.TestFailed? && r.name == name && r.flowId == flowId
    ensures error.None? ==> r.message == "" && r.details == "" && r.actual == "" && r.expected == ""
    ensures error.Some? ==>
      && r.message == error.value.message.GetOr("")
      && r.details == error.value.stack.GetOr("")
      && r.actual == error.value.actual.GetOr("")
      && r.expected == error.value.expected.GetOr("")
  {
    match error
    case None => TestFailed(name, "", "", "", "", flowId)
    case Some(e) =>
      TestFailed(name, e.message.GetOr(""), e.stack.GetOr(""), e.actual.GetOr(""), e.expected.GetOr(""), flowId)
  }

  function PrintTaskResultPack(index: TaskIndex, id: string, result: Option<TaskResult>): (r: seq<Line>)
    ensures |r| <= 1
    ensures id !in index || result.None? ==> r == []
    ensures |r| == 1 ==> r[0].flowId == index[id].id
    ensures id in index && result.Some? && index[id].SuiteTask? ==>
      r == [SuiteFinished(Escape(Some(index[id].name)), index[id].id)]
    ensures id in index && result.Some? && !index[id].SuiteTask? ==>
      (r != [] <==> result.value.state in {StateSkip, StatePass, StateFail})
    ensures r != [] && r[0].TestFinished? ==> r[0].duration == result.value.duration.GetOr(0)
    ensures id in index && result.Some? && !index[id].SuiteTask? && result.value.state == StateSkip ==>
      r == [TestIgnored(BuildTestName(index[id]), "", index[id].id)]
    ensures id in index && result.Some? && !index[id].SuiteTask? && result.value.state == StatePass ==>
      r == [TestFinished(BuildTestName(index[id]), result.value.duration.GetOr(0), index[id].id)]
    ensures id in index && result.Some? && !index[id].SuiteTask? && result.value.state == StateFail ==>
      r == [FailedLine(BuildTestName(index[id]), result.value.error, index[id].id)]
  {
    if id !in index then []
    else
      var task := index[id];
      if result.None? then []
      else if task.SuiteTask? then [SuiteFinished(Escape(Some(task.name)), task.id)]
      else
        var name := BuildTestName(task);
        match result.value.state
        case StateSkip => [TestIgnored(name, "", task.id)]
        case StatePass => [TestFinished(name, result.value.duration.GetOr(0), task.id)]
        case StateFail => [FailedLine(name, result.value.error, task.id)]
        case _ => []
  }

  /**
    After `printTask` over a tree with unique ids, the result pack of a
    run-mode suite closes it with the suite's escaped name, the pack of an id
    outside the tree prints nothing, and a skip-mode test whose result is
    `skip` is reported ignored a second time.
  */
  lemma ResultPackAfterPrintTask(t: Task, i: nat, result: TaskResult, other: string)
    requires UniqueIds(Preorder(t)) && i < |Preorder(t)|
    requires forall j :: 0 <= j < |Preorder(t)| ==> Preorder(t)[j].id != other
    ensures var u := Preorder(t)[i];
      var index := PrintTask(map[], t).index;
      && (u.SuiteTask? ==> PrintTaskResultPack(index, u.id, Some(result)) == [SuiteFinished(Escape(Some(u.name)), u.id)])
      && (u.TestTask? && u.mode == Skip && result.state == StateSkip ==>
            PrintTaskResultPack(index, u.id, Some(result)) == LinesFor(PrintTask(map[], t).out, u.id))
      && PrintTaskResultPack(index, other, Some(result)) == []
  {
    var u := Preorder(t)[i];
    var ts := Preorder(t);
    PrintTaskIsPreorder(map[], t);
    var index := PrintTask(map[], t).index;
    if !u.CustomTask? {
      assert u.id in IndexedIds(ts);
      var w := index[u.id];
      var j :| 0 <= j < |ts| && ts[j] == w;
      assert j == i;
    }
    assert other !in IndexedIds(ts);
    if u.TestTask? && u.mode == Skip {
      OpeningsProjection(ts, i);
    }
  }

  // ---------------------------------------------------------------------------
  // Finding: values printed without escaping
  // ---------------------------------------------------------------------------

  /**
    `printTask` passes the suite name to `printSuiteStarted` unescaped
    (src/printer.ts:39), although the same name is escaped for
    `testSuiteFinished` (line 63): a suite whose name is not already in
    escaped form opens with a value the decoder rejects and closes under a
    different name.
  */
  lemma RawSuiteNameMismatch(id: string, name: string, result: TaskResult)
    requires !Escaped(name)
    ensures var t := SuiteTask(id, name, Run, []);
      var p := PrintTask(map[], t);
      && p.out == [SuiteStarted(name, id)]
      && !WellFormed(p.out[0])
      && PrintTaskResultPack(p.index, id, Some(result)) == [SuiteFinished(Escape(Some(name)), id)]
      && Escape(Some(name)) != name
  {
    RawSuiteOpening(SuiteTask(id, name, Run, []));
    EscapedIsEscaped(Some(name));
  }

  /** A concrete instance: the suite `it's`. */
  lemma RawSuiteNameCounterexample()
    ensures var t := SuiteTask("s1", "it's", Run, []);
      var p := PrintTask(map[], t);
      && p.out == [SuiteStarted("it's", "s1")]
      && !WellFormed(p.out[0])
      && PrintTaskResultPack(p.index, "s1", Some(TaskResult(StatePass, None, None))) == [SuiteFinished("it|'s", "s1")]
  {
    var t := SuiteTask("s1", "it's", Run, []);
    RawSuiteOpening(t);
    QuoteNotEscaped();
    EscapeEncodesQuote();
  }

  lemma RawSuiteOpening(t: Task)
    requires t.SuiteTask? && t.mode == Run && t.tasks == []
    ensures PrintTask(map[], t) == Printed(map[t.id := t], [SuiteStarted(t.name, t.id)])
  {
  }

  lemma QuoteNotEscaped()
    ensures !Escaped("it's")
  {
    assert "it's"[1..] == "t's";
    assert "t's"[1..] == "'s";
    assert Unescape("'s") == None;
  }

  /** A failure value that holds a line break breaks the rendered message in two. */
  lemma RawValueBreaksRender(l: Line)
    requires l.TestFailed? && !NoLineBreak(l.message)
    ensures !NoLineBreak(Render(l))
  {
    var kvs := Attributes(l);
    var all := AttributeText(kvs);
    var tail := AttributeText(kvs[1..]);
    assert kvs[1..][0] == ("message", l.message);
    var x := "##teamcity[" + "testFailed";
    var y := " " + "name" + "='" + l.name + "'";
    var z := " " + "message" + "='";
    assert all == y + tail;
    assert tail == z + l.message + "'" + AttributeText(kvs[1..][1..]);
    var j :| 0 <= j < |l.message| && IsLineBreak(l.message[j]);
    assert tail[|z| + j] == l.message[j];
    assert all[|y| + |z| + j] == l.message[j];
    assert Render(l)[|x| + |y| + |z| + j] == l.message[j];
  }

  /**
    `printTaskResultPack` puts the error message, stack, actual and expected
    on the wire unescaped (src/printer.ts:78-81): a failure whose message is
    `a\nb` prints a `testFailed` that spans two lines.
  */
  lemma RawFailureCounterexample()
    ensures var index := map["t1" := TestTask("t1", "t", Run)];
      var err := VitestModel.TestError(Some("a\nb"), None, None, None);
      var r := PrintTaskResultPack(index, "t1", Some(TaskResult(StateFail, None, Some(err))));
      && |r| == 1 && r[0].TestFailed? && r[0].message == "a\nb"
      && !WellFormed(r[0])
      && !NoLineBreak(Render(r[0]))
  {
    var index := map["t1" := TestTask("t1", "t", Run)];
    var err := VitestModel.TestError(Some("a\nb"), None, None, None);
    var r := PrintTaskResultPack(index, "t1", Some(TaskResult(StateFail, None, Some(err))));
    assert "a\nb"[1] == '\n';
    assert !NoLineBreak("a\nb");
    RawValueBreaksRender(r[0]);
  }

  /** The corrected printers: every value escaped, as the test names already are. */
  function EscapeRawValues(l: Line): Line {
    match l
    case SuiteStarted(name, flowId) => SuiteStarted(Escape(Some(name)), flowId)
    case TestFailed(name, message, details, actual, expected, flowId) =>
      TestFailed(name, Escape(Some(message)), Escape(Some(details)), Escape(Some(actual)), Escape(Some(expected)), flowId)
    case _ => l
  }

  function EscapeAll(ls: seq<Line>): (r: seq<Line>)
    ensures |r| == |ls|
    ensures forall i :: 0 <= i < |ls| ==> r[i] == EscapeRawValues(ls[i])
  {
    if |ls| == 0 then [] else [EscapeRawValues(ls[0])] + EscapeAll(ls[1..])
  }

  function PrintTaskEscaped(index: TaskIndex, t: Task): Printed {
    var p := PrintTask(index, t);
    Printed(p.index, EscapeAll(p.out))
  }

  function PrintTaskResultPackEscaped(index: TaskIndex, id: string, result: Option<TaskResult>): seq<Line> {
    EscapeAll(PrintTaskResultPack(index, id, result))
  }

  lemma EscapedIsEscaped(s: Option<string>)
    ensures Escaped(Escape(s))
  {
  }

  /** Escaping the raw values of a message whose other values are escaped makes it well-formed. */
  lemma EscapeRawValuesWellFormed(l: Line)
    requires Escaped(l.flowId)
    requires !l.SuiteStarted? ==> Escaped(l.name)
    requires l.TestIgnored? ==> Escaped(l.message)
    ensures WellFormed(EscapeRawValues(l))
  {
    match l
    case SuiteStarted(name, _) => EscapedIsEscaped(Some(name));
    case TestFailed(_, message, details, actual, expected, _) =>
      EscapedIsEscaped(Some(message));
      EscapedIsEscaped(Some(details));
      EscapedIsEscaped(Some(actual));
      EscapedIsEscaped(Some(expected));
    case _ =>
  }

  /**
    With the correction, and ids free of protocol-special characters, every
    message the walk prints is well-formed, so the server reads each one back
    exactly (`RenderParseRoundTrip`).
  */
  lemma PrintTaskEscapedWellFormed(index: TaskIndex, t: Task)
    requires forall j :: 0 <= j < |Preorder(t)| ==> Escaped(Preorder(t)[j].id)
    ensures forall l :: l in PrintTaskEscaped(index, t).out ==> WellFormed(l)
  {
    PrintTaskIsPreorder(index, t);
    var out := PrintTask(index, t).out;
    OpeningsWellFormedAfterEscape(Preorder(t));
    forall l | l in PrintTaskEscaped(index, t).out
      ensures WellFormed(l)
    {
      var i :| 0 <= i < |out| && l == EscapeRawValues(out[i]);
    }
  }

  lemma {:induction false} OpeningsWellFormedAfterEscape(ts: seq<Task>)
    requires forall j :: 0 <= j < |ts| ==> Escaped(ts[j].id)
    ensures forall i :: 0 <= i < |Openings(ts)| ==> WellFormed(EscapeRawValues(Openings(ts)[i]))
    decreases |ts|
  {
    if |ts| > 0 {
      OpeningsWellFormedAfterEscape(ts[1..]);
      var t := ts[0];
      var o := Opening(t);
      assert Escaped(t.id);
      EscapedIsEscaped(Some(t.name));
      assert Escaped("");
      forall i | 0 <= i < |o|
        ensures WellFormed(EscapeRawValues(o[i]))
      {
        EscapeRawValuesWellFormed(o[i]);
      }
    }
  }

  /** A result pack names its task by the escaped name, and ignores it with an empty message. */
  lemma ResultPackValues(index: TaskIndex, id: string, result: Option<TaskResult>)
    ensures var r := PrintTaskResultPack(index, id, result);
      |r| == 1 ==>
        && r[0].name == Escape(Some(index[id].name))
        && r[0].flowId == index[id].id
        && (r[0].TestIgnored? ==> r[0].message == "")
  {
    if id in index && result.Some? && !index[id].SuiteTask? {
      var task := index[id];
      var name := BuildTestName(task);
      var r := PrintTaskResultPack(index, id, result);
      match result.value.state
      case StateSkip => assert r == [TestIgnored(name, "", task.id)];
      case StatePass => assert r == [TestFinished(name, result.value.duration.GetOr(0), task.id)];
      case StateFail => assert r == [FailedLine(name, result.value.error, task.id)];
      case _ => assert r == [];
    }
  }

  /** With the correction, a result pack prints only well-formed messages. */
  lemma ResultPackEscapedWellFormed(index: TaskIndex, id: string, result: Option<TaskResult>)
    requires id in index ==> Escaped(index[id].id)
    ensures forall l :: l in PrintTaskResultPackEscaped(index, id, result) ==> WellFormed(l)
  {
    var r := PrintTaskResultPack(index, id, result);
    if |r| == 1 {
      ResultPackValues(index, id, result);
      EscapedIsEscaped(Some(index[id].name));
      assert Escaped("");
      EscapeRawValuesWellFormed(r[0]);
      assert PrintTaskResultPackEscaped(index, id, result) == [EscapeRawValues(r[0])];
    }
  }
}
