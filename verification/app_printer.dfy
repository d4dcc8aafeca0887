/**
  The current engine (src/app/printer.ts, class `Printer`).

  When a test file has been collected, `addTestModule` builds the file's
  message sequence in tree order and stores it under the module id; the
  messages of a test that is not already skipped are not built yet but left
  as producers that run only when the sequence is flushed. `handleResult`
  flushes a stored sequence once its task has settled, rendering the
  producers against the runner's state at that moment, and removes it.
  Console output captured for a test is collected by `addTestConsoleLog`
  and rendered inside that test's messages.

  The text of each message is produced by `SuitMessage`, `TestMessage` and
  the engine's `escape`, which are not part of this model: a message is
  kept as a tagged value naming its kind, task and payload.
*/
module AppPrinter {
  import opened Wrappers
  import opened VitestModel
  import MissingResult
  import Seqs

  /** What the engine's `escape` makes of a value, kept symbolic. */
  datatype Label = AppEscaped(raw: Option<string>)

  /** One output message, by kind, flow id and payload. */
  datatype Message =
    | SuiteOpened(flowId: Id, title: Label)
    | SuiteClosed(flowId: Id, title: Label)
    | CaseStarted(flowId: Id, name: string)
    | CaseIgnored(flowId: Id, name: string)
    | CaseLog(flowId: Id, name: string, kind: LogKind, content: string)
    | CaseFailed(flowId: Id, name: string, error: TestError)
    | CaseFinished(flowId: Id, name: string, duration: nat)

  /** Where a node sits: its parent's id and its module's id and relative id. */
  datatype Origin = Origin(parent: Id, moduleId: Id, relativeModuleId: Option<string>)

  /** What a deferred producer captures of its test case. */
  datatype CaseRef = CaseRef(id: Id, name: string, at: Origin)

  /** An entry of a stored sequence: a finished message, or a producer run at flush time. */
  datatype PotentialMessage = Literal(message: Message) | Deferred(test: CaseRef)

  /** `fileMessageMap` and `testConsoleMap`. */
  datatype Printer = Printer(
    fileMessages: map<Id, seq<PotentialMessage>>,
    testConsole: map<Id, seq<ConsoleLog>>)

  // ---------------------------------------------------------------------------
  // Building a module's sequence
  // ---------------------------------------------------------------------------

  /** Whether the runner reports the case skipped; `None` when `result()` is null and reading its state throws. */
  function SkippedAtBuild(id: Id, w: World): Option<bool> {
    if id in w.results then Some(w.results[id].state == Skipped) else None
  }

  function SuiteSkipped(id: Id, w: World): bool {
    id in w.states && w.states[id] == Skipped
  }

  /** `handleTest`: a literal `ignored` message for a skipped case, a producer otherwise; `None` if it throws. */
  function HandleTest(id: Id, name: string, at: Origin, w: World): (r: Option<PotentialMessage>)
    ensures r.None? <==> id !in w.results
    ensures r.Some? ==> (r.value.Literal? <==> w.results[id].state == Skipped)
    ensures r.Some? && r.value.Literal? ==> r.value.message == CaseIgnored(id, name)
    ensures r.Some? && r.value.Deferred? ==> r.value.test == CaseRef(id, name, at)
  {
    match SkippedAtBuild(id, w)
    case None => None
    case Some(skipped) =>
      if skipped then Some(Literal(CaseIgnored(id, name)))
      else Some(Deferred(CaseRef(id, name, at)))
  }

  function HandleTask(n: Node, at: Origin, w: World): (r: Option<seq<PotentialMessage>>)
    ensures n.Case? ==> (r.None? <==> n.id !in w.results)
    ensures n.Case? && r.Some? ==> |r.value| == 1
    ensures n.Suite? && SuiteSkipped(n.id, w) ==> r == Some([])
    decreases n, 1
  {
    match n
    case Case(id, name) =>
      (match HandleTest(id, name, at, w)
       case None => None
       case Some(pm) => Some([pm]))
    case Suite(id, _, _) =>
      if SuiteSkipped(id, w) then Some([]) else HandleSuite(n, at, w)
  }

  function HandleSuite(s: Node, at: Origin, w: World): (r: Option<seq<PotentialMessage>>)
    requires s.Suite?
    ensures r.Some? ==>
      && |r.value| >= 2
      && r.value[0] == Literal(SuiteOpened(s.id, AppEscaped(Some(s.name))))
      && r.value[|r.value| - 1] == Literal(SuiteClosed(s.id, AppEscaped(Some(s.name))))
    decreases s, 0
  {
    var title := AppEscaped(Some(s.name));
    match HandleTasks(s.children, Origin(s.id, at.moduleId, at.relativeModuleId), w)
    case None => None
    case Some(body) => Some([Literal(SuiteOpened(s.id, title))] + body + [Literal(SuiteClosed(s.id, title))])
  }

  /** `children.array().flatMap(handleTask)`: stops at the first child that throws. */
  function HandleTasks(ns: seq<Node>, at: Origin, w: World): (r: Option<seq<PotentialMessage>>)
    ensures r.None? <==> exists i :: 0 <= i < |ns| && HandleTask(ns[i], at, w).None?
    decreases ns, 0
  {
    if |ns| == 0 then Some([])
    else
      match HandleTask(ns[0], at, w)
      case None => None
      case Some(first) =>
        match HandleTasks(ns[1..], at, w)
        case None => None
        case Some(rest) => Some(first + rest)
  }

  function ModuleOrigin(m: TestModule): Origin {
    Origin(m.id, m.id, m.relativeModuleId)
  }

  function ModuleLabel(m: TestModule): Label {
    AppEscaped(m.relativeModuleId)
  }

  /**
    The cases the build reads the result of, in tree order: every case not
    inside a skipped suite.
  */
  function BuiltCases(n: Node, w: World): seq<Id>
    decreases n
  {
    match n
    case Case(id, _) => [id]
    case Suite(id, _, children) => if SuiteSkipped(id, w) then [] else BuiltCasesAll(children, w)
  }

  function BuiltCasesAll(ns: seq<Node>, w: World): seq<Id>
    decreases ns
  {
    if |ns| == 0 then [] else BuiltCases(ns[0], w) + BuiltCasesAll(ns[1..], w)
  }

  predicate AllHaveResults(ids: seq<Id>, w: World) {
    forall i :: 0 <= i < |ids| ==> ids[i] in w.results
  }

  lemma AllHaveResultsConcat(a: seq<Id>, b: seq<Id>, w: World)
    ensures AllHaveResults(a + b, w) <==> AllHaveResults(a, w) && AllHaveResults(b, w)
  {
    if AllHaveResults(a, w) && AllHaveResults(b, w) {
      forall i | 0 <= i < |a + b|
        ensures (a + b)[i] in w.results
      {
        if i >= |a| {
          assert (a + b)[i] == b[i - |a|];
        }
      }
    }
    if AllHaveResults(a + b, w) {
      forall i | 0 <= i < |a|
        ensures a[i] in w.results
      {
        assert (a + b)[i] == a[i];
      }
      forall i | 0 <= i < |b|
        ensures b[i] in w.results
      {
        assert (a + b)[|a| + i] == b[i];
      }
    }
  }

  /** The build throws exactly when a case it reaches has no result. */
  lemma {:induction false} HandleTaskThrows(n: Node, at: Origin, w: World)
    ensures HandleTask(n, at, w).Some? <==> AllHaveResults(BuiltCases(n, w), w)
    decreases n, 1
  {
    match n
    case Case(id, _) =>
      assert BuiltCases(n, w)[0] == id;
    case Suite(id, _, children) =>
      if !SuiteSkipped(id, w) {
        HandleTasksThrows(children, Origin(id, at.moduleId, at.relativeModuleId), w);
      }
  }

  lemma {:induction false} HandleTasksThrows(ns: seq<Node>, at: Origin, w: World)
    ensures HandleTasks(ns, at, w).Some? <==> AllHaveResults(BuiltCasesAll(ns, w), w)
    decreases ns, 0
  {
    if |ns| > 0 {
      HandleTaskThrows(ns[0], at, w);
      HandleTasksThrows(ns[1..], at, w);
      AllHaveResultsConcat(BuiltCases(ns[0], w), BuiltCasesAll(ns[1..], w), w);
    }
  }

  /**
    `flatMap(handleTask)` over two runs of siblings: the first run's entries
    followed by the second's, in child order; it throws if either run throws.
  */
  lemma {:induction false} HandleTasksConcat(a: seq<Node>, b: seq<Node>, at: Origin, w: World)
    ensures HandleTasks(a + b, at, w) ==
      if HandleTasks(a, at, w).Some? && HandleTasks(b, at, w).Some?
      then Some(HandleTasks(a, at, w).value + HandleTasks(b, at, w).value)
      else None
    decreases |a|
  {
    if |a| == 0 {
      assert a + b == b;
      assert HandleTasks(a, at, w) == Some([]);
      if HandleTasks(b, at, w).Some? {
        assert [] + HandleTasks(b, at, w).value == HandleTasks(b, at, w).value;
      }
    } else {
      assert (a + b)[0] == a[0];
      assert (a + b)[1..] == a[1..] + b;
      HandleTasksConcat(a[1..], b, at, w);
      var first, rest, second := HandleTask(a[0], at, w), HandleTasks(a[1..], at, w), HandleTasks(b, at, w);
      if first.Some? && rest.Some? && second.Some? {
        Seqs.AppendAssoc(first.value, rest.value, second.value);
      }
    }
  }

  /**
    `addTestModule`: stores the module's sequence, opened and closed by the
    module's own suite messages, under its id; `None` when the build throws,
    in which case nothing is stored.
  */
  function AddTestModule(p: Printer, m: TestModule, w: World): (r: Option<Printer>)
    ensures r.Some? <==> AllHaveResults(BuiltCasesAll(m.children, w), w)
    ensures r.Some? ==>
      && r.value.testConsole == p.testConsole
      && r.value.fileMessages.Keys == p.fileMessages.Keys + {m.id}
      && (forall k :: k in p.fileMessages && k != m.id ==> r.value.fileMessages[k] == p.fileMessages[k])
      && var entry := r.value.fileMessages[m.id];
         && |entry| >= 2
         && entry[0] == Literal(SuiteOpened(m.id, ModuleLabel(m)))
         && entry[|entry| - 1] == Literal(SuiteClosed(m.id, ModuleLabel(m)))
  {
    HandleTasksThrows(m.children, ModuleOrigin(m), w);
    match HandleTasks(m.children, ModuleOrigin(m), w)
    case None => None
    case Some(body) =>
      var entry := [Literal(SuiteOpened(m.id, ModuleLabel(m)))] + body + [Literal(SuiteClosed(m.id, ModuleLabel(m)))];
      Some(p.(fileMessages := p.fileMessages[m.id := entry]))
  }

  // ---------------------------------------------------------------------------
  // Rendering at flush time
  // ---------------------------------------------------------------------------

  /** `test.result() == null || test.result().state === 'failed'`. */
  predicate Fails(id: Id, w: World) {
    id !in w.results || w.results[id].state == Failed
  }

  /** The case's own errors, if its result records a list. */
  function OwnErrors(id: Id, w: World): Option<seq<TestError>> {
    if id in w.results then w.results[id].errors else None
  }

  function Lookup(errors: map<Id, seq<TestError>>, id: Id): Option<seq<TestError>> {
    if id in errors then Some(errors[id]) else None
  }

  /**
    `getTestErrors`: the first list that is present among the case's own
    errors, its parent's and its module's, else a missing-result error. A
    present but empty list is returned as it is.
  */
  function GetTestErrors(c: CaseRef, w: World): (r: seq<TestError>)
    ensures r == [] ==>
      OwnErrors(c.id, w) == Some([]) || Lookup(w.errors, c.at.parent) == Some([]) || Lookup(w.errors, c.at.moduleId) == Some([])
    ensures OwnErrors(c.id, w).Some? ==> r == OwnErrors(c.id, w).value
    ensures OwnErrors(c.id, w).None? && Lookup(w.errors, c.at.parent).Some? ==>
      r == Lookup(w.errors, c.at.parent).value
    ensures OwnErrors(c.id, w).None? && Lookup(w.errors, c.at.parent).None? && Lookup(w.errors, c.at.moduleId).Some? ==>
      r == Lookup(w.errors, c.at.moduleId).value
    ensures OwnErrors(c.id, w).None? && Lookup(w.errors, c.at.parent).None? && Lookup(w.errors, c.at.moduleId).None? ==>
      r == [MissingResult.MissingResultError(c.name, c.at.relativeModuleId)]
  {
    match OwnErrors(c.id, w)
    case Some(own) => own
    case None =>
      match Lookup(w.errors, c.at.parent)
      case Some(parent) => parent
      case None =>
        match Lookup(w.errors, c.at.moduleId)
        case Some(inModule) => inModule
        case None => [MissingResult.MissingResultError(c.name, c.at.relativeModuleId)]
  }

  /** The three places `getTestErrors` looks, in the order its `??` chain reads them. */
  function ErrorSources(c: CaseRef, w: World): seq<Option<seq<TestError>>> {
    [OwnErrors(c.id, w), Lookup(w.errors, c.at.parent), Lookup(w.errors, c.at.moduleId)]
  }

  /** Reference reading of a `??` chain: the first present value, else the fallback. */
  function FirstPresent(sources: seq<Option<seq<TestError>>>, fallback: seq<TestError>): seq<TestError> {
    if |sources| == 0 then fallback
    else if sources[0].Some? then sources[0].value
    else FirstPresent(sources[1..], fallback)
  }

  /** `getTestErrors` is the left-to-right `??` chain over its three sources. */
  lemma GetTestErrorsIsFirstPresent(c: CaseRef, w: World)
    ensures GetTestErrors(c, w) ==
      FirstPresent(ErrorSources(c, w), [MissingResult.MissingResultError(c.name, c.at.relativeModuleId)])
  {
    var src := ErrorSources(c, w);
    var fallback := [MissingResult.MissingResultError(c.name, c.at.relativeModuleId)];
    assert src[1..] == [src[1], src[2]];
    assert src[1..][1..] == [src[2]];
    assert FirstPresent([src[2]], fallback) == if src[2].Some? then src[2].value else fallback by {
      assert [src[2]][1..] == [];
    }
  }

  function ConsoleOf(console: map<Id, seq<ConsoleLog>>, id: Id): seq<ConsoleLog> {
    if id in console then console[id] else []
  }

  function LogMessages(c: CaseRef, logs: seq<ConsoleLog>): (r: seq<Message>)
    ensures |r| == |logs|
    ensures forall i :: 0 <= i < |logs| ==> r[i] == CaseLog(c.id, c.name, logs[i].kind, logs[i].content)
  {
    if |logs| == 0 then [] else [CaseLog(c.id, c.name, logs[0].kind, logs[0].content)] + LogMessages(c, logs[1..])
  }

  function FailMessages(c: CaseRef, errors: seq<TestError>): (r: seq<Message>)
    ensures |r| == |errors|
    ensures forall i :: 0 <= i < |errors| ==> r[i] == CaseFailed(c.id, c.name, errors[i])
  {
    if |errors| == 0 then [] else [CaseFailed(c.id, c.name, errors[0])] + FailMessages(c, errors[1..])
  }

  function Duration(id: Id, w: World): nat {
    if id in w.durations then w.durations[id] else 0
  }

  /** A case's block: started, the logs, one failure per error, finished. */
  function CaseBlock(c: CaseRef, logs: seq<ConsoleLog>, errors: seq<TestError>, duration: nat): (r: seq<Message>)
    ensures |r| == 2 + |logs| + |errors|
    ensures r[0] == CaseStarted(c.id, c.name)
    ensures forall i :: 0 <= i < |logs| ==> r[1 + i] == CaseLog(c.id, c.name, logs[i].kind, logs[i].content)
    ensures forall i :: 0 <= i < |errors| ==> r[1 + |logs| + i] == CaseFailed(c.id, c.name, errors[i])
    ensures r[|r| - 1] == CaseFinished(c.id, c.name, duration)
  {
    var head := [CaseStarted(c.id, c.name)] + LogMessages(c, logs);
    var tail := FailMessages(c, errors) + [CaseFinished(c.id, c.name, duration)];
    assert forall i :: 0 <= i < |logs| ==> head[1 + i] == LogMessages(c, logs)[i];
    assert forall i :: 0 <= i < |errors| ==> tail[i] == FailMessages(c, errors)[i];
    head + tail
  }

  /**
    The deferred producer of `handleTest`, run at flush time against the
    runner's state `w` and the console logs collected so far: started, then
    the logs in arrival order, then one failure per error when the case
    fails, then finished with the duration (0 when unknown).
  */
  function RenderCase(c: CaseRef, w: World, console: map<Id, seq<ConsoleLog>>): (r: seq<Message>)
    ensures var logs := ConsoleOf(console, c.id);
      var errors := if Fails(c.id, w) then GetTestErrors(c, w) else [];
      && |r| == 2 + |logs| + |errors|
      && r[0] == CaseStarted(c.id, c.name)
      && (forall i :: 0 <= i < |logs| ==> r[1 + i] == CaseLog(c.id, c.name, logs[i].kind, logs[i].content))
      && (forall i :: 0 <= i < |errors| ==> r[1 + |logs| + i] == CaseFailed(c.id, c.name, errors[i]))
      && r[|r| - 1] == CaseFinished(c.id, c.name, Duration(c.id, w))
  {
    CaseBlock(c, ConsoleOf(console, c.id), if Fails(c.id, w) then GetTestErrors(c, w) else [], Duration(c.id, w))
  }

  /** One stored entry at flush time: a literal is printed as is, a producer runs now. */
  function RenderOne(pm: PotentialMessage, w: World, console: map<Id, seq<ConsoleLog>>): (r: seq<Message>)
    ensures |r| >= 1
    ensures pm.Literal? ==> r == [pm.message]
  {
    match pm
    case Literal(m) => [m]
    case Deferred(c) => RenderCase(c, w, console)
  }

  /** The messages of a sequence of literal entries, in order. */
  function LiteralMessages(pms: seq<PotentialMessage>): (r: seq<Message>)
    requires forall i :: 0 <= i < |pms| ==> pms[i].Literal?
    ensures |r| == |pms| && forall i :: 0 <= i < |pms| ==> r[i] == pms[i].message
  {
    if |pms| == 0 then [] else [pms[0].message] + LiteralMessages(pms[1..])
  }

  /** The flush's `flatMap`: literals pass through, producers run now. */
  function RenderAll(pms: seq<PotentialMessage>, w: World, console: map<Id, seq<ConsoleLog>>): (r: seq<Message>)
    ensures |r| >= |pms|
    ensures (forall i :: 0 <= i < |pms| ==> pms[i].Literal?) ==> r == LiteralMessages(pms)
  {
    if |pms| == 0 then [] else RenderOne(pms[0], w, console) + RenderAll(pms[1..], w, console)
  }

  /** A case renders a failure message only when it fails, and then one per error found. */
  lemma FailuresOnlyWhenFailing(c: CaseRef, w: World, console: map<Id, seq<ConsoleLog>>)
    ensures (exists i :: 0 <= i < |RenderCase(c, w, console)| && RenderCase(c, w, console)[i].CaseFailed?)
      <==> Fails(c.id, w) && GetTestErrors(c, w) != []
  {
    var r := RenderCase(c, w, console);
    var logs := ConsoleOf(console, c.id);
    if Fails(c.id, w) && GetTestErrors(c, w) != [] {
      assert r[1 + |logs|].CaseFailed?;
    }
  }

  // ---------------------------------------------------------------------------
  // Finding: a present but empty error list hides the failure
  // ---------------------------------------------------------------------------

  /**
    `??` falls through only on null, so an empty list from the case or its
    parent ends the search. A failed case that recorded no errors of its own
    is collected as a producer; if its suite's error list is empty, it renders
    only started and finished, and the missing-result error is never produced.
  */
  lemma EmptyErrorListHidesFailure()
    ensures var at := Origin("s1", "m1", Some("math.test.ts"));
      var c := CaseRef("t1", "adds", at);
      var w := World(map["t1" := TestResult(Failed, None)], map[], map[], map["s1" := []]);
      && HandleTest("t1", "adds", at, w) == Some(Deferred(c))
      && Fails(c.id, w)
      && RenderCase(c, w, map[]) == [CaseStarted("t1", "adds"), CaseFinished("t1", "adds", 0)]
  {
    var c := CaseRef("t1", "adds", Origin("s1", "m1", Some("math.test.ts")));
    var w := World(map["t1" := TestResult(Failed, None)], map[], map[], map["s1" := []]);
    assert GetTestErrors(c, w) == [];
    var r := RenderCase(c, w, map[]);
    assert |r| == 2;
  }

  /** The first list in the chain that is present and non-empty, else the missing-result error. */
  function GetTestErrorsNonEmpty(c: CaseRef, w: World): (r: seq<TestError>)
    ensures r != []
    ensures OwnErrors(c.id, w).GetOr([]) != [] ==> r == OwnErrors(c.id, w).value
    ensures OwnErrors(c.id, w).GetOr([]) == [] && Lookup(w.errors, c.at.parent).GetOr([]) != [] ==>
      r == Lookup(w.errors, c.at.parent).value
    ensures (OwnErrors(c.id, w).GetOr([]) == [] && Lookup(w.errors, c.at.parent).GetOr([]) == [] &&
             Lookup(w.errors, c.at.moduleId).GetOr([]) != []) ==>
      r == Lookup(w.errors, c.at.moduleId).value
    ensures (OwnErrors(c.id, w).GetOr([]) == [] && Lookup(w.errors, c.at.parent).GetOr([]) == [] &&
             Lookup(w.errors, c.at.moduleId).GetOr([]) == []) ==>
      r == [MissingResult.MissingResultError(c.name, c.at.relativeModuleId)]
  {
    var own := OwnErrors(c.id, w).GetOr([]);
    var parent := Lookup(w.errors, c.at.parent).GetOr([]);
    var inModule := Lookup(w.errors, c.at.moduleId).GetOr([]);
    if own != [] then own
    else if parent != [] then parent
    else if inModule != [] then inModule
    else [MissingResult.MissingResultError(c.name, c.at.relativeModuleId)]
  }

  /** Reference for the correction: the first source that is present and non-empty, else the fallback. */
  function FirstNonEmpty(sources: seq<Option<seq<TestError>>>, fallback: seq<TestError>): seq<TestError> {
    if |sources| == 0 then fallback
    else if sources[0].GetOr([]) != [] then sources[0].value
    else FirstNonEmpty(sources[1..], fallback)
  }

  lemma GetTestErrorsNonEmptyIsFirstNonEmpty(c: CaseRef, w: World)
    ensures GetTestErrorsNonEmpty(c, w) ==
      FirstNonEmpty(ErrorSources(c, w), [MissingResult.MissingResultError(c.name, c.at.relativeModuleId)])
  {
    var src := ErrorSources(c, w);
    var fallback := [MissingResult.MissingResultError(c.name, c.at.relativeModuleId)];
    assert src[1..] == [src[1], src[2]];
    assert src[1..][1..] == [src[2]];
    assert FirstNonEmpty([src[2]], fallback) == if src[2].GetOr([]) != [] then src[2].value else fallback by {
      assert [src[2]][1..] == [];
    }
  }

  /** The corrected producer: as `RenderCase`, with the error chain skipping empty lists. */
  function RenderCaseReported(c: CaseRef, w: World, console: map<Id, seq<ConsoleLog>>): seq<Message> {
    CaseBlock(c, ConsoleOf(console, c.id), if Fails(c.id, w) then GetTestErrorsNonEmpty(c, w) else [], Duration(c.id, w))
  }

  /** With the correction, a failing case always renders at least one failure, and a passing one none. */
  lemma FailingCaseAlwaysReported(c: CaseRef, w: World, console: map<Id, seq<ConsoleLog>>)
    ensures var r := RenderCaseReported(c, w, console);
      (exists i :: 0 <= i < |r| && r[i].CaseFailed?) <==> Fails(c.id, w)
  {
    var r := RenderCaseReported(c, w, console);
    if Fails(c.id, w) {
      assert r[1 + |ConsoleOf(console, c.id)|].CaseFailed?;
    }
  }

  /** Where no list in the chain is present but empty, the correction changes nothing. */
  lemma CorrectionAgreesWithoutEmptyLists(c: CaseRef, w: World, console: map<Id, seq<ConsoleLog>>)
    requires OwnErrors(c.id, w) != Some([])
    requires Lookup(w.errors, c.at.parent) != Some([]) && Lookup(w.errors, c.at.moduleId) != Some([])
    ensures GetTestErrorsNonEmpty(c, w) == GetTestErrors(c, w)
    ensures RenderCaseReported(c, w, console) == RenderCase(c, w, console)
  {
  }

  // ---------------------------------------------------------------------------
  // Console logs and flushing
  // ---------------------------------------------------------------------------

  /** `addTestConsoleLog`: appends the log to the test's list, creating it if needed. */
  function AddTestConsoleLog(p: Printer, id: Id, log: ConsoleLog): (r: Printer)
    ensures r.fileMessages == p.fileMessages
    ensures r.testConsole.Keys == p.testConsole.Keys + {id}
    ensures ConsoleOf(r.testConsole, id) == ConsoleOf(p.testConsole, id) + [log]
    ensures forall k :: k != id ==> ConsoleOf(r.testConsole, k) == ConsoleOf(p.testConsole, k)
  {
    if id in p.testConsole then p.(testConsole := p.testConsole[id := p.testConsole[id] + [log]])
    else p.(testConsole := p.testConsole[id := [log]])
  }

  /** The task `handleResult` receives. */
  datatype TaskRef = CaseTask(id: Id) | SuiteTask(id: Id) | ModuleTask(id: Id)

  /**
    The state `handleResult` reads: the result's state for a case (`None`
    when `result()` is null, where reading it throws), `state()` otherwise
    (`Some(None)` when it is null).
  */
  function ResolvedState(task: TaskRef, w: World): Option<Option<State>> {
    match task
    case CaseTask(id) => if id in w.results then Some(Some(w.results[id].state)) else None
    case _ => Some(if task.id in w.states then Some(w.states[task.id]) else None)
  }

  predicate Settled(task: TaskRef, w: World) {
    var s := ResolvedState(task, w);
    s.Some? && s.value.Some? && s.value.value != Pending
  }

  /** The printer after a call, and what the call printed. */
  datatype Flush = Flush(printer: Printer, out: seq<Message>)

  /**
    `handleResult`: when a sequence is stored under the task's id and the
    task has settled, prints it rendered now and removes it; otherwise does
    nothing. `None` when reading a case's state throws.
  */
  function HandleResult(p: Printer, task: TaskRef, w: World): (r: Option<Flush>)
    ensures r.None? <==> task.CaseTask? && task.id !in w.results
    ensures r.Some? ==> r.value.printer.testConsole == p.testConsole
    ensures r.Some? && Settled(task, w) ==> r.value.printer.fileMessages.Keys == p.fileMessages.Keys - {task.id}
    ensures r.Some? && !Settled(task, w) ==> r.value.printer == p
    ensures r.Some? ==> forall k :: k in r.value.printer.fileMessages ==> r.value.printer.fileMessages[k] == p.fileMessages[k]
    ensures r.Some? && r.value.out != [] ==> task.id in p.fileMessages && Settled(task, w)
    ensures r.Some? && task.id in p.fileMessages && Settled(task, w) ==>
      r.value.out == RenderAll(p.fileMessages[task.id], w, p.testConsole)
  {
    match ResolvedState(task, w)
    case None => None
    case Some(state) =>
      if task.id in p.fileMessages && state.Some? && state.value != Pending then
        Some(Flush(p.(fileMessages := p.fileMessages - {task.id}), RenderAll(p.fileMessages[task.id], w, p.testConsole)))
      else Some(Flush(p, []))
  }

  /** Flushing is idempotent: once a task has flushed, handling it again prints nothing and changes nothing. */
  lemma HandleResultTwice(p: Printer, task: TaskRef, w: World, w2: World)
    requires HandleResult(p, task, w).Some? && Settled(task, w)
    requires task.CaseTask? ==> task.id in w2.results
    ensures var q := HandleResult(p, task, w).value.printer;
      HandleResult(q, task, w2) == Some(Flush(q, []))
  {
  }
}
