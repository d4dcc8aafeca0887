/**
  The order and nesting of what the current engine prints for a module.

  A module's flushed output is read with a stack of open suites and cases:
  every suite is closed by its own `SuiteClosed` and every started case by
  its own `CaseFinished`, in last-opened-first-closed order, and a case's
  logs and failures appear between its start and its finish. The suites
  and cases that open, in output order, are those of a depth-first
  pre-order walk of the module that skips the subtrees of suites already
  skipped when the module was collected; the ones that close are those of
  the matching post-order walk, a suite after all of its children.
*/
module PrinterOrder {
  import opened Wrappers
  import opened VitestModel
  import opened AppPrinter
  import Seqs

  datatype Frame = SuiteFrame(id: Id) | CaseFrame(id: Id)

  function Top(open: seq<Frame>): Option<Frame> {
    if |open| == 0 then None else Some(open[|open| - 1])
  }

  function Pop(open: seq<Frame>): seq<Frame> {
    if |open| == 0 then [] else open[..|open| - 1]
  }

  /** Reads `ms` from the stack `open`; `None` at a message outside the block it belongs to. */
  function Scan(ms: seq<Message>, open: seq<Frame>): Option<seq<Frame>> {
    if |ms| == 0 then Some(open)
    else
      match ms[0]
      case SuiteOpened(id, _) => Scan(ms[1..], open + [SuiteFrame(id)])
      case CaseStarted(id, _) => Scan(ms[1..], open + [CaseFrame(id)])
      case CaseIgnored(_, _) => Scan(ms[1..], open)
      case SuiteClosed(id, _) => if Top(open) == Some(SuiteFrame(id)) then Scan(ms[1..], Pop(open)) else None
      case CaseFinished(id, _, _) => if Top(open) == Some(CaseFrame(id)) then Scan(ms[1..], Pop(open)) else None
      case CaseLog(id, _, _, _) => if Top(open) == Some(CaseFrame(id)) then Scan(ms[1..], open) else None
      case CaseFailed(id, _, _) => if Top(open) == Some(CaseFrame(id)) then Scan(ms[1..], open) else None
  }

  /** Every block opened is closed in order, and nothing is closed that was not opened. */
  predicate Balanced(ms: seq<Message>) {
    Scan(ms, []) == Some([])
  }

  lemma {:induction false} ScanConcat(a: seq<Message>, b: seq<Message>, open: seq<Frame>)
    ensures Scan(a + b, open) == match Scan(a, open) case None => None case Some(mid) => Scan(b, mid)
    decreases |a|
  {
    if |a| == 0 {
      assert a + b == b;
    } else {
      assert (a + b)[0] == a[0];
      assert (a + b)[1..] == a[1..] + b;
      match a[0]
      case SuiteOpened(id, _) => ScanConcat(a[1..], b, open + [SuiteFrame(id)]);
      case CaseStarted(id, _) => ScanConcat(a[1..], b, open + [CaseFrame(id)]);
      case CaseIgnored(_, _) => ScanConcat(a[1..], b, open);
      case SuiteClosed(_, _) => ScanConcat(a[1..], b, Pop(open));
      case CaseFinished(_, _, _) => ScanConcat(a[1..], b, Pop(open));
      case CaseLog(_, _, _, _) => ScanConcat(a[1..], b, open);
      case CaseFailed(_, _, _) => ScanConcat(a[1..], b, open);
    }
  }

  lemma {:induction false} RenderAllConcat(a: seq<PotentialMessage>, b: seq<PotentialMessage>, w: World, console: map<Id, seq<ConsoleLog>>)
    ensures RenderAll(a + b, w, console) == RenderAll(a, w, console) + RenderAll(b, w, console)
    decreases |a|
  {
    if |a| == 0 {
      assert a + b == b;
    } else {
      var rest := a[1..];
      assert RenderAll(a + b, w, console) == RenderOne(a[0], w, console) + RenderAll(rest + b, w, console) by {
        assert (a + b)[0] == a[0];
        assert (a + b)[1..] == rest + b;
      }
      RenderAllConcat(rest, b, w, console);
      var head := RenderOne(a[0], w, console);
      assert RenderAll(a, w, console) == head + RenderAll(rest, w, console);
      Seqs.AppendAssoc(head, RenderAll(rest, w, console), RenderAll(b, w, console));
    }
  }

  /** Opening a frame, a body that leaves the stack as it found it, and the frame's closing. */
  lemma Wrapped(o: Message, x: seq<Message>, c: Message, f: Frame, open: seq<Frame>)
    requires Scan([o], open) == Some(open + [f])
    requires Scan(x, open + [f]) == Some(open + [f])
    requires Scan([c], open + [f]) == Some(open)
    ensures Scan([o] + x + [c], open) == Some(open)
  {
    assert [o] + x + [c] == [o] + (x + [c]);
    ScanConcat([o], x + [c], open);
    ScanConcat(x, [c], open + [f]);
  }

  lemma SuiteFrameOpens(id: Id, title: Label, open: seq<Frame>)
    ensures Scan([SuiteOpened(id, title)], open) == Some(open + [SuiteFrame(id)])
    ensures Scan([SuiteClosed(id, title)], open + [SuiteFrame(id)]) == Some(open)
  {
    assert Pop(open + [SuiteFrame(id)]) == open;
  }

  lemma RenderWrapped(o: Message, body: seq<PotentialMessage>, c: Message, w: World, console: map<Id, seq<ConsoleLog>>)
    ensures RenderAll([Literal(o)] + body + [Literal(c)], w, console) == [o] + RenderAll(body, w, console) + [c]
  {
    assert [Literal(o)] + body + [Literal(c)] == [Literal(o)] + (body + [Literal(c)]);
    RenderAllConcat([Literal(o)], body + [Literal(c)], w, console);
    RenderAllConcat(body, [Literal(c)], w, console);
    RenderSingle(Literal(o), w, console);
    RenderSingle(Literal(c), w, console);
    Seqs.AppendAssoc([o], RenderAll(body, w, console), [c]);
  }

  // ---------------------------------------------------------------------------
  // Which suites and cases open
  // ---------------------------------------------------------------------------

  /**
    Three views of an output: every suite or case that opens (started or
    ignored), only the started cases, or every suite or case that closes
    (finished or ignored).
  */
  datatype View = Openings | Starts | Closings

  predicate Shows(v: View, m: Message) {
    match v
    case Openings => m.SuiteOpened? || m.CaseStarted? || m.CaseIgnored?
    case Starts => m.CaseStarted?
    case Closings => m.SuiteClosed? || m.CaseFinished? || m.CaseIgnored?
  }

  /** The flow ids of the messages the view shows, in output order. */
  function FlowIds(ms: seq<Message>, v: View): seq<Id> {
    if |ms| == 0 then []
    else (if Shows(v, ms[0]) then [ms[0].flowId] else []) + FlowIds(ms[1..], v)
  }

  lemma {:induction false} FlowIdsConcat(a: seq<Message>, b: seq<Message>, v: View)
    ensures FlowIds(a + b, v) == FlowIds(a, v) + FlowIds(b, v)
    decreases |a|
  {
    if |a| == 0 {
      assert a + b == b;
    } else {
      assert (a + b)[0] == a[0];
      assert (a + b)[1..] == a[1..] + b;
      FlowIdsConcat(a[1..], b, v);
    }
  }

  lemma FlowIdsWrapped(o: Message, x: seq<Message>, c: Message, v: View)
    ensures FlowIds([o] + x + [c], v) == FlowIds([o], v) + FlowIds(x, v) + FlowIds([c], v)
  {
    assert [o] + x + [c] == [o] + (x + [c]);
    FlowIdsConcat([o], x + [c], v);
    FlowIdsConcat(x, [c], v);
  }

  lemma {:induction false} LogsOpenNothing(c: CaseRef, logs: seq<ConsoleLog>, v: View)
    ensures FlowIds(LogMessages(c, logs), v) == []
    decreases |logs|
  {
    if |logs| > 0 {
      LogsOpenNothing(c, logs[1..], v);
    }
  }

  lemma {:induction false} FailuresOpenNothing(c: CaseRef, errors: seq<TestError>, v: View)
    ensures FlowIds(FailMessages(c, errors), v) == []
    decreases |errors|
  {
    if |errors| > 0 {
      FailuresOpenNothing(c, errors[1..], v);
    }
  }

  /** The suites and cases that open, in pre-order, the subtrees of collection-time skipped suites pruned. */
  function Visited(n: Node, w: World): seq<Id>
    decreases n
  {
    match n
    case Case(id, _) => [id]
    case Suite(id, _, children) => if SuiteSkipped(id, w) then [] else [id] + VisitedAll(children, w)
  }

  function VisitedAll(ns: seq<Node>, w: World): seq<Id>
    decreases ns
  {
    if |ns| == 0 then [] else Visited(ns[0], w) + VisitedAll(ns[1..], w)
  }

  /** The visited cases not skipped at collection, in pre-order. */
  function Ran(n: Node, w: World): seq<Id>
    decreases n
  {
    match n
    case Case(id, _) => if SkippedAtBuild(id, w) == Some(true) then [] else [id]
    case Suite(id, _, children) => if SuiteSkipped(id, w) then [] else RanAll(children, w)
  }

  function RanAll(ns: seq<Node>, w: World): seq<Id>
    decreases ns
  {
    if |ns| == 0 then [] else Ran(ns[0], w) + RanAll(ns[1..], w)
  }

  /** The suites and cases that close, in post-order: a suite after all its children; skipped suites pruned. */
  function Closed(n: Node, w: World): seq<Id>
    decreases n
  {
    match n
    case Case(id, _) => [id]
    case Suite(id, _, children) => if SuiteSkipped(id, w) then [] else ClosedAll(children, w) + [id]
  }

  function ClosedAll(ns: seq<Node>, w: World): seq<Id>
    decreases ns
  {
    if |ns| == 0 then [] else Closed(ns[0], w) + ClosedAll(ns[1..], w)
  }

  // ---------------------------------------------------------------------------
  // A case's block
  // ---------------------------------------------------------------------------

  lemma {:induction false} LogsInsideCase(c: CaseRef, logs: seq<ConsoleLog>, open: seq<Frame>)
    requires Top(open) == Some(CaseFrame(c.id))
    ensures Scan(LogMessages(c, logs), open) == Some(open)
    decreases |logs|
  {
    if |logs| > 0 {
      LogsInsideCase(c, logs[1..], open);
    }
  }

  lemma {:induction false} FailuresInsideCase(c: CaseRef, errors: seq<TestError>, open: seq<Frame>)
    requires Top(open) == Some(CaseFrame(c.id))
    ensures Scan(FailMessages(c, errors), open) == Some(open)
    decreases |errors|
  {
    if |errors| > 0 {
      FailuresInsideCase(c, errors[1..], open);
    }
  }

  lemma CaseBlockShape(c: CaseRef, logs: seq<ConsoleLog>, errors: seq<TestError>, duration: nat)
    ensures CaseBlock(c, logs, errors, duration) ==
      [CaseStarted(c.id, c.name)] + (LogMessages(c, logs) + FailMessages(c, errors)) + [CaseFinished(c.id, c.name, duration)]
  {
  }

  /** A case's block is balanced, and it opens and starts that case only. */
  lemma CaseBlockBalanced(c: CaseRef, logs: seq<ConsoleLog>, errors: seq<TestError>, duration: nat, open: seq<Frame>)
    ensures Scan(CaseBlock(c, logs, errors, duration), open) == Some(open)
    ensures FlowIds(CaseBlock(c, logs, errors, duration), Openings) == [c.id]
    ensures FlowIds(CaseBlock(c, logs, errors, duration), Starts) == [c.id]
    ensures FlowIds(CaseBlock(c, logs, errors, duration), Closings) == [c.id]
  {
    var inside := open + [CaseFrame(c.id)];
    var l, f := LogMessages(c, logs), FailMessages(c, errors);
    var o, e := CaseStarted(c.id, c.name), CaseFinished(c.id, c.name, duration);
    CaseBlockShape(c, logs, errors, duration);
    ScanConcat(l, f, inside);
    LogsInsideCase(c, logs, inside);
    FailuresInsideCase(c, errors, inside);
    assert Pop(inside) == open;
    Wrapped(o, l + f, e, CaseFrame(c.id), open);
    FlowIdsConcat(l, f, Openings);
    FlowIdsConcat(l, f, Starts);
    FlowIdsConcat(l, f, Closings);
    LogsOpenNothing(c, logs, Openings);
    LogsOpenNothing(c, logs, Starts);
    LogsOpenNothing(c, logs, Closings);
    FailuresOpenNothing(c, errors, Openings);
    FailuresOpenNothing(c, errors, Starts);
    FailuresOpenNothing(c, errors, Closings);
    FlowIdsWrapped(o, l + f, e, Openings);
    FlowIdsWrapped(o, l + f, e, Starts);
    FlowIdsWrapped(o, l + f, e, Closings);
  }

  // ---------------------------------------------------------------------------
  // A node's rendered messages
  // ---------------------------------------------------------------------------

  /** What the build made of a sequence of nodes, rendered at flush time, has the shape of the walk. */
  predicate WalkShaped(ms: seq<Message>, open: seq<Frame>, visited: seq<Id>, ran: seq<Id>, closed: seq<Id>) {
    && Scan(ms, open) == Some(open)
    && FlowIds(ms, Openings) == visited
    && FlowIds(ms, Starts) == ran
    && FlowIds(ms, Closings) == closed
  }

  /** A suite's messages around a body shaped like its children's walk are shaped like the suite's walk. */
  lemma SuiteWalk(id: Id, title: Label, rb: seq<Message>, open: seq<Frame>, visited: seq<Id>, ran: seq<Id>, closed: seq<Id>)
    requires WalkShaped(rb, open + [SuiteFrame(id)], visited, ran, closed)
    ensures WalkShaped([SuiteOpened(id, title)] + rb + [SuiteClosed(id, title)], open, [id] + visited, ran, closed + [id])
  {
    var o, c := SuiteOpened(id, title), SuiteClosed(id, title);
    SuiteFrameOpens(id, title, open);
    Wrapped(o, rb, c, SuiteFrame(id), open);
    FlowIdsWrapped(o, rb, c, Openings);
    FlowIdsWrapped(o, rb, c, Starts);
    FlowIdsWrapped(o, rb, c, Closings);
  }

  /**
    Whatever the state at flush time, a node's messages form a balanced
    block whose openers are the node's pre-order walk, whose closers are its
    post-order walk, and whose started cases are the walk's cases not
    skipped at collection.
  */
  lemma {:induction false} NodeRendersAsBlock(n: Node, at: Origin, w0: World, w1: World,
                                               console: map<Id, seq<ConsoleLog>>, open: seq<Frame>)
    requires HandleTask(n, at, w0).Some?
    ensures WalkShaped(RenderAll(HandleTask(n, at, w0).value, w1, console), open, Visited(n, w0), Ran(n, w0), Closed(n, w0))
    decreases n, 1
  {
    match n
    case Case(id, name) =>
      CaseRendersAsBlock(id, name, at, w0, w1, console, open);
    case Suite(id, name, children) =>
      if !SuiteSkipped(id, w0) {
        SuiteRendersAsBlock(n, at, w0, w1, console, open);
      }
  }

  lemma RenderSingle(pm: PotentialMessage, w: World, console: map<Id, seq<ConsoleLog>>)
    ensures RenderAll([pm], w, console) == RenderOne(pm, w, console)
  {
    assert [pm][1..] == [];
  }

  lemma IgnoredIsShaped(id: Id, name: string, open: seq<Frame>)
    ensures WalkShaped([CaseIgnored(id, name)], open, [id], [], [id])
  {
  }

  lemma DeferredIsShaped(c: CaseRef, w: World, console: map<Id, seq<ConsoleLog>>, open: seq<Frame>)
    ensures WalkShaped(RenderOne(Deferred(c), w, console), open, [c.id], [c.id], [c.id])
  {
    var logs := ConsoleOf(console, c.id);
    var errors := if Fails(c.id, w) then GetTestErrors(c, w) else [];
    assert RenderOne(Deferred(c), w, console) == CaseBlock(c, logs, errors, Duration(c.id, w));
    CaseBlockBalanced(c, logs, errors, Duration(c.id, w), open);
  }

  lemma CaseRendersAsBlock(id: Id, name: string, at: Origin, w0: World, w1: World,
                           console: map<Id, seq<ConsoleLog>>, open: seq<Frame>)
    requires HandleTest(id, name, at, w0).Some?
    ensures WalkShaped(RenderAll([HandleTest(id, name, at, w0).value], w1, console), open,
                       Visited(Case(id, name), w0), Ran(Case(id, name), w0), Closed(Case(id, name), w0))
  {
    var pm := HandleTest(id, name, at, w0).value;
    RenderSingle(pm, w1, console);
    if SkippedAtBuild(id, w0) == Some(true) {
      assert pm == Literal(CaseIgnored(id, name));
      IgnoredIsShaped(id, name, open);
    } else {
      assert pm == Deferred(CaseRef(id, name, at));
      DeferredIsShaped(CaseRef(id, name, at), w1, console, open);
    }
  }

  lemma {:induction false} SuiteRendersAsBlock(s: Node, at: Origin, w0: World, w1: World,
                                                console: map<Id, seq<ConsoleLog>>, open: seq<Frame>)
    requires s.Suite? && HandleSuite(s, at, w0).Some?
    ensures WalkShaped(RenderAll(HandleSuite(s, at, w0).value, w1, console), open,
                       [s.id] + VisitedAll(s.children, w0), RanAll(s.children, w0), ClosedAll(s.children, w0) + [s.id])
    decreases s, 0
  {
    var title := AppEscaped(Some(s.name));
    var inner := Origin(s.id, at.moduleId, at.relativeModuleId);
    var body := HandleTasks(s.children, inner, w0).value;
    var o, c := SuiteOpened(s.id, title), SuiteClosed(s.id, title);
    SequenceRendersAsBlocks(s.children, inner, w0, w1, console, open + [SuiteFrame(s.id)]);
    assert HandleSuite(s, at, w0).value == [Literal(o)] + body + [Literal(c)];
    RenderWrapped(o, body, c, w1, console);
    SuiteWalk(s.id, title, RenderAll(body, w1, console), open,
              VisitedAll(s.children, w0), RanAll(s.children, w0), ClosedAll(s.children, w0));
  }

  lemma {:induction false} SequenceRendersAsBlocks(ns: seq<Node>, at: Origin, w0: World, w1: World,
                                                    console: map<Id, seq<ConsoleLog>>, open: seq<Frame>)
    requires HandleTasks(ns, at, w0).Some?
    ensures WalkShaped(RenderAll(HandleTasks(ns, at, w0).value, w1, console), open,
                       VisitedAll(ns, w0), RanAll(ns, w0), ClosedAll(ns, w0))
    decreases ns, 0
  {
    if |ns| > 0 {
      var a := HandleTask(ns[0], at, w0).value;
      var b := HandleTasks(ns[1..], at, w0).value;
      NodeRendersAsBlock(ns[0], at, w0, w1, console, open);
      SequenceRendersAsBlocks(ns[1..], at, w0, w1, console, open);
      RenderAllConcat(a, b, w1, console);
      var ra, rb := RenderAll(a, w1, console), RenderAll(b, w1, console);
      ScanConcat(ra, rb, open);
      FlowIdsConcat(ra, rb, Openings);
      FlowIdsConcat(ra, rb, Starts);
      FlowIdsConcat(ra, rb, Closings);
    }
  }

  /**
    What a flush of a module prints, at whatever state and with whatever
    logs, is balanced; it opens the module and then the suites and cases of
    its pre-order walk, closes the suites and cases of its post-order walk
    and then the module, and starts exactly the walk's cases that were not
    skipped at collection: a skipped case or the contents of a skipped suite
    never produce a started message.
  */
  lemma ModuleOutputNested(p: Printer, m: TestModule, w0: World, w1: World, console: map<Id, seq<ConsoleLog>>)
    requires AddTestModule(p, m, w0).Some?
    ensures var ms := RenderAll(AddTestModule(p, m, w0).value.fileMessages[m.id], w1, console);
      && Balanced(ms)
      && FlowIds(ms, Openings) == [m.id] + VisitedAll(m.children, w0)
      && FlowIds(ms, Starts) == RanAll(m.children, w0)
      && FlowIds(ms, Closings) == ClosedAll(m.children, w0) + [m.id]
  {
    var body := HandleTasks(m.children, ModuleOrigin(m), w0).value;
    var title := ModuleLabel(m);
    var o, c := SuiteOpened(m.id, title), SuiteClosed(m.id, title);
    assert AddTestModule(p, m, w0).value.fileMessages[m.id] == [Literal(o)] + body + [Literal(c)];
    assert [] + [SuiteFrame(m.id)] == [SuiteFrame(m.id)];
    SequenceRendersAsBlocks(m.children, ModuleOrigin(m), w0, w1, console, [SuiteFrame(m.id)]);
    RenderWrapped(o, body, c, w1, console);
    SuiteWalk(m.id, title, RenderAll(body, w1, console), [],
              VisitedAll(m.children, w0), RanAll(m.children, w0), ClosedAll(m.children, w0));
  }

  /**
    A case skipped when its module is collected is printed as one ignored
    message whatever the state at flush time; a case not yet skipped is
    printed started and finished even if it is skipped by then.
  */
  lemma SkipDecidedAtCollection(id: Id, name: string, at: Origin, w0: World, w1: World, console: map<Id, seq<ConsoleLog>>)
    requires id in w0.results
    ensures var ms := RenderAll(HandleTask(Case(id, name), at, w0).value, w1, console);
      && (w0.results[id].state == Skipped ==> ms == [CaseIgnored(id, name)])
      && (w0.results[id].state != Skipped ==>
            ms[0] == CaseStarted(id, name) && ms[|ms| - 1] == CaseFinished(id, name, Duration(id, w1)))
  {
    var pm := HandleTest(id, name, at, w0).value;
    assert RenderAll([pm], w1, console) == RenderOne(pm, w1, console);
  }
}
