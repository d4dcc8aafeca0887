/**
  The current engine over a run: the reporter's hooks (src/app/reporter.ts)
  forward each collected module to `addTestModule`, each console log that
  names a test to `addTestConsoleLog`, and each settled case, suite and
  module to `handleResult`. A run is modelled as the sequence of those
  calls, each with the runner's state at that moment.

  A hook that throws is modelled as having no effect: both throwing reads
  happen before the engine changes anything. How the runner reacts to the
  exception is not modelled.
*/
module PrinterTrace {
  import opened Wrappers
  import opened VitestModel
  import opened AppPrinter
  import opened Seqs

  datatype Event =
    | Collected(m: TestModule, w: World)
    | Logged(id: Id, log: ConsoleLog)
    | Finished(task: TaskRef, w: World)

  /** The engine after some calls, everything printed, and the ids flushed, in order. */
  datatype Outcome = Outcome(printer: Printer, out: seq<Message>, flushed: seq<Id>)

  function Apply(p: Printer, e: Event): (r: Outcome)
    ensures |r.flushed| <= 1
    ensures r.flushed != [] <==> e.Finished? && e.task.id in p.fileMessages && Settled(e.task, e.w)
    ensures r.flushed != [] ==> r.flushed == [e.task.id] && r.out == RenderAll(p.fileMessages[e.task.id], e.w, p.testConsole)
    ensures r.flushed == [] ==> r.out == []
  {
    match e
    case Collected(m, w) =>
      (match AddTestModule(p, m, w)
       case None => Outcome(p, [], [])
       case Some(q) => Outcome(q, [], []))
    case Logged(id, log) => Outcome(AddTestConsoleLog(p, id, log), [], [])
    case Finished(task, w) =>
      match HandleResult(p, task, w)
      case None => Outcome(p, [], [])
      case Some(f) => Outcome(f.printer, f.out, if task.id in p.fileMessages && Settled(task, w) then [task.id] else [])
  }

  function Run(p: Printer, es: seq<Event>): Outcome
    decreases |es|
  {
    if |es| == 0 then Outcome(p, [], [])
    else
      var first := Apply(p, es[0]);
      var rest := Run(first.printer, es[1..]);
      Outcome(rest.printer, first.out + rest.out, first.flushed + rest.flushed)
  }

  /** How many times the run collects a module with this id. */
  function Collections(es: seq<Event>, id: Id): nat {
    if |es| == 0 then 0
    else (if es[0].Collected? && es[0].m.id == id then 1 else 0) + Collections(es[1..], id)
  }

  /** The logs the run reports for a test, in arrival order. */
  function LogsOf(es: seq<Event>, id: Id): seq<ConsoleLog> {
    if |es| == 0 then []
    else (if es[0].Logged? && es[0].id == id then [es[0].log] else []) + LogsOf(es[1..], id)
  }

  function Stored(p: Printer, id: Id): nat {
    if id in p.fileMessages then 1 else 0
  }

  lemma ApplyBoundsFlushes(p: Printer, e: Event, id: Id)
    ensures var r := Apply(p, e);
      multiset(r.flushed)[id] + Stored(r.printer, id) <=
        Stored(p, id) + (if e.Collected? && e.m.id == id then 1 else 0)
  {
    match e
    case Collected(m, w) =>
    case Logged(_, _) =>
    case Finished(task, w) =>
      var r := Apply(p, e);
      if r.flushed != [] && task.id == id {
        assert id !in r.printer.fileMessages;
      }
  }

  /**
    Every flush of an id consumes one stored sequence: over any run, an id
    is flushed at most as often as it is collected, plus once if it was
    already stored.
  */
  lemma {:induction false} FlushesBoundedByCollections(p: Printer, es: seq<Event>, id: Id)
    ensures multiset(Run(p, es).flushed)[id] + Stored(Run(p, es).printer, id) <= Stored(p, id) + Collections(es, id)
    decreases |es|
  {
    if |es| > 0 {
      var first := Apply(p, es[0]);
      ApplyBoundsFlushes(p, es[0], id);
      FlushesBoundedByCollections(first.printer, es[1..], id);
      assert multiset(first.flushed + Run(first.printer, es[1..]).flushed) ==
        multiset(first.flushed) + multiset(Run(first.printer, es[1..]).flushed);
    }
  }

  /** A module collected once is flushed at most once, however often its settling is reported. */
  lemma FlushAtMostOnce(es: seq<Event>, id: Id)
    requires Collections(es, id) <= 1
    ensures multiset(Run(Printer(map[], map[]), es).flushed)[id] <= 1
  {
    FlushesBoundedByCollections(Printer(map[], map[]), es, id);
  }

  lemma ApplyAppendsLog(p: Printer, e: Event, id: Id)
    ensures ConsoleOf(Apply(p, e).printer.testConsole, id) ==
      ConsoleOf(p.testConsole, id) + (if e.Logged? && e.id == id then [e.log] else [])
  {
    match e
    case Collected(m, w) =>
    case Logged(_, _) =>
    case Finished(task, w) =>
  }

  /** Logs are kept per test in arrival order; no other call removes or reorders them. */
  lemma {:induction false} LogsInArrivalOrder(p: Printer, es: seq<Event>, id: Id)
    ensures ConsoleOf(Run(p, es).printer.testConsole, id) == ConsoleOf(p.testConsole, id) + LogsOf(es, id)
    decreases |es|
  {
    if |es| > 0 {
      var first := Apply(p, es[0]);
      var mine := if es[0].Logged? && es[0].id == id then [es[0].log] else [];
      assert Run(p, es).printer == Run(first.printer, es[1..]).printer;
      assert LogsOf(es, id) == mine + LogsOf(es[1..], id);
      ApplyAppendsLog(p, es[0], id);
      LogsInArrivalOrder(first.printer, es[1..], id);
      AppendAssoc(ConsoleOf(p.testConsole, id), mine, LogsOf(es[1..], id));
    }
  }

  lemma ApplyKeepsEntry(p: Printer, e: Event, id: Id)
    requires id in p.fileMessages
    requires !(e.Collected? && e.m.id == id) && !(e.Finished? && e.task.id == id)
    ensures id in Apply(p, e).printer.fileMessages
    ensures Apply(p, e).printer.fileMessages[id] == p.fileMessages[id]
    ensures id !in Apply(p, e).flushed
  {
    match e
    case Collected(m, w) =>
    case Logged(_, _) =>
    case Finished(task, w) =>
  }

  /** Events for other ids leave a stored sequence exactly as it was built, and never flush it. */
  lemma {:induction false} UnrelatedEventsKeepEntry(p: Printer, es: seq<Event>, id: Id)
    requires id in p.fileMessages
    requires forall i :: 0 <= i < |es| ==> !(es[i].Collected? && es[i].m.id == id) && !(es[i].Finished? && es[i].task.id == id)
    ensures id in Run(p, es).printer.fileMessages
    ensures Run(p, es).printer.fileMessages[id] == p.fileMessages[id]
    ensures id !in Run(p, es).flushed
    decreases |es|
  {
    if |es| > 0 {
      var first := Apply(p, es[0]);
      ApplyKeepsEntry(p, es[0], id);
      UnrelatedEventsKeepEntry(first.printer, es[1..], id);
    }
  }
}
