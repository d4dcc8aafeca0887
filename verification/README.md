# vitest TeamCity reporter: a Dafny model of the printers

This project models the printing core of a vitest reporter that writes
TeamCity service messages (`##teamcity[testStarted name='…' flowId='…']`
and its siblings) and proves properties of the model. The reporter has two
engines, and both are modelled.

- **The legacy engine** (`src/printer.ts`):
  - `escape` encodes values for the TeamCity wire format. It strips ANSI colour spans, then applies nine one-character substitutions.
  - Six print functions render the service messages.
  - `printTask` walks the collected task tree depth-first. It prints each suite's and test's opening message and fills a task index.
  - `printTaskResultPack` prints the closing message for an indexed task when its result arrives.
- **The current engine** (`src/app/printer.ts`, class `Printer`):
  - `addTestModule` builds a module's message sequence when the module is collected. The messages of a test that is not already skipped are left as deferred producers.
  - `addTestConsoleLog` collects console output per test.
  - `handleResult` flushes a module's sequence once the module has settled. It runs the producers against the runner's state at that moment and then drops the sequence.
  - `MissingResultError` (`src/app/error/missing-result.error.ts`) is the error reported when a failing test has no error to show.

## Files

| file | module | content |
|---|---|---|
| `wrappers.dfy` | `Wrappers` | `Option`, for JavaScript's `null`/`undefined` |
| `escaping.dfy` | `Escaping` | `escape` stated literally: the ANSI strip, then the nine `replace` calls as an ordered list of substitutions. It is proved equal to a one-pass per-character encoding, which the TeamCity decoder `Unescape` inverts |
| `legacy_lines.dfy` | `LegacyLines` | The six legacy service messages, their printed text (`Render`) and a parser (`Parse`). A well-formed message renders on one line and parses back to itself |
| `legacy_printer.dfy` | `LegacyPrinter` | `printTask` against a pre-order reference; `printTaskResultPack`; the two escaping findings |
| `vitest_model.dfy` | `VitestModel` | The runner's object model the current engine reads: task tree, results, states, errors, console logs |
| `missing_result.dfy` | `MissingResult` | The missing-result message and error |
| `seqs.dfy` | `Seqs` | Regrouping of sequence concatenation, shared by the proofs |
| `app_printer.dfy` | `AppPrinter` | The `Printer` class: build, deferred rendering, error chain, console logs, flushing; the error-chain finding |
| `printer_order.dfy` | `PrinterOrder` | The nesting and order of a flushed module's output |
| `printer_trace.dfy` | `PrinterTrace` | A run as a sequence of hook calls: flush at most once, logs in arrival order |

## Modelling choices

- **Printing:** it becomes a returned sequence of messages.
  - The legacy printers return `Line` values, whose text is `LegacyLines.Render`.
  - The current engine returns `AppPrinter.Message` values: one tag per message kind, carrying the flow id and the payload. The text of those messages is produced by `SuitMessage`, `TestMessage` and the engine's own `escape` (`src/app/messages/…`, `src/app/escape`). Those files are not part of this model, so the model fixes which messages are printed and in what order, not their text. A value passed through the engine's `escape` is kept as the symbolic `AppEscaped(raw)`; nothing assumes it behaves like the legacy `escape`.
- **The runner's state:** `VitestModel.World` is a snapshot of it.
  - A missing map key stands for `null`/`undefined`.
  - The state read when a module is collected and the state read when it is flushed are separate snapshots. This is how deferred rendering is expressed.
- **Exceptions:** the code reads `test.result().state` without a null check (`src/app/printer.ts:34` and `:64`).
  - Reading the state of a missing result throws. The model returns `None` there (`HandleTest`, `AddTestModule`, `HandleResult`).
  - In a run (`PrinterTrace`), a throwing call has no effect. Both reads come before the engine changes anything.
- **What collection already decides:**
  - `handleTest` reads `test.result().state` when the module is collected (`src/app/printer.ts:64`). A test already skipped then gets a literal ignored message; every other test gets a producer that runs at flush time.
  - `handleTask` reads `suite.state()` at collection too (`src/app/printer.ts:50`). A suite already skipped contributes nothing.
  - `MissingResultError` (`src/app/error/missing-result.error.ts:7-9`) exists to report a failing test that has no errors of its own or from its ancestors. The `??` chain at `src/app/printer.ts:81` does not always reach it; see Findings.

## Model

| member | source | states |
|---|---|---|
| Escaping.SpanLength | src/printer.ts:21 | The lazy `\x1B.*?m` match after an ESC ends at the nearest `m`, and only if no line terminator (`\n`, `\r`, U+2028, U+2029) comes first. Both directions are stated |
| Escaping.StripAnsi | src/printer.ts:21 | Stripping never lengthens the text and leaves ESC-free text unchanged |
| Escaping.StripLeavesNoSpan | src/printer.ts:21 | After stripping, no complete ESC…m span remains |
| Escaping.StripAnsiIdempotent | src/printer.ts:21 | Stripping twice is the same as stripping once |
| Escaping.StripKeepsUnclosed | src/printer.ts:21 | Text with no `m` reachable after its first position still has none after stripping |
| Escaping.StripNoSpanIsIdentity | src/printer.ts:21 | Text without a complete span is left unchanged by stripping |
| Escaping.StripAtClosedEsc | src/printer.ts:21 | At an ESC that opens a span, stripping drops the ESC, everything up to the nearest `m` and the `m`, then continues on the rest |
| Escaping.StripAtUnclosedEsc | src/printer.ts:21 | At an ESC that opens no span before a line terminator, stripping keeps the ESC and continues with the next character |
| Escaping.ReplaceAll | src/printer.ts:22-30 | A global one-character replace leaves text without the character unchanged, and removes the character when the replacement does not contain it |
| Escaping.ApplyAll | src/printer.ts:22-30 | Runs global one-character replaces one after another, each on the whole output of the previous one. It has no contract of its own; ApplyAllConcat, ApplyAllUntouched and ApplyAllOnce state what it does |
| Escaping.SubstitutionChain | src/printer.ts:22-30 | The nine `replace` calls in source order. It has no contract of its own; ChainConcat, ChainSingle and ChainIsCharwise state that it equals the one-pass per-character escape |
| Escaping.ApplyAllConcat | src/printer.ts:22-30 | Any sequence of one-character global replaces distributes over concatenation |
| Escaping.ChainConcat | src/printer.ts:22-30 | The nine-step replace chain distributes over concatenation |
| Escaping.ApplyAllOnce | src/printer.ts:22-30 | In a sequence of replaces, a character is rewritten exactly once, by its own step, when no earlier step matches it and no later step matches its replacement |
| Escaping.ChainSingle | src/printer.ts:22-30 | On one character, the chain gives that character's escape: `|` is doubled first, so later steps never re-escape the `|` they introduce |
| Escaping.ChainIsCharwise | src/printer.ts:22-30 | The sequential replace chain equals the one-pass per-character escape |
| Escaping.Escape | src/printer.ts:18-31 | TeamCity's decoder reads the escaped value back as the ANSI-stripped input. The output contains no raw line break. An `undefined` argument escapes to the empty string |
| Escaping.Unescape | src/printer.ts:22-30 | A value the decoder accepts contains no raw line break |
| Escaping.EscapeRoundTrip | src/printer.ts:22-30 | Decoding the per-character escape of any text gives the text back |
| Escaping.UnescapeIsCanonical | src/printer.ts:22-30 | Any value that decodes to a text is exactly that text's escape, so the encoding is canonical |
| Escaping.EscapeCharsLength | src/printer.ts:22-30 | The escape is longer than the input by the number of special characters |
| Escaping.EscapeLength | src/printer.ts:18-31 | For ESC-free input, the escaped length is the input length plus the count of special characters |
| Escaping.EscapeDoublesPipe | src/printer.ts:18-22 | `a|b` escapes to `a||b`, and an `undefined` argument escapes like the empty string |
| Escaping.EscapeEncodesNewline | src/printer.ts:23 | `a`, newline, `b` escapes to `a|nb` |
| Escaping.EscapeEncodesQuote | src/printer.ts:30 | `it's` escapes to `it|'s` |
| Escaping.EscapeStripsColour | src/printer.ts:21 | Text wrapped in a red colour code and a reset escapes exactly as the bare text |
| LegacyLines.NatToString | src/printer.ts:14-15 | A duration prints as a non-empty digit string with no leading zero |
| LegacyLines.NatToStringParses | src/printer.ts:14-15 | The printed duration reads back as the same number |
| LegacyLines.Render | src/printer.ts:6-16 | The six print templates: `##teamcity[`, the message kind, the attributes as ` key='value'` in template order, `]`. It has no contract of its own; RenderParseRoundTrip, RenderIsOneLine and RenderSplitsAtKind state what a well-formed rendering is |
| LegacyLines.ReadAttributesRoundTrip | src/printer.ts:6-16 | A list of `key='value'` attributes with escaped values reads back as the same list |
| LegacyLines.AttributesEscaped | src/printer.ts:6-16 | Every attribute of a well-formed message has a plain key and an escaped value, including the fixed `type='comparisonFailure'` and the duration |
| LegacyLines.RenderParseRoundTrip | src/printer.ts:6-16 | A message whose values are all escaped is parsed back by a TeamCity reader as exactly that message |
| LegacyLines.RenderIsOneLine | src/printer.ts:6-16 | A message whose values are all escaped prints on a single line |
| LegacyPrinter.BuildTestName | src/printer.ts:32 | A test's printed name is its escaped name: it decodes back to the name with colour codes removed, and holds no raw line break |
| LegacyPrinter.PrintTask | src/printer.ts:36-53 | `printTask` prints only opening messages (suite started, test started or test ignored) and only adds to the task index |
| LegacyPrinter.PrintTasks | src/printer.ts:42 | Walking a list of siblings prints only opening messages and only adds to the task index |
| LegacyPrinter.PrintTaskIsPreorder | src/printer.ts:36-53 | `printTask` prints exactly the opening messages of the tree's depth-first pre-order, in order. Afterwards the index holds the old entries outside the tree, and each suite or test id of the tree maps to that task |
| LegacyPrinter.PrintTasksIsPreorder | src/printer.ts:42 | Printing children left to right prints their pre-orders one after another, and indexes their suites and tests |
| LegacyPrinter.OpeningsProjection | src/printer.ts:36-53 | With unique ids, the messages carrying a task's flow id are exactly that task's own opening message |
| LegacyPrinter.PrintTaskPerTest | src/printer.ts:43-51 | In a tree with unique ids: a skip-mode test is printed as one ignored message and never started; a run-mode test is started once; a test in any other mode is not printed |
| LegacyPrinter.SuiteStartedFirst | src/printer.ts:37-42 | A run-mode suite's started message precedes every message of its descendants |
| LegacyPrinter.PrintTaskResultPack | src/printer.ts:55-92 | At most one message per result. Nothing for an unknown id or a missing result. A suite closes under its escaped name. A test, under its built name and its own flow id, prints ignored with an empty message on `skip`, finished with the duration (0 when unknown) on `pass`, failed with the fields of the result's `error` on `fail`, and nothing in any other state |
| LegacyPrinter.FailedLine | src/printer.ts:8-11 | A failure message carries the test name and flow id, and the error's message, stack, actual and expected, each empty when absent |
| LegacyPrinter.ResultPackAfterPrintTask | src/printer.ts:36-92 | After `printTask`: a suite's result closes it under its escaped name; an id outside the tree prints nothing; a skip-mode test whose result is `skip` is reported ignored a second time |
| LegacyPrinter.RawSuiteNameMismatch | src/printer.ts:39 | A run-mode suite whose name is not a decodable escaped value opens with a message TeamCity cannot decode, and its result pack closes it under the escaped name, which differs from the opening name |
| LegacyPrinter.RawSuiteNameCounterexample | src/printer.ts:39 | A suite named `it's` opens with a value TeamCity cannot decode, and is closed under a different name (`it|'s`) |
| LegacyPrinter.RawValueBreaksRender | src/printer.ts:8-11 | A failure message containing a line break breaks the printed message |
| LegacyPrinter.RawFailureCounterexample | src/printer.ts:75-84 | A failure whose message is `a`, newline, `b` prints a `testFailed` spanning two lines |
| LegacyPrinter.PrintTaskEscapedWellFormed | src/printer.ts:36-53 | With the suite name escaped too, and ids free of special characters, every message `printTask` prints is well-formed, so it prints on one line and parses back exactly |
| LegacyPrinter.ResultPackEscapedWellFormed | src/printer.ts:55-92 | With the failure values escaped too, every message a result pack prints is well-formed |
| MissingResult.MissingResultMessage | src/app/error/missing-result.error.ts:7-9 | The message is `Test: "`, the test name verbatim, `" from - "`, the module id or `unknown`, then the fixed tail. Each part sits at its stated position |
| MissingResult.MissingResultError | src/app/error/missing-result.error.ts:4-10 | The error carries that message and no diff sides |
| MissingResult.MissingResultNameRecoverable | src/app/error/missing-result.error.ts:7 | For a given module id, different test names give different messages |
| MissingResult.MissingResultModuleRecoverable | src/app/error/missing-result.error.ts:8 | For a given test name, the message determines the printed module id |
| MissingResult.MissingResultUnknownDefault | src/app/error/missing-result.error.ts:8 | A missing module id prints as `unknown`; an empty one prints as empty (`??`, not `||`) |
| MissingResult.MissingResultPairAmbiguous | src/app/error/missing-result.error.ts:7-9 | Because quotes in names are not escaped, moving a `" from - "` separator between the name and the module id leaves the message unchanged |
| AppPrinter.HandleTest | src/app/printer.ts:62-66 | It throws exactly when the case has no result. A case whose result is skipped at collection becomes a literal ignored message; any other case becomes a deferred producer for that case |
| AppPrinter.HandleTask | src/app/printer.ts:46-54 | A case contributes one entry, and throws exactly when it has no result. A skipped suite contributes nothing |
| AppPrinter.HandleSuite | src/app/printer.ts:56-60 | A suite's entries open with its started message and close with its finished message, both under its escaped name. That its children's blocks sit in between, each closed before the next opens, is PrinterOrder.NodeRendersAsBlock |
| AppPrinter.HandleTasks | src/app/printer.ts:59 | The `flatMap(handleTask)` over a node's children (also used for a module at line 19) throws exactly when one of the children throws. Its value is stated by AppPrinter.HandleTasksConcat |
| AppPrinter.HandleTasksConcat | src/app/printer.ts:59 | Over two runs of siblings, `flatMap(handleTask)` gives the first run's entries followed by the second's, in child order, and throws when either run throws |
| AppPrinter.HandleTaskThrows | src/app/printer.ts:46-66 | Building a node throws exactly when a case it reaches, outside skipped suites, has no result |
| AppPrinter.AddTestModule | src/app/printer.ts:17-21 | On success, the module's sequence is stored under its id, opened and closed by the module's own suite messages. Other modules' sequences and the console logs are unchanged. It fails exactly when a reached case has no result. The order and nesting of what lies between is PrinterOrder.ModuleOutputNested |
| AppPrinter.GetTestErrors | src/app/printer.ts:80-81 | The result is the case's own list when one is recorded, even if empty. Otherwise it is the parent's list when present, otherwise the module's list when present, and the missing-result error when all three are absent. An empty result means some present list was empty |
| AppPrinter.GetTestErrorsIsFirstPresent | src/app/printer.ts:80-81 | The chain equals a reference left-to-right `??` over the case's, parent's and module's lists: the first present list, else the missing-result error |
| AppPrinter.RenderCase | src/app/printer.ts:67-77 | A deferred test renders as: started; its logs in arrival order; one failure per error when it fails (no result, or state failed); finished with the duration, 0 when unknown |
| AppPrinter.FailuresOnlyWhenFailing | src/app/printer.ts:68-72 | A rendered test contains a failure message exactly when it fails and its error list is non-empty |
| AppPrinter.EmptyErrorListHidesFailure | src/app/printer.ts:80-81 | A case whose result is failed with no errors of its own is collected as a producer. Inside a suite whose error list is empty, it renders as started and finished only |
| AppPrinter.GetTestErrorsNonEmpty | src/app/printer.ts:80-81 | The corrected chain takes the case's own list if non-empty, else the parent's if non-empty, else the module's if non-empty, else the missing-result error, so it is never empty |
| AppPrinter.GetTestErrorsNonEmptyIsFirstNonEmpty | src/app/printer.ts:80-81 | The corrected chain equals a reference that takes the first present and non-empty list of the three, else the missing-result error |
| AppPrinter.FailingCaseAlwaysReported | src/app/printer.ts:67-77 | With the corrected chain, a rendered test contains a failure message exactly when it fails |
| AppPrinter.CorrectionAgreesWithoutEmptyLists | src/app/printer.ts:80-81 | When no list in the chain is present but empty, the corrected chain and rendering coincide with the code's |
| AppPrinter.AddTestConsoleLog | src/app/printer.ts:23-30 | The log is appended to that test's list, which is created if absent. Every other test's list and every stored sequence is unchanged |
| AppPrinter.HandleResult | src/app/printer.ts:32-44 | It throws only for a case with no result. Output is printed only when a sequence is stored under the id and the task has settled (state known and not pending). The output is that sequence rendered now, and only that entry is removed. Otherwise nothing changes |
| AppPrinter.RenderOne | src/app/printer.ts:38 | Each stored entry renders at flush time to at least one message, and a literal entry to exactly itself |
| AppPrinter.RenderAll | src/app/printer.ts:37-38 | Flushing gives at least as many messages as there are stored entries, and passes a sequence of literal entries through unchanged. That each entry expands in place is PrinterOrder.RenderAllConcat |
| PrinterOrder.RenderAllConcat | src/app/printer.ts:37-38 | The flush's `flatMap` distributes over concatenation of stored sequences |
| AppPrinter.HandleResultTwice | src/app/printer.ts:35-43 | After a flush, handling the same task again prints nothing and changes nothing |
| PrinterOrder.CaseBlockBalanced | src/app/printer.ts:67-77 | A test's rendered block opens and starts only that test, and its logs and failures sit between its start and its finish |
| PrinterOrder.NodeRendersAsBlock | src/app/printer.ts:46-78 | Whatever the state at flush time, a node renders as a balanced block. The suites and cases that open are its pre-order walk, and those that close are its post-order walk, a suite after all its children, with skipped suites pruned in both. The cases started are those of the walk not skipped at collection |
| PrinterOrder.ModuleOutputNested | src/app/printer.ts:17-78 | A flushed module's output is balanced. It opens the module first, then its pre-order walk, and closes its post-order walk, then the module, so each sibling's block is closed before the next one opens. It starts exactly the cases not skipped at collection, so skipped cases and skipped suites' contents are never started |
| PrinterOrder.SkipDecidedAtCollection | src/app/printer.ts:62-77 | A case skipped at collection prints one ignored message whatever happens later. A case not skipped then prints started and finished even if it is skipped by flush time |
| PrinterTrace.Apply | src/app/reporter.ts:15-37 | One hook call flushes at most one id: the settled task's own, only if stored and settled, printing its rendered sequence. Otherwise it prints nothing |
| PrinterTrace.FlushesBoundedByCollections | src/app/printer.ts:35-43 | Over any run, an id is flushed at most as many times as it is collected, plus once if it was already stored |
| PrinterTrace.FlushAtMostOnce | src/app/printer.ts:35-43 | A module collected once is flushed at most once, however often its settling is reported |
| PrinterTrace.LogsInArrivalOrder | src/app/printer.ts:23-30 | Over any run, a test's logs are exactly the logs reported for it, in arrival order |
| PrinterTrace.UnrelatedEventsKeepEntry | src/app/printer.ts:32-44 | Calls about other ids never change or flush a stored sequence |

## Findings

| source | as written | input that shows it | evidently intended | confidence | as-written member | corrected member |
|---|---|---|---|---|---|---|
| src/printer.ts:39 | `printTask` passes the suite name to `testSuiteStarted` unescaped. The matching `testSuiteFinished` (line 63) escapes it | a run-mode suite named `it's` | the started name escaped like the finished name, so the two match and decode | high, not executed | LegacyPrinter.RawSuiteNameMismatch | LegacyPrinter.PrintTaskEscapedWellFormed |
| src/printer.ts:78-81 | the failure message, stack, actual and expected go on the wire unescaped | a failed test whose error message is `a`, newline, `b` | every value escaped, as the test name already is, so the message stays on one line | high, not executed | LegacyPrinter.RawFailureCounterexample | LegacyPrinter.ResultPackEscapedWellFormed |
| src/app/printer.ts:80-81 | the `??` chain stops at a present but empty list. A failing case then renders no failure, and the missing-result error is not reached | a case whose result is failed with no errors of its own, whose parent suite reports an empty error list | take the first non-empty list, else the missing-result error, so a failing case is always reported failed | medium, not executed | AppPrinter.EmptyErrorListHidesFailure | AppPrinter.GetTestErrorsNonEmpty |

The corrected legacy printers are `LegacyPrinter.PrintTaskEscaped` and
`LegacyPrinter.PrintTaskResultPackEscaped`: the printers as written,
followed by `EscapeRawValues`. The corrected current-engine producer is
`AppPrinter.RenderCaseReported`; `AppPrinter.FailingCaseAlwaysReported`
proves its property.

## Left out

- `src/app/reporter.ts` is modelled only as the order of hook calls (`PrinterTrace.Event`). Its logger set-up is left out, and so are console logs without a test id, which it prints directly.
- Console and logger output: printing is a returned sequence of messages.
- `SuitMessage`, `TestMessage` and the current engine's `escape` are not part of this model. Their messages are tags, and escaped values are symbolic.
- The `.filter(Boolean)` at `src/app/printer.ts:74-76` is treated as the identity, because every message is taken to be non-empty text.
- Durations are floating-point milliseconds in the runner. The model uses natural numbers, so the printing of fractional durations is not modelled.
- The vitest object model is reduced to the task tree (`Node`, `TestModule`, the legacy `Task`) and per-id snapshots of results, durations, states and errors.
  - Legacy task types other than suite and test (including benchmarks) are `CustomTask`.
  - A legacy result keeps only its state, its duration and its `error`.
- Escaping.Escape: `escape(null)` throws at `.toString()` (`src/printer.ts:20`) and is not modelled; `None` is `undefined`, which the default turns into `''`. Every caller passes a task name or leaves the argument out (`src/printer.ts:32`, `:63`).
- LegacyPrinter.FailedLine: an error field that is `null` rather than `undefined` escapes the `= ''` default at `src/printer.ts:8` and prints as `null`; the model has only present or absent fields.
- MissingResult.MissingResultError: the stack trace the runtime records when an `Error` is constructed depends on the runtime, so `stack` is left absent.
- JavaScript strings are UTF-16 code units, while Dafny strings are Unicode scalar values. Every character the escape touches is in the Basic Multilingual Plane, so the substitutions agree.
- The legacy templates put `task.id` into `flowId='…'` unescaped (`src/printer.ts:6-16`). The legacy well-formedness results therefore assume ids without protocol-special characters. How the current engine's message helpers print ids is not part of this model.
- Asynchronous delivery of hook calls is modelled as one sequential trace.
