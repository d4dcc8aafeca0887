/**
  The synthetic error the current engine reports for a failing test case
  that has no error of its own and none from its ancestors
  (src/app/error/missing-result.error.ts). Its message names the test and
  the test file's relative module id, `unknown` standing in for a missing id.
*/
module MissingResult {
  import opened Wrappers
  import VitestModel
  import opened Seqs

  const Opening: string := "Test: \""
  const Between: string := "\" from - \""
  const Closing: string := "\" missing a result after file test process finished"

  /** The module id as printed: `relativeModuleId ?? 'unknown'`, so an empty id stays empty. */
  function ModuleIdOrUnknown(relativeModuleId: Option<string>): string {
    relativeModuleId.GetOr("unknown")
  }

  function MissingResultMessage(name: string, relativeModuleId: Option<string>): (r: string)
    ensures |r| == |Opening| + |name| + |Between| + |ModuleIdOrUnknown(relativeModuleId)| + |Closing|
    ensures r[..|Opening|] == Opening
    ensures r[|Opening|..|Opening| + |name|] == name
    ensures r[|Opening| + |name|..|Opening| + |name| + |Between|] == Between
    ensures r[|r| - |Closing| - |ModuleIdOrUnknown(relativeModuleId)|..|r| - |Closing|] == ModuleIdOrUnknown(relativeModuleId)
    ensures r[|r| - |Closing|..] == Closing
  {
    var shown := ModuleIdOrUnknown(relativeModuleId);
    var r := Opening + name + Between + shown + Closing;
    assert r[..|Opening|] == Opening;
    assert r[|Opening|..|Opening| + |name|] == name;
    assert r[|Opening| + |name|..|Opening| + |name| + |Between|] == Between;
    assert r[|r| - |Closing| - |shown|..|r| - |Closing|] == shown;
    assert r[|r| - |Closing|..] == Closing;
    r
  }

  /**
    `new MissingResultError(testCase)`: an error whose message is the text
    above. The error carries no diff sides; the stack trace the runtime
    captures on construction is left absent.
  */
  function MissingResultError(name: string, relativeModuleId: Option<string>): (e: VitestModel.TestError)
    ensures e.message == Some(MissingResultMessage(name, relativeModuleId))
    ensures e.actual.None? && e.expected.None? && e.stack.None?
  {
    VitestModel.TestError(Some(MissingResultMessage(name, relativeModuleId)), None, None, None)
  }

  /** The message names the test verbatim: two different names never give the same message. */
  lemma MissingResultNameRecoverable(n1: string, n2: string, relativeModuleId: Option<string>)
    requires MissingResultMessage(n1, relativeModuleId) == MissingResultMessage(n2, relativeModuleId)
    ensures n1 == n2
  {
    var m := MissingResultMessage(n1, relativeModuleId);
    assert m[|Opening|..|Opening| + |n1|] == n1;
  }

  /** For a fixed test name, the message determines the printed module id. */
  lemma MissingResultModuleRecoverable(name: string, r1: Option<string>, r2: Option<string>)
    requires MissingResultMessage(name, r1) == MissingResultMessage(name, r2)
    ensures ModuleIdOrUnknown(r1) == ModuleIdOrUnknown(r2)
  {
    var m := MissingResultMessage(name, r1);
    assert m[|m| - |Closing| - |ModuleIdOrUnknown(r1)|..|m| - |Closing|] == ModuleIdOrUnknown(r1);
  }

  /** Only a missing id becomes `unknown`: an empty id is printed as the empty string. */
  lemma MissingResultUnknownDefault(name: string)
    ensures MissingResultMessage(name, None) == MissingResultMessage(name, Some("unknown"))
    ensures MissingResultMessage(name, Some("")) != MissingResultMessage(name, None)
  {
    var a := MissingResultMessage(name, Some(""));
    var b := MissingResultMessage(name, None);
    assert |a| != |b|;
  }

  /**
    Names are printed without escaping the quotes that delimit them, so the
    message alone does not determine the pair: a name that itself contains
    `" from - "` is indistinguishable from a longer module id.
  */
  lemma MissingResultPairAmbiguous(a: string, b: string, c: string)
    ensures MissingResultMessage(a + Between + b, Some(c)) == MissingResultMessage(a, Some(b + Between + c))
  {
    var front := Opening + a + Between;
    assert Opening + (a + Between + b) == front + b by {
      AppendAssoc(Opening, a + Between, b);
      AppendAssoc(Opening, a, Between);
    }
    assert front + (b + Between + c) == front + b + Between + c by {
      AppendAssoc(front, b + Between, c);
      AppendAssoc(front, b, Between);
    }
  }
}
