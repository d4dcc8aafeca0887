/**
  The wire-format escape codec of the legacy reporter (src/printer.ts, `escape`).

  The source is a chain of `String.prototype.replace` calls: first every ANSI
  colour/style span `/\x1B.*?m/g` is removed, then nine single-character
  substitutions run one after another. This module states that chain literally
  (`StripAnsi`, `ReplaceAll`, `SubstitutionChain`) and proves it equal to a one-pass,
  per-character reference (`EscapeChars`) that the TeamCity decoder
  (`Unescape`) inverts.

  Strings are sequences of Unicode scalar values; JavaScript strings are
  sequences of UTF-16 code units. Every character the codec looks at lies in
  the Basic Multilingual Plane, so the two views agree on what is replaced.
*/
module Escaping {
  import opened Wrappers

  const ESC: char := '\U{1B}'
  const NEL: char := '\U{85}'
  const LS: char := '\U{2028}'
  const PS: char := '\U{2029}'

  /** The characters JavaScript's regular-expression `.` does not match. */
  predicate IsLineTerminator(c: char) {
    c == '\n' || c == '\r' || c == LS || c == PS
  }

  /** Characters that end a line of the line-based protocol if sent raw. */
  predicate IsLineBreak(c: char) {
    IsLineTerminator(c) || c == NEL
  }

  predicate NoEsc(s: string) {
    forall i :: 0 <= i < |s| ==> s[i] != ESC
  }

  predicate NoLineBreak(s: string) {
    forall i :: 0 <= i < |s| ==> !IsLineBreak(s[i])
  }

  // ---------------------------------------------------------------------------
  // ANSI stripping: `.replace(/\x1B.*?m/g, '')`
  // ---------------------------------------------------------------------------

  /**
    Where the lazy `.*?m` after an ESC ends. `t` is the text following the ESC;
    the result is the index of the nearest `m` in `t` when no line terminator
    comes before it, and `None` when the regular expression cannot match there.
  */
  function SpanLength(t: string): (r: Option<nat>)
    ensures r.Some? ==> r.value < |t| && t[r.value] == 'm'
    ensures r.Some? ==> forall i :: 0 <= i < r.value ==> t[i] != 'm' && !IsLineTerminator(t[i])
    ensures r.None? ==>
      forall k :: 0 <= k < |t| && t[k] == 'm' ==> exists i :: 0 <= i < k && IsLineTerminator(t[i])
  {
    if |t| == 0 then None
    else if t[0] == 'm' then Some(0)
    else if IsLineTerminator(t[0]) then None
    else
      match SpanLength(t[1..])
      case Some(k) => Some(k + 1)
      case None => None
  }

  /**
    Removes, scanning left to right, every span from an ESC to the nearest
    following `m` with no line terminator in between. An ESC that starts no
    such span is kept, and scanning resumes at the next character.
  */
  function StripAnsi(s: string): (r: string)
    ensures |r| <= |s|
    ensures NoEsc(s) ==> r == s
    decreases |s|
  {
    if |s| == 0 then ""
    else if s[0] == ESC && SpanLength(s[1..]).Some? then
      StripAnsi(s[SpanLength(s[1..]).value + 2..])
    else
      [s[0]] + StripAnsi(s[1..])
  }

  /**
    At an ESC that opens a span, the regular expression removes everything up
    to and including the nearest `m` and resumes after it.
  */
  lemma StripAtClosedEsc(t: string, k: nat)
    requires SpanLength(t) == Some(k)
    ensures StripAnsi([ESC] + t) == StripAnsi(t[k + 1..])
  {
    var s := [ESC] + t;
    assert s[1..] == t;
    assert s[k + 2..] == t[k + 1..];
    assert s[0] == ESC && SpanLength(s[1..]) == Some(k);
  }

  /** At an ESC that opens no span on its line, the ESC is kept and scanning resumes after it. */
  lemma StripAtUnclosedEsc(t: string)
    requires SpanLength(t).None?
    ensures StripAnsi([ESC] + t) == [ESC] + StripAnsi(t)
  {
    var s := [ESC] + t;
    assert s[1..] == t;
  }

  /** No ESC in `s` starts a span the ANSI regular expression would remove. */
  predicate NoSpan(s: string) {
    forall i :: 0 <= i < |s| && s[i] == ESC ==> SpanLength(s[i + 1..]).None?
  }

  /** Stripping never creates a span that was not there: an unclosed ESC stays unclosed. */
  lemma {:induction false} StripKeepsUnclosed(t: string)
    requires SpanLength(t).None?
    ensures SpanLength(StripAnsi(t)).None?
    decreases |t|
  {
    if |t| == 0 {
    } else if IsLineTerminator(t[0]) {
      assert StripAnsi(t) == [t[0]] + StripAnsi(t[1..]);
    } else {
      assert t[0] != 'm';
      assert SpanLength(t[1..]).None?;
      StripKeepsUnclosed(t[1..]);
      assert StripAnsi(t) == [t[0]] + StripAnsi(t[1..]);
      assert (StripAnsi(t))[1..] == StripAnsi(t[1..]);
    }
  }

  /** After stripping, no complete ANSI span is left. */
  lemma {:induction false} StripLeavesNoSpan(s: string)
    ensures NoSpan(StripAnsi(s))
    decreases |s|
  {
    if |s| == 0 {
    } else if s[0] == ESC && SpanLength(s[1..]).Some? {
      StripLeavesNoSpan(s[SpanLength(s[1..]).value + 2..]);
    } else {
      var rest := StripAnsi(s[1..]);
      StripLeavesNoSpan(s[1..]);
      var r := [s[0]] + rest;
      assert StripAnsi(s) == r;
      if s[0] == ESC {
        StripKeepsUnclosed(s[1..]);
        assert r[1..] == rest;
      }
      forall i | 0 <= i < |r| && r[i] == ESC
        ensures SpanLength(r[i + 1..]).None?
      {
        if i > 0 {
          assert r[i] == rest[i - 1];
          assert r[i + 1..] == rest[i..];
        }
      }
    }
  }

  /** Stripping is idempotent: a second pass of the regular expression finds nothing. */
  lemma {:induction false} StripAnsiIdempotent(s: string)
    ensures StripAnsi(StripAnsi(s)) == StripAnsi(s)
  {
    StripLeavesNoSpan(s);
    StripNoSpanIsIdentity(StripAnsi(s));
  }

  lemma {:induction false} StripNoSpanIsIdentity(s: string)
    requires NoSpan(s)
    ensures StripAnsi(s) == s
    decreases |s|
  {
    if |s| > 0 {
      assert NoSpan(s[1..]) by {
        forall i | 0 <= i < |s[1..]| && s[1..][i] == ESC
          ensures SpanLength(s[1..][i + 1..]).None?
        {
          assert s[1..][i + 1..] == s[i + 2..];
        }
      }
      StripNoSpanIsIdentity(s[1..]);
    }
  }

  // ---------------------------------------------------------------------------
  // The substitution chain
  // ---------------------------------------------------------------------------

  /** `.replace(/c/g, rep)` for a one-character pattern. */
  function ReplaceAll(s: string, target: char, rep: string): (r: string)
    ensures target !in s ==> r == s
    ensures target !in rep ==> target !in r
  {
    if |s| == 0 then ""
    else (if s[0] == target then rep else [s[0]]) + ReplaceAll(s[1..], target, rep)
  }

  /** One `.replace(/target/g, rep)` call: the character to replace and its replacement. */
  type Substitution = (char, string)

  /**
    The nine substitutions, in the order the source applies them. Pipe-doubling
    comes first, so the `|` markers the later substitutions introduce are not
    doubled (`ChainIsCharwise`).
  */
  const Substitutions: seq<Substitution> := [
    ('|', "||"), ('\n', "|n"), ('\r', "|r"), ('[', "|["), (']', "|]"),
    (NEL, "|x"), (LS, "|l"), (PS, "|p"), ('\'', "|'")]

  /** Runs `subs` one after another, each on the whole output of the previous one. */
  function ApplyAll(s: string, subs: seq<Substitution>): string
    decreases |subs|
  {
    if |subs| == 0 then s else ApplyAll(ReplaceAll(s, subs[0].0, subs[0].1), subs[1..])
  }

  function SubstitutionChain(s: string): string {
    ApplyAll(s, Substitutions)
  }

  // ---------------------------------------------------------------------------
  // The one-pass reference and its decoder
  // ---------------------------------------------------------------------------

  /** The nine characters the codec rewrites. */
  predicate IsSpecial(c: char) {
    c == '|' || c == '\n' || c == '\r' || c == '[' || c == ']' || c == NEL || c == LS || c == PS || c == '\''
  }

  /** The character written after `|` in place of the special character `c`. */
  function Code(c: char): char
    requires IsSpecial(c)
  {
    if c == '|' then '|'
    else if c == '\n' then 'n'
    else if c == '\r' then 'r'
    else if c == '[' then '['
    else if c == ']' then ']'
    else if c == NEL then 'x'
    else if c == LS then 'l'
    else if c == PS then 'p'
    else '\''
  }

  /** The TeamCity decoding of the character after `|`. */
  function Decode(code: char): (r: Option<char>)
    ensures r.Some? ==> IsSpecial(r.value) && Code(r.value) == code
  {
    if code == '|' then Some('|')
    else if code == 'n' then Some('\n')
    else if code == 'r' then Some('\r')
    else if code == '[' then Some('[')
    else if code == ']' then Some(']')
    else if code == 'x' then Some(NEL)
    else if code == 'l' then Some(LS)
    else if code == 'p' then Some(PS)
    else if code == '\'' then Some('\'')
    else None
  }

  lemma CodeDecodes(c: char)
    requires IsSpecial(c)
    ensures Decode(Code(c)) == Some(c)
  {
  }

  /** What a single input character becomes on the wire. */
  function EscapeChar(c: char): string {
    if IsSpecial(c) then ['|', Code(c)] else [c]
  }

  /** The per-character reference: each character escaped on its own, in order. */
  function EscapeChars(s: string): string {
    if |s| == 0 then "" else EscapeChar(s[0]) + EscapeChars(s[1..])
  }

  function CountSpecial(s: string): nat {
    if |s| == 0 then 0 else (if IsSpecial(s[0]) then 1 else 0) + CountSpecial(s[1..])
  }

  /**
    Decodes an escaped attribute value: `|` followed by one of the nine codes
    stands for the special character, any other `|` and any raw special
    character make the value malformed. This is the subset of the TeamCity
    value format that `escape` writes; TeamCity's `|0xNNNN` form is not
    accepted here, so `UnescapeIsCanonical` is a statement about this decoder.
  */
  function Unescape(v: string): (r: Option<string>)
    ensures r.Some? ==> NoLineBreak(v)
    decreases |v|
  {
    if |v| == 0 then Some("")
    else if v[0] == '|' then
      if |v| >= 2 && Decode(v[1]).Some? then
        match Unescape(v[2..])
        case Some(t) => Some([Decode(v[1]).value] + t)
        case None => None
      else None
    else if IsSpecial(v[0]) then None
    else
      match Unescape(v[1..])
      case Some(t) => Some([v[0]] + t)
      case None => None
  }

  // ---------------------------------------------------------------------------
  // The chain equals the per-character reference
  // ---------------------------------------------------------------------------

  lemma {:induction false} ReplaceAllConcat(a: string, b: string, target: char, rep: string)
    ensures ReplaceAll(a + b, target, rep) == ReplaceAll(a, target, rep) + ReplaceAll(b, target, rep)
    decreases |a|
  {
    if |a| > 0 {
      assert (a + b)[1..] == a[1..] + b;
      ReplaceAllConcat(a[1..], b, target, rep);
    } else {
      assert a + b == b;
    }
  }

  /** Every step acts character by character, so the whole run distributes over concatenation. */
  lemma {:induction false} ApplyAllConcat(a: string, b: string, subs: seq<Substitution>)
    ensures ApplyAll(a + b, subs) == ApplyAll(a, subs) + ApplyAll(b, subs)
    decreases |subs|
  {
    if |subs| > 0 {
      var (target, rep) := subs[0];
      ReplaceAllConcat(a, b, target, rep);
      ApplyAllConcat(ReplaceAll(a, target, rep), ReplaceAll(b, target, rep), subs[1..]);
    }
  }

  lemma ChainConcat(a: string, b: string)
    ensures SubstitutionChain(a + b) == SubstitutionChain(a) + SubstitutionChain(b)
  {
    ApplyAllConcat(a, b, Substitutions);
  }

  lemma ReplaceAllSingle(c: char, target: char, rep: string)
    ensures ReplaceAll([c], target, rep) == if c == target then rep else [c]
  {
    assert [c][1..] == [];
  }

  /** Steps whose character does not occur leave a string unchanged. */
  lemma {:induction false} ApplyAllUntouched(e: string, subs: seq<Substitution>)
    requires forall p :: p in subs ==> p.0 !in e
    ensures ApplyAll(e, subs) == e
    decreases |subs|
  {
    if |subs| > 0 {
      assert subs[0] in subs;
      forall p | p in subs[1..]
        ensures p.0 !in e
      {
        var i :| 0 <= i < |subs[1..]| && subs[1..][i] == p;
        assert subs[i + 1] == p;
      }
      ApplyAllUntouched(e, subs[1..]);
    }
  }

  /** Running `a + b` is running `a`, then `b`. */
  lemma {:induction false} ApplyAllAppend(s: string, a: seq<Substitution>, b: seq<Substitution>)
    ensures ApplyAll(s, a + b) == ApplyAll(ApplyAll(s, a), b)
    decreases |a|
  {
    if |a| > 0 {
      assert (a + b)[0] == a[0];
      assert (a + b)[1..] == a[1..] + b;
      ApplyAllAppend(ReplaceAll(s, a[0].0, a[0].1), a[1..], b);
    } else {
      assert a + b == b;
    }
  }

  /**
    A character is rewritten by its own step only when no earlier step
    matches it and no later step matches anything in its replacement.
  */
  lemma ApplyAllOnce(c: char, before: seq<Substitution>, rep: string, after: seq<Substitution>)
    requires forall p :: p in before ==> p.0 != c
    requires forall p :: p in after ==> p.0 !in rep
    ensures ApplyAll([c], before + [(c, rep)] + after) == rep
  {
    ApplyAllAppend([c], before + [(c, rep)], after);
    ApplyAllAppend([c], before, [(c, rep)]);
    ApplyAllUntouched([c], before);
    ReplaceAllSingle(c, c, rep);
    assert ApplyAll([c], [(c, rep)]) == rep;
    ApplyAllUntouched(rep, after);
  }

  /**
    On one character the chain acts as `EscapeChar`: the character is rewritten
    by its own step only, because no later pattern occurs in an earlier
    replacement and pipe-doubling has run before any `|` marker is introduced.
  */
  lemma ChainSingle(c: char)
    ensures SubstitutionChain([c]) == EscapeChar(c)
  {
    if c == '|' {
      ChainOnPipe(c);
    } else if c == '\n' {
      ChainOnNewline(c);
    } else if c == '\r' {
      ChainOnReturn(c);
    } else if c == '[' {
      ChainOnOpenBracket(c);
    } else if c == ']' {
      ChainOnCloseBracket(c);
    } else if c == NEL {
      ChainOnNextLine(c);
    } else if c == LS {
      ChainOnLineSeparator(c);
    } else if c == PS {
      ChainOnParagraphSeparator(c);
    } else if c == '\'' {
      ChainOnQuote(c);
    } else {
      ChainOnPlain(c);
    }
  }

  // The lemmas below take the character as a parameter fixed by `requires`
  // rather than writing it as a literal: on an all-literal term the verifier
  // evaluates the whole nine-step chain, which is slow and varies from run to
  // run. The equalities are the same.

  lemma ChainOnPipe(c: char)
    requires c == '|'
    ensures SubstitutionChain([c]) == EscapeChar(c)
  {
    var before: seq<Substitution> := [];
    var after: seq<Substitution> := [('\n', "|n"), ('\r', "|r"), ('[', "|["), (']', "|]"), (NEL, "|x"), (LS, "|l"), (PS, "|p"), ('\'', "|'")];
    assert Substitutions == before + [(c, "||")] + after;
    assert forall p :: p in before ==> p.0 != c;
    assert forall p :: p in after ==> p.0 !in "||";
    assert EscapeChar(c) == "||";
    ApplyAllOnce(c, before, "||", after);
  }

  lemma ChainOnNewline(c: char)
    requires c == '\n'
    ensures SubstitutionChain([c]) == EscapeChar(c)
  {
    var before: seq<Substitution> := [('|', "||")];
    var after: seq<Substitution> := [('\r', "|r"), ('[', "|["), (']', "|]"), (NEL, "|x"), (LS, "|l"), (PS, "|p"), ('\'', "|'")];
    assert Substitutions == before + [(c, "|n")] + after;
    assert forall p :: p in before ==> p.0 != c;
    assert forall p :: p in after ==> p.0 !in "|n";
    assert EscapeChar(c) == "|n";
    ApplyAllOnce(c, before, "|n", after);
  }

  lemma ChainOnReturn(c: char)
    requires c == '\r'
    ensures SubstitutionChain([c]) == EscapeChar(c)
  {
    var before: seq<Substitution> := [('|', "||"), ('\n', "|n")];
    var after: seq<Substitution> := [('[', "|["), (']', "|]"), (NEL, "|x"), (LS, "|l"), (PS, "|p"), ('\'', "|'")];
    assert Substitutions == before + [(c, "|r")] + after;
    assert forall p :: p in before ==> p.0 != c;
    assert forall p :: p in after ==> p.0 !in "|r";
    assert EscapeChar(c) == "|r";
    ApplyAllOnce(c, before, "|r", after);
  }

  lemma ChainOnOpenBracket(c: char)
    requires c == '['
    ensures SubstitutionChain([c]) == EscapeChar(c)
  {
    var before: seq<Substitution> := [('|', "||"), ('\n', "|n"), ('\r', "|r")];
    var after: seq<Substitution> := [(']', "|]"), (NEL, "|x"), (LS, "|l"), (PS, "|p"), ('\'', "|'")];
    assert Substitutions == before + [(c, "|[")] + after;
    assert forall p :: p in before ==> p.0 != c;
    assert forall p :: p in after ==> p.0 !in "|[";
    assert EscapeChar(c) == "|[";
    ApplyAllOnce(c, before, "|[", after);
  }

  lemma ChainOnCloseBracket(c: char)
    requires c == ']'
    ensures SubstitutionChain([c]) == EscapeChar(c)
  {
    var before: seq<Substitution> := [('|', "||"), ('\n', "|n"), ('\r', "|r"), ('[', "|[")];
    var after: seq<Substitution> := [(NEL, "|x"), (LS, "|l"), (PS, "|p"), ('\'', "|'")];
    assert Substitutions == before + [(c, "|]")] + after;
    assert forall p :: p in before ==> p.0 != c;
    assert forall p :: p in after ==> p.0 !in "|]";
    assert EscapeChar(c) == "|]";
    ApplyAllOnce(c, before, "|]", after);
  }

  lemma ChainOnNextLine(c: char)
    requires c == NEL
    ensures SubstitutionChain([c]) == EscapeChar(c)
  {
    var before: seq<Substitution> := [('|', "||"), ('\n', "|n"), ('\r', "|r"), ('[', "|["), (']', "|]")];
    var after: seq<Substitution> := [(LS, "|l"), (PS, "|p"), ('\'', "|'")];
    assert Substitutions == before + [(c, "|x")] + after;
    assert forall p :: p in before ==> p.0 != c;
    assert forall p :: p in after ==> p.0 !in "|x";
    assert EscapeChar(c) == "|x";
    ApplyAllOnce(c, before, "|x", after);
  }

  lemma ChainOnLineSeparator(c: char)
    requires c == LS
    ensures SubstitutionChain([c]) == EscapeChar(c)
  {
    var before: seq<Substitution> := [('|', "||"), ('\n', "|n"), ('\r', "|r"), ('[', "|["), (']', "|]"), (NEL, "|x")];
    var after: seq<Substitution> := [(PS, "|p"), ('\'', "|'")];
    assert Substitutions == before + [(c, "|l")] + after;
    assert forall p :: p in before ==> p.0 != c;
    assert forall p :: p in after ==> p.0 !in "|l";
    assert EscapeChar(c) == "|l";
    ApplyAllOnce(c, before, "|l", after);
  }

  lemma ChainOnParagraphSeparator(c: char)
    requires c == PS
    ensures SubstitutionChain([c]) == EscapeChar(c)
  {
    var before: seq<Substitution> := [('|', "||"), ('\n', "|n"), ('\r', "|r"), ('[', "|["), (']', "|]"), (NEL, "|x"), (LS, "|l")];
    var after: seq<Substitution> := [('\'', "|'")];
    assert Substitutions == before + [(c, "|p")] + after;
    assert forall p :: p in before ==> p.0 != c;
    assert forall p :: p in after ==> p.0 !in "|p";
    assert EscapeChar(c) == "|p";
    ApplyAllOnce(c, before, "|p", after);
  }

  lemma ChainOnQuote(c: char)
    requires c == '\''
    ensures SubstitutionChain([c]) == EscapeChar(c)
  {
    var before: seq<Substitution> := [('|', "||"), ('\n', "|n"), ('\r', "|r"), ('[', "|["), (']', "|]"), (NEL, "|x"), (LS, "|l"), (PS, "|p")];
    var after: seq<Substitution> := [];
    assert Substitutions == before + [(c, "|'")] + after;
    assert forall p :: p in before ==> p.0 != c;
    assert forall p :: p in after ==> p.0 !in "|'";
    assert EscapeChar(c) == "|'";
    ApplyAllOnce(c, before, "|'", after);
  }

  lemma ChainOnPlain(c: char)
    requires !IsSpecial(c)
    ensures SubstitutionChain([c]) == [c]
  {
    ApplyAllUntouched([c], Substitutions);
  }

  lemma {:induction false} ChainIsCharwise(s: string)
    ensures SubstitutionChain(s) == EscapeChars(s)
    decreases |s|
  {
    if |s| == 0 {
      ApplyAllUntouched(s, Substitutions);
    } else {
      assert s == [s[0]] + s[1..];
      ChainConcat([s[0]], s[1..]);
      ChainSingle(s[0]);
      ChainIsCharwise(s[1..]);
    }
  }

  // ---------------------------------------------------------------------------
  // The codec
  // ---------------------------------------------------------------------------

  /**
    `escape(str = '')`: `None` is an `undefined` argument, which the default
    turns into the empty string (a `null` argument would throw at
    `.toString()`; no caller passes one). ANSI spans are stripped, then the
    substitutions run. The result always decodes back to the
    stripped input and never contains a raw line break.
  */
  function Escape(s: Option<string>): (r: string)
    ensures Unescape(r) == Some(StripAnsi(s.GetOr("")))
    ensures NoLineBreak(r)
    ensures s.None? ==> r == ""
    ensures s.Some? && NoEsc(s.value) ==> r == EscapeChars(s.value)
  {
    var t := StripAnsi(s.GetOr(""));
    ChainIsCharwise(t);
    EscapeRoundTrip(t);
    SubstitutionChain(t)
  }

  /** Decoding inverts the per-character escape. */
  lemma {:induction false} EscapeRoundTrip(t: string)
    ensures Unescape(EscapeChars(t)) == Some(t)
    decreases |t|
  {
    if |t| > 0 {
      var c := t[0];
      var rest := EscapeChars(t[1..]);
      EscapeRoundTrip(t[1..]);
      if IsSpecial(c) {
        CodeDecodes(c);
        assert EscapeChars(t) == ['|', Code(c)] + rest;
        assert EscapeChars(t)[2..] == rest;
      } else {
        assert EscapeChars(t) == [c] + rest;
        assert EscapeChars(t)[1..] == rest;
      }
      assert [c] + t[1..] == t;
    }
  }

  /** Every value the decoder accepts is the escape of what it decodes to: the encoding is canonical. */
  lemma {:induction false} UnescapeIsCanonical(v: string, t: string)
    requires Unescape(v) == Some(t)
    ensures EscapeChars(t) == v
    decreases |v|
  {
    if |v| > 0 {
      if v[0] == '|' {
        var c := Decode(v[1]).value;
        var t' :| Unescape(v[2..]) == Some(t') && t == [c] + t';
        UnescapeIsCanonical(v[2..], t');
        assert t[1..] == t';
        assert v == ['|', v[1]] + v[2..];
      } else {
        var t' :| Unescape(v[1..]) == Some(t') && t == [v[0]] + t';
        UnescapeIsCanonical(v[1..], t');
        assert t[1..] == t';
        assert v == [v[0]] + v[1..];
      }
    }
  }

  lemma {:induction false} EscapeCharsLength(s: string)
    ensures |EscapeChars(s)| == |s| + CountSpecial(s)
    decreases |s|
  {
    if |s| > 0 {
      EscapeCharsLength(s[1..]);
    }
  }

  /**
    On input without ESC every special character becomes two characters and
    every other character one, so the output is longer by the number of specials.
  */
  lemma EscapeLength(s: string)
    requires NoEsc(s)
    ensures |Escape(Some(s))| == |s| + CountSpecial(s)
  {
    EscapeCharsLength(s);
  }

  /** The documented examples of the substitutions. */
  lemma EscapeDoublesPipe()
    ensures Escape(Some("a|b")) == "a||b"
    ensures Escape(None) == Escape(Some(""))
  {
    assert NoEsc("a|b");
    assert EscapeChars("a|b") == "a||b" by {
      assert "a|b"[1..] == "|b";
      assert "|b"[1..] == "b";
    }
  }

  lemma EscapeEncodesNewline()
    ensures Escape(Some("a\nb")) == "a|nb"
  {
    assert NoEsc("a\nb");
    assert EscapeChars("a\nb") == "a|nb" by {
      assert "a\nb"[1..] == "\nb";
      assert "\nb"[1..] == "b";
    }
  }

  lemma EscapeEncodesQuote()
    ensures Escape(Some("it's")) == "it|'s"
  {
    assert NoEsc("it's");
    assert EscapeChars("it's") == "it|'s" by {
      assert "it's"[1..] == "t's";
      assert "t's"[1..] == "'s";
      assert "'s"[1..] == "s";
    }
  }

  /** `ESC[0m` (reset) is one complete span. */
  lemma StripReset()
    ensures StripAnsi("\U{1B}[0m") == ""
  {
    var reset := "\U{1B}[0m";
    assert reset[1..] == "[0m";
    assert "[0m"[1..] == "0m";
    assert "0m"[1..] == "m";
    assert SpanLength("m") == Some(0);
    assert SpanLength("0m") == Some(1);
    assert SpanLength("[0m") == Some(2);
    assert reset[4..] == "";
  }

  /** `ESC[31m` (red) is one complete span, and the text after it is kept. */
  lemma StripRed(rest: string)
    ensures StripAnsi("\U{1B}[31m" + rest) == StripAnsi(rest)
  {
    var s := "\U{1B}[31m" + rest;
    assert s[1..] == "[31m" + rest;
    assert ("[31m" + rest)[1..] == "31m" + rest;
    assert ("31m" + rest)[1..] == "1m" + rest;
    assert ("1m" + rest)[1..] == "m" + rest;
    assert SpanLength("m" + rest) == Some(0);
    assert SpanLength("1m" + rest) == Some(1);
    assert SpanLength("31m" + rest) == Some(2);
    assert SpanLength("[31m" + rest) == Some(3);
    assert s[5..] == rest;
  }

  /** Text without ESC passes through stripping unchanged, whatever follows it. */
  lemma {:induction false} StripEscFreePrefix(a: string, b: string)
    requires NoEsc(a)
    ensures StripAnsi(a + b) == a + StripAnsi(b)
    decreases |a|
  {
    if |a| > 0 {
      assert StripAnsi(a + b) == [a[0]] + StripAnsi(a[1..] + b) by {
        assert (a + b)[0] == a[0] != ESC;
        assert (a + b)[1..] == a[1..] + b;
      }
      assert NoEsc(a[1..]);
      StripEscFreePrefix(a[1..], b);
      assert [a[0]] + (a[1..] + StripAnsi(b)) == a + StripAnsi(b) by {
        assert a == [a[0]] + a[1..];
      }
    } else {
      assert a + b == b;
    }
  }

  /** Text wrapped in a red colour code and a reset escapes as the bare text. */
  lemma EscapeStripsColour(word: string)
    requires NoEsc(word)
    ensures Escape(Some("\U{1B}[31m" + word + "\U{1B}[0m")) == Escape(Some(word))
  {
    var reset := "\U{1B}[0m";
    assert "\U{1B}[31m" + word + reset == "\U{1B}[31m" + (word + reset);
    StripRed(word + reset);
    StripEscFreePrefix(word, reset);
    StripReset();
    assert word + "" == word;
  }
}
