/** How the diagnostics that a child process leaves become the reply of the installation owner. */
module OwnerReply {
  import opened Common
  import opened HandOver
  import ProcessGroup

  const MAX_STDOUT: nat := 16384
  const MAX_STDERR: nat := 65536

  const ERRORS: set<string> := {
    "InvalidInput", "InvalidEndpoint", "InvalidRoleClosure", "InvalidPath", "UnsupportedTopology", "IdentityDrift",
    "ConfigurationDrift", "ForeignState", "CredentialInvalid", "PrerequisiteUnavailable", "SchemaMismatch",
    "ExternalOutcomeUnknown", "Conflict", "Incomplete"}

  /** The length of the first line of `s`, without its end. */
  function LineLength(s: Bytes): (n: nat)
    ensures n <= |s|
  {
    if s == "" || s[0] == '\n' || s[0] == '\r' then 0 else 1 + LineLength(s[1..])
  }

  /** `s.splitlines()`. */
  function Lines(s: Bytes): seq<Bytes>
    decreases |s|
  {
    if s == "" then []
    else
      var n := LineLength(s);
      if n == |s| then [s]
      else [s[..n]] + Lines(s[if s[n] == '\r' && n + 1 < |s| && s[n + 1] == '\n' then n + 2 else n + 1..])
  }

  /** The closed error codes among the lines. */
  function Codes(lines: seq<Bytes>): seq<string> {
    if lines == [] then []
    else
      var rest := Codes(Front(lines));
      var line := Last(lines);
      if "installation " <= line && line[13..] in ERRORS then rest + [line[13..]] else rest
  }

  /** `owner_result`; `decode` is the strict JSON reader. */
  function OwnerResult(exitCode: int, stdout: Bytes, stderr: Bytes, inputDigest: string, field: string,
                       decode: Bytes -> Option<Value>): Reply
  {
    if |stdout| > MAX_STDOUT || |stderr| > MAX_STDERR then Broken
    else if exitCode != 0 then
      var codes := Codes(Lines(stderr));
      if |codes| == 1 then OwnerError(codes[0]) else Broken
    else
      match decode(stdout)
      case None => Broken
      case Some(v) => if CheckedEnvelope(v, inputDigest, field, None) then Object(v) else Broken
  }

  /**
   * The group keeps at most 65537 bytes of a child's stderr, one more than the reader accepts, so a
   * truncated diagnostic is read exactly as the whole one would be.
   */
  lemma TruncationIsInvisible(exitCode: int, stdout: Bytes, stderr: Bytes, inputDigest: string, field: string,
                              decode: Bytes -> Option<Value>)
    ensures OwnerResult(exitCode, stdout, ProcessGroup.Take(stderr, ProcessGroup.ERROR_LIMIT),
                        inputDigest, field, decode)
         == OwnerResult(exitCode, stdout, stderr, inputDigest, field, decode)
  {
  }

  // ---------------------------------------------------------------- code lines, in terms of positions

  predicate EndsLine(c: char) {
    c == '\n' || c == '\r'
  }

  /** The text from `i` to `end` is not empty and is a whole line of `s`. */
  predicate LineAt(s: Bytes, i: nat, end: nat) {
    && i < end <= |s|
    && (i == 0 || EndsLine(s[i - 1])) && (end == |s| || EndsLine(s[end]))
    && forall k :: i <= k < end ==> !EndsLine(s[k])
  }

  predicate TextAt(s: Bytes, i: nat, text: Bytes) {
    i + |text| <= |s| && s[i..i + |text|] == text
  }

  lemma TextInDrop(s: Bytes, m: nat, i: nat, text: Bytes)
    requires m <= |s|
    ensures TextAt(s[m..], i, text) <==> TextAt(s, m + i, text)
  {
    if m + i + |text| <= |s| {
      assert s[m..][i..i + |text|] == s[m + i..m + i + |text|];
    }
  }

  predicate Closed(code: string) {
    code in [
      "InvalidInput", "InvalidEndpoint", "InvalidRoleClosure", "InvalidPath", "UnsupportedTopology", "IdentityDrift",
      "ConfigurationDrift", "ForeignState", "CredentialInvalid", "PrerequisiteUnavailable", "SchemaMismatch",
      "ExternalOutcomeUnknown", "Conflict", "Incomplete"]
  }

  lemma ClosedExactly(code: string)
    ensures Closed(code) <==> code in ERRORS
  {
  }

  /** A whole line of `s` is `installation ` and then the closed code `code`, starting at position `i`. */
  predicate CodeLineAt(s: Bytes, i: nat, code: string) {
    Closed(code) && LineAt(s, i, i + 13 + |code|) && TextAt(s, i, "installation " + code)
  }

  ghost predicate NoCodeLine(s: Bytes) {
    forall i: nat, code :: !CodeLineAt(s, i, code)
  }

  /** Exactly one line of `s` carries a closed code, and that code is `code`. */
  ghost predicate OneCodeLine(s: Bytes, code: string) {
    exists i: nat :: OnlyCodeLine(s, i, code)
  }

  /** The code line at `i` is the only one. */
  ghost predicate OnlyCodeLine(s: Bytes, i: nat, code: string) {
    CodeLineAt(s, i, code) && forall j: nat, other :: CodeLineAt(s, j, other) ==> j == i && other == code
  }

  /** The code that a single line carries. */
  function CodeOf(line: Bytes): Option<string> {
    if "installation " <= line && Closed(line[13..]) then Some(line[13..]) else None
  }

  lemma {:induction false} CodesOfCons(line: Bytes, rest: seq<Bytes>)
    ensures Codes([line] + rest) == (if CodeOf(line).Some? then [CodeOf(line).value] else []) + Codes(rest)
  {
    var lines := [line] + rest;
    if rest == [] {
      assert lines == [line] && Front(lines) == [] && Last(lines) == line;
      assert Codes([]) == [];
    } else {
      assert Front(lines) == [line] + Front(rest) && Last(lines) == Last(rest);
      CodesOfCons(line, Front(rest));
    }
  }

  /** Where the text after the first line starts. */
  function NextLine(s: Bytes): (m: nat)
    requires LineLength(s) < |s|
    ensures LineLength(s) < m <= |s|
  {
    var n := LineLength(s);
    if s[n] == '\r' && n + 1 < |s| && s[n + 1] == '\n' then n + 2 else n + 1
  }

  lemma {:induction false} FirstLine(s: Bytes)
    ensures forall k :: 0 <= k < LineLength(s) ==> !EndsLine(s[k])
    ensures LineLength(s) < |s| ==> EndsLine(s[LineLength(s)])
  {
    if s != "" && !EndsLine(s[0]) {
      FirstLine(s[1..]);
      assert forall k :: 0 < k < LineLength(s) ==> s[k] == s[1..][k - 1];
    }
  }

  lemma FirstLineIsALine(s: Bytes)
    requires LineLength(s) > 0
    ensures LineAt(s, 0, LineLength(s))
  {
    FirstLine(s);
  }

  /** A line is the first one, or one of those after it. */
  lemma LineIsFirstOrLater(s: Bytes, i: nat, end: nat)
    requires LineAt(s, i, end)
    ensures i == 0 ==> end == LineLength(s)
    ensures i > 0 ==>
              && LineLength(s) < |s| && NextLine(s) <= i
              && LineAt(s[NextLine(s)..], i - NextLine(s), end - NextLine(s))
  {
    hide LineLength;
    FirstLine(s);
    var n := LineLength(s);
    if i > 0 {
      assert n < i;
      var m := NextLine(s);
      assert m <= i;
      var rest := s[m..];
      assert forall k :: 0 <= k < |rest| ==> rest[k] == s[m + k];
    }
  }

  lemma AfterABreak(s: Bytes)
    requires LineLength(s) < |s|
    ensures EndsLine(s[NextLine(s) - 1])
  {
    hide LineLength;
    FirstLine(s);
  }

  /** A line of the text after a line break is a line of the whole. */
  lemma LineOfDrop(s: Bytes, m: nat, i: nat, end: nat)
    requires 0 < m <= |s| && EndsLine(s[m - 1]) && LineAt(s[m..], i, end)
    ensures LineAt(s, m + i, m + end)
  {
    var rest := s[m..];
    forall k | m + i <= k < m + end
      ensures !EndsLine(s[k])
    {
      assert rest[k - m] == s[k];
    }
    assert i > 0 ==> rest[i - 1] == s[m + i - 1];
    assert end < |rest| ==> rest[end] == s[m + end];
  }

  lemma CodeOfWords(line: Bytes, code: string)
    requires line == "installation " + code && Closed(code)
    ensures CodeOf(line) == Some(code)
  {
    hide Closed;
    assert line[13..] == code;
  }

  /** The same for code lines. */
  lemma CodeLineIsFirst(s: Bytes, code: string)
    requires CodeLineAt(s, 0, code)
    ensures CodeOf(s[..LineLength(s)]) == Some(code)
  {
    hide LineAt, LineLength, CodeOf, Closed;
    var end := 13 + |code|;
    LineIsFirstOrLater(s, 0, end);
    assert s[..LineLength(s)] == s[0..end];
    CodeOfWords(s[..LineLength(s)], code);
  }

  lemma CodeLineIsLater(s: Bytes, i: nat, code: string)
    requires CodeLineAt(s, i, code) && i > 0
    ensures LineLength(s) < |s| && NextLine(s) <= i && CodeLineAt(s[NextLine(s)..], i - NextLine(s), code)
  {
    hide LineAt, LineLength, NextLine, Closed, TextAt;
    var end := i + 13 + |code|;
    LineIsFirstOrLater(s, i, end);
    var m := NextLine(s);
    var rest, from := s[m..], i - m;
    assert from + 13 + |code| == end - m;
    TextInDrop(s, m, from, "installation " + code);
    assert CodeLineAt(rest, from, code);
  }

  lemma CodeLineOfDrop(s: Bytes, m: nat, i: nat, code: string)
    requires 0 < m <= |s| && EndsLine(s[m - 1]) && CodeLineAt(s[m..], i, code)
    ensures CodeLineAt(s, m + i, code)
  {
    hide LineAt, Closed, TextAt;
    var end := i + 13 + |code|;
    assert m + i + 13 + |code| == m + end;
    LineOfDrop(s, m, i, end);
    TextInDrop(s, m, i, "installation " + code);
  }

  lemma FirstLineCarries(s: Bytes)
    requires CodeOf(s[..LineLength(s)]).Some?
    ensures CodeLineAt(s, 0, CodeOf(s[..LineLength(s)]).value)
  {
    hide LineAt, LineLength, Closed;
    var line := s[..LineLength(s)];
    FirstLineIsALine(s);
    assert line == "installation " + line[13..];
    assert s[0..|line|] == line;
  }

  /** The codes among the lines are none, or exactly one, if and only if the code lines are. */
  lemma {:induction false} CodesExactly(s: Bytes, code: string)
    ensures Codes(Lines(s)) == [] <==> NoCodeLine(s)
    ensures Codes(Lines(s)) == [code] <==> OneCodeLine(s, code)
    decreases |s|
  {
    hide CodeOf, LineLength, Codes, NoCodeLine, OneCodeLine;
    if s == "" {
      NothingSaid(code);
    } else if LineLength(s) == |s| {
      assert s[..|s|] == s && Lines(s) == [s] + [];
      CodesOfCons(s, []);
      NothingSaid(code);
      OnlyLine(s, code);
      OneBefore(CodeOf(s), [], code);
    } else {
      var rest := s[NextLine(s)..];
      assert Lines(s) == [s[..LineLength(s)]] + Lines(rest);
      CodesOfCons(s[..LineLength(s)], Lines(rest));
      CodesExactly(rest, code);
      LineAndRest(s, code);
      OneBefore(CodeOf(s[..LineLength(s)]), Codes(Lines(rest)), code);
    }
  }

  lemma OneBefore(first: Option<string>, codes: seq<string>, code: string)
    ensures var all := (if first.Some? then [first.value] else []) + codes;
            && (all == [] <==> first.None? && codes == [])
            && (all == [code] <==> (first == Some(code) && codes == []) || (first.None? && codes == [code]))
  {
    if first.Some? {
      var all := [first.value] + codes;
      assert all[0] == first.value && all[1..] == codes;
    } else {
      assert [] + codes == codes;
    }
  }

  lemma NothingSaid(code: string)
    ensures Codes([]) == [] && NoCodeLine("") && !OneCodeLine("", code)
  {
  }

  lemma OnlyLine(s: Bytes, code: string)
    requires LineLength(s) == |s|
    ensures (NoCodeLine(s) <==> CodeOf(s).None?) && (OneCodeLine(s, code) <==> CodeOf(s) == Some(code))
  {
    hide CodeLineAt, CodeOf, LineLength, NextLine;
    assert s[..|s|] == s;
    if CodeOf(s).Some? {
      FirstLineCarries(s);
    }
    forall i: nat, c | CodeLineAt(s, i, c)
      ensures i == 0 && CodeOf(s) == Some(c)
    {
      if i == 0 {
        CodeLineIsFirst(s, c);
      } else {
        CodeLineIsLater(s, i, c);
      }
    }
    if CodeOf(s).Some? {
      assert OnlyCodeLine(s, 0, CodeOf(s).value);
    }
  }

  /** The code lines of `s` are the first line, which carries `first`, and code lines of the rest. */
  ghost predicate FirstOrLater(s: Bytes, rest: Bytes, m: nat, first: Option<string>) {
    forall i: nat, code :: CodeLineAt(s, i, code) ==>
      if i == 0 then first == Some(code) else m <= i && CodeLineAt(rest, i - m, code)
  }

  ghost predicate AllLater(s: Bytes, rest: Bytes, m: nat) {
    forall i: nat, code :: CodeLineAt(rest, i, code) ==> CodeLineAt(s, m + i, code)
  }

  lemma LinesAreFirstOrLater(s: Bytes)
    requires LineLength(s) < |s|
    ensures FirstOrLater(s, s[NextLine(s)..], NextLine(s), CodeOf(s[..LineLength(s)]))
  {
    hide CodeLineAt, CodeOf, LineLength, NextLine;
    forall i: nat, code | CodeLineAt(s, i, code)
      ensures if i == 0 then CodeOf(s[..LineLength(s)]) == Some(code)
              else NextLine(s) <= i && CodeLineAt(s[NextLine(s)..], i - NextLine(s), code)
    {
      if i == 0 {
        CodeLineIsFirst(s, code);
      } else {
        CodeLineIsLater(s, i, code);
      }
    }
  }

  lemma LaterLinesAreLines(s: Bytes, m: nat)
    requires 0 < m <= |s| && EndsLine(s[m - 1])
    ensures AllLater(s, s[m..], m)
  {
    hide CodeLineAt;
    forall i: nat, code | CodeLineAt(s[m..], i, code)
      ensures CodeLineAt(s, m + i, code)
    {
      CodeLineOfDrop(s, m, i, code);
    }
  }

  lemma LineAndRest(s: Bytes, code: string)
    requires LineLength(s) < |s|
    ensures var first, rest := CodeOf(s[..LineLength(s)]), s[NextLine(s)..];
            && (NoCodeLine(s) <==> first.None? && NoCodeLine(rest))
            && (OneCodeLine(s, code) <==> (first == Some(code) && NoCodeLine(rest))
                                          || (first.None? && OneCodeLine(rest, code)))
  {
    hide CodeLineAt, CodeOf, LineLength, NextLine, NoCodeLine, OneCodeLine, FirstOrLater, AllLater, EndsLine;
    AfterABreak(s);
    var first, m := CodeOf(s[..LineLength(s)]), NextLine(s);
    if first.Some? {
      FirstLineCarries(s);
    }
    LinesAreFirstOrLater(s);
    LaterLinesAreLines(s, m);
    Combined(s, s[m..], m, first, code);
  }

  /** A line first, and then others. */
  lemma Combined(s: Bytes, rest: Bytes, m: nat, first: Option<string>, code: string)
    requires m > 0 && FirstOrLater(s, rest, m, first) && AllLater(s, rest, m)
    requires first.Some? ==> CodeLineAt(s, 0, first.value)
    ensures NoCodeLine(s) <==> first.None? && NoCodeLine(rest)
    ensures OneCodeLine(s, code)
            <==> (first == Some(code) && NoCodeLine(rest)) || (first.None? && OneCodeLine(rest, code))
  {
    hide CodeLineAt;
    if OneCodeLine(s, code) {
      var i: nat :| OnlyCodeLine(s, i, code);
      if first.None? {
        assert m <= i && CodeLineAt(rest, i - m, code);
        forall j: nat, c | CodeLineAt(rest, j, c)
          ensures m + j == i && c == code
        {
          assert CodeLineAt(s, m + j, c);
        }
        assert OnlyCodeLine(rest, i - m, code);
      } else {
        assert i == 0;
        assert forall j: nat, c :: CodeLineAt(rest, j, c) ==> CodeLineAt(s, m + j, c);
      }
    }
    if first == Some(code) && NoCodeLine(rest) {
      assert OnlyCodeLine(s, 0, code);
    }
    if first.None? && OneCodeLine(rest, code) {
      var i: nat :| OnlyCodeLine(rest, i, code);
      assert OnlyCodeLine(s, m + i, code);
    }
  }

  /**
   * What the owner says, exactly: a closed code when the exit code is not 0, both outputs are within their
   * bounds and exactly one line of stderr is `installation ` and that code; an object when the exit code is
   * 0, the outputs are within their bounds and stdout is that checked envelope; anything else is a failure.
   */
  lemma ReplyExactly(exitCode: int, stdout: Bytes, stderr: Bytes, inputDigest: string, field: string,
                     decode: Bytes -> Option<Value>, code: string, value: Value)
    ensures var r := OwnerResult(exitCode, stdout, stderr, inputDigest, field, decode);
            var bounded := |stdout| <= 16384 && |stderr| <= 65536;
            && (r == OwnerError(code) <==> bounded && exitCode != 0 && OneCodeLine(stderr, code))
            && (r == Object(value) <==>
                  bounded && exitCode == 0 && decode(stdout) == Some(value)
                  && CheckedEnvelope(value, inputDigest, field, None))
  {
    hide CheckedEnvelope, OneCodeLine, Codes, Lines;
    CodesExactly(stderr, code);
  }

  /** Only a closed code is ever read from stderr, and only when exactly one line carries one. */
  lemma OnlyClosedCodes(exitCode: int, stdout: Bytes, stderr: Bytes, inputDigest: string, field: string,
                        decode: Bytes -> Option<Value>)
    ensures var r := OwnerResult(exitCode, stdout, stderr, inputDigest, field, decode);
            && (r.OwnerError? ==> exitCode != 0 && r.code in ERRORS && OneCodeLine(stderr, r.code))
            && (r.Object? ==> exitCode == 0 && CheckedEnvelope(r.value, inputDigest, field, None))
  {
    hide CheckedEnvelope, OneCodeLine, Codes, Lines, CodeLineAt;
    var r := OwnerResult(exitCode, stdout, stderr, inputDigest, field, decode);
    if r.OwnerError? {
      ReplyExactly(exitCode, stdout, stderr, inputDigest, field, decode, r.code, Value({}, 0, "", "", ""));
      OneCodeIsClosed(stderr, r.code);
    }
  }

  lemma OneCodeIsClosed(s: Bytes, code: string)
    requires OneCodeLine(s, code)
    ensures code in ERRORS
  {
    ClosedExactly(code);
  }

  /** A failed call that says one closed code on a line of its own is that error. */
  lemma DiagnosticReadsBack(exitCode: int, stdout: Bytes, code: string, inputDigest: string, field: string,
                            decode: Bytes -> Option<Value>)
    requires exitCode != 0 && |stdout| <= 16384 && code in ERRORS
    ensures OwnerResult(exitCode, stdout, "installation " + code + "\n", inputDigest, field, decode) == OwnerError(code)
  {
    var text := "installation " + code;
    var s := text + "\n";
    CodesAreWords(code);
    hide Codes, Lines, NextLine, CodeOf, CheckedEnvelope;
    assert forall k :: 0 <= k < |text| ==> s[k] == text[k] && text[k] in text;
    assert s[0..|text|] == text && CodeLineAt(s, 0, code);
    forall j: nat, other | CodeLineAt(s, j, other)
      ensures j == 0 && other == code
    {
      if j == 0 {
        CodeLineIsFirst(s, code);
        CodeLineIsFirst(s, other);
      }
    }
    assert OnlyCodeLine(s, 0, code);
    ReplyExactly(exitCode, stdout, s, inputDigest, field, decode, code, Value({}, 0, "", "", ""));
  }

  lemma CodesAreWords(code: string)
    requires code in ERRORS
    ensures |code| <= 25 && forall c :: c in "installation " + code ==> !EndsLine(c)
  {
    LettersOnly(code);
    assert forall c :: c in "installation " ==> c == ' ' || 'a' <= c <= 'z';
    hide ERRORS;
  }

  lemma LettersOnly(code: string)
    requires code in ERRORS
    ensures |code| <= 25 && forall c :: c in code ==> 'A' <= c <= 'z'
  {
  }
}
