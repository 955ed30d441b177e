/**
 * The quote- and parenthesis-aware scanner of the schema check. The loops look ahead to skip a doubled
 * quote; the specification is a plain fold in which every quote toggles.
 */
module SqlSplit {
  import opened Common

  // ---------------------------------------------------------------- lexical state

  /** Whether a string literal is open after `s`. */
  predicate Quoted(s: string) {
    s != "" && (if Last(s) == '\'' then !Quoted(Front(s)) else Quoted(Front(s)))
  }

  /** Opening minus closing parentheses outside string literals. */
  function Depth(s: string): int {
    if s == "" then 0
    else if Quoted(Front(s)) then Depth(Front(s))
    else Depth(Front(s)) + (if Last(s) == '(' then 1 else if Last(s) == ')' then -1 else 0)
  }

  predicate TopLevel(s: string) {
    !Quoted(s) && Depth(s) == 0
  }

  lemma Snoc(s: string, c: char)
    ensures Quoted(s + [c]) == if c == '\'' then !Quoted(s) else Quoted(s)
    ensures Depth(s + [c])
         == if Quoted(s) then Depth(s) else Depth(s) + (if c == '(' then 1 else if c == ')' then -1 else 0)
  {
    assert Front(s + [c]) == s;
  }

  lemma PrefixStep(s: string, n: nat)
    requires n < |s|
    ensures Quoted(s[..n + 1]) == if s[n] == '\'' then !Quoted(s[..n]) else Quoted(s[..n])
    ensures Depth(s[..n + 1])
         == if Quoted(s[..n]) then Depth(s[..n])
            else Depth(s[..n]) + (if s[n] == '(' then 1 else if s[n] == ')' then -1 else 0)
  {
    assert s[..n + 1] == s[..n] + [s[n]];
    Snoc(s[..n], s[n]);
  }

  /** After a closed prefix the rest is read as if it stood alone. */
  lemma {:induction false} Concat(a: string, b: string)
    requires !Quoted(a)
    ensures Quoted(a + b) == Quoted(b) && Depth(a + b) == Depth(a) + Depth(b)
  {
    if b == "" {
      assert a + b == a;
    } else {
      assert Front(a + b) == a + Front(b);
      Concat(a, Front(b));
    }
  }

  // ---------------------------------------------------------------- the body of a table

  /** `sql[from..end]` is the shortest text from `from` on that closes one more parenthesis than it opens. */
  ghost predicate ClosesAt(sql: string, from: nat, end: nat) {
    && from < end <= |sql|
    && Depth(sql[from..end]) == -1 && !Quoted(sql[from..end])
    && forall p :: from <= p < end ==> Depth(sql[from..p]) > -1
  }

  /** No text from `from` on closes more parentheses than it opens. */
  ghost predicate NeverCloses(sql: string, from: nat)
    requires from <= |sql|
  {
    forall p :: from <= p <= |sql| ==> Depth(sql[from..p]) > -1
  }

  /** A body is balanced and quote-closed, and no prefix of it closes more than it opens. */
  ghost predicate Balanced(body: string) {
    TopLevel(body) && forall p :: 0 <= p <= |body| ==> Depth(body[..p]) >= 0
  }

  /** The inner loop of `extract_table_bodies`: the position after the matching parenthesis. */
  method FindClose(sql: string, from: nat) returns (end: Option<nat>)
    requires from <= |sql|
    ensures end.Some? ==> ClosesAt(sql, from, end.value)
    ensures end.None? ==> NeverCloses(sql, from)
  {
    var position := from;
    var depth := 1;
    var quoted := false;
    assert sql[from..from] == "";
    while position < |sql| && depth != 0
      invariant from <= position <= |sql| && depth >= 0
      invariant quoted == Quoted(sql[from..position]) && depth == 1 + Depth(sql[from..position])
      invariant forall p :: from <= p < position ==> Depth(sql[from..p]) > -1
      invariant depth == 0 ==> !quoted && from < position
    {
      var character := sql[position];
      SubrangeStep(sql, from, position);
      if character == '\'' {
        if quoted && position + 1 < |sql| && sql[position + 1] == '\'' {
          SubrangeStep(sql, from, position + 1);
          position := position + 2;
          continue;
        }
        quoted := !quoted;
      } else if !quoted {
        if character == '(' {
          depth := depth + 1;
        } else if character == ')' {
          depth := depth - 1;
        }
      }
      position := position + 1;
    }
    if depth != 0 {
      return None;
    }
    return Some(position);
  }

  lemma SubrangeStep(s: string, from: nat, n: nat)
    requires from <= n < |s|
    ensures Quoted(s[from..n + 1]) == if s[n] == '\'' then !Quoted(s[from..n]) else Quoted(s[from..n])
    ensures Depth(s[from..n + 1])
         == if Quoted(s[from..n]) then Depth(s[from..n])
            else Depth(s[from..n]) + (if s[n] == '(' then 1 else if s[n] == ')' then -1 else 0)
  {
    assert s[from..n + 1] == s[from..n] + [s[n]];
    Snoc(s[from..n], s[n]);
  }

  lemma CloseIsAParenthesis(sql: string, from: nat, end: nat)
    requires ClosesAt(sql, from, end)
    ensures sql[end - 1] == ')' && Balanced(sql[from..end - 1])
  {
    SubrangeStep(sql, from, end - 1);
    assert Depth(sql[from..end - 1]) > -1;
    var body := sql[from..end - 1];
    forall p | 0 <= p <= |body|
      ensures Depth(body[..p]) >= 0
    {
      assert body[..p] == sql[from..from + p];
    }
  }

  /** A match of the CREATE TABLE pattern: the table name and the position after its parenthesis. */
  datatype Match = Match(name: string, end: nat)

  /** The bodies of the first `n` matches, whose names differ. */
  ghost predicate BodiesFound(sql: string, matches: seq<Match>, n: nat, found: map<string, string>) {
    && n <= |matches|
    && (forall j, k :: 0 <= j < k < n ==> matches[j].name != matches[k].name)
    && found.Keys == (set j | 0 <= j < n :: matches[j].name)
    && (forall j :: 0 <= j < n ==>
          matches[j].name in found && IsBody(sql, matches[j].end, found[matches[j].name]))
  }

  lemma OneMoreBody(sql: string, matches: seq<Match>, n: nat, found: map<string, string>, body: string)
    requires n < |matches| && BodiesFound(sql, matches, n, found)
    requires matches[n].name !in found && IsBody(sql, matches[n].end, body)
    ensures BodiesFound(sql, matches, n + 1, found[matches[n].name := body])
  {
    hide IsBody;
    forall j | 0 <= j < n
      ensures matches[j].name != matches[n].name
    {
      assert matches[j].name in found;
    }
  }

  /** `extract_table_bodies`, given the pattern matches in order; None where it raises. */
  method ExtractTableBodies(sql: string, matches: seq<Match>) returns (bodies: Option<map<string, string>>)
    requires forall m :: m in matches ==> m.end <= |sql|
    ensures bodies.Some? ==>
              && (forall i, j :: 0 <= i < j < |matches| ==> matches[i].name != matches[j].name)
              && bodies.value.Keys == (set j | 0 <= j < |matches| :: matches[j].name)
              && (forall j :: 0 <= j < |matches| ==> IsBody(sql, matches[j].end, bodies.value[matches[j].name]))
    ensures bodies.None? ==>
              || (exists i, j :: 0 <= i < j < |matches| && matches[i].name == matches[j].name)
              || (exists j :: 0 <= j < |matches| && NeverCloses(sql, matches[j].end))
  {
    hide IsBody, ClosesAt, Depth, NeverCloses;
    var found: map<string, string> := map[];
    for i := 0 to |matches|
      invariant BodiesFound(sql, matches, i, found)
    {
      var m := matches[i];
      var end := FindClose(sql, m.end);
      if end.None? {
        return None;
      }
      if m.name in found {
        assert exists j :: 0 <= j < i && matches[j].name == matches[i].name;
        return None;
      }
      CloseGivesBody(sql, m.end, end.value);
      OneMoreBody(sql, matches, i, found, sql[m.end..end.value - 1]);
      found := found[m.name := sql[m.end..end.value - 1]];
    }
    return Some(found);
  }

  /** The balanced text between the opening parenthesis before `from` and its match. */
  ghost predicate IsBody(sql: string, from: nat, body: string) {
    && from + |body| < |sql| && body == sql[from..from + |body|] && sql[from + |body|] == ')'
    && Balanced(body)
  }

  lemma CloseGivesBody(sql: string, from: nat, end: nat)
    requires ClosesAt(sql, from, end)
    ensures IsBody(sql, from, sql[from..end - 1])
  {
    CloseIsAParenthesis(sql, from, end);
  }

  /** There is at most one body at a position. */
  lemma BodyIsUnique(sql: string, from: nat, a: string, b: string)
    requires IsBody(sql, from, a) && IsBody(sql, from, b)
    ensures a == b
  {
    NoShorterBody(sql, from, a, b);
    NoShorterBody(sql, from, b, a);
  }

  lemma NoShorterBody(sql: string, from: nat, a: string, b: string)
    requires IsBody(sql, from, a) && IsBody(sql, from, b)
    ensures |a| >= |b|
  {
    if |a| < |b| {
      assert b[..|a| + 1] == sql[from..from + |a| + 1];
      SubrangeStep(sql, from, from + |a|);
    }
  }

  // ---------------------------------------------------------------- top-level pieces

  /** The pieces of `s` between its top-level commas. */
  function Pieces(s: string): (pieces: seq<string>)
    ensures |pieces| >= 1
  {
    if s == "" then [""]
    else
      var front := Pieces(Front(s));
      if Last(s) == ',' && TopLevel(Front(s)) then front + [""]
      else Front(front) + [Last(front) + [Last(s)]]
  }

  function JoinWithCommas(pieces: seq<string>): string
    requires pieces != []
  {
    if |pieces| == 1 then pieces[0] else JoinWithCommas(Front(pieces)) + "," + Last(pieces)
  }

  lemma JoinSnoc(pieces: seq<string>, piece: string)
    ensures JoinWithCommas(pieces + [piece]) == if pieces == [] then piece else JoinWithCommas(pieces) + "," + piece
  {
    assert Front(pieces + [piece]) == pieces;
  }

  lemma LongerLastPiece(pieces: seq<string>, c: char)
    requires pieces != []
    ensures JoinWithCommas(Front(pieces) + [Last(pieces) + [c]]) == JoinWithCommas(pieces) + [c]
  {
    assert pieces == Front(pieces) + [Last(pieces)];
    JoinSnoc(Front(pieces), Last(pieces));
    JoinSnoc(Front(pieces), Last(pieces) + [c]);
  }

  /** The pieces joined by commas give the text back. */
  lemma {:induction false} PiecesJoin(s: string)
    ensures JoinWithCommas(Pieces(s)) == s
  {
    hide Quoted, Depth;
    if s != "" {
      var front, c := Pieces(Front(s)), Last(s);
      PiecesJoin(Front(s));
      assert s == Front(s) + [c];
      LongerLastPiece(front, c);
      JoinSnoc(front, "");
    }
  }

  /** A comma of `piece` that stands at top level within it. */
  predicate HasTopLevelComma(piece: string) {
    exists n :: 0 <= n < |piece| && piece[n] == ',' && TopLevel(piece[..n])
  }

  lemma CommaInLonger(a: string, c: char)
    ensures HasTopLevelComma(a + [c]) <==> HasTopLevelComma(a) || (c == ',' && TopLevel(a))
  {
    var b := a + [c];
    assert b[..|a|] == a;
    forall n | 0 <= n < |a|
      ensures b[n] == a[n] && b[..n] == a[..n]
    {
    }
    if HasTopLevelComma(a) {
      var n :| 0 <= n < |a| && a[n] == ',' && TopLevel(a[..n]);
      assert b[n] == ',' && TopLevel(b[..n]);
    }
    if c == ',' && TopLevel(a) {
      assert b[|a|] == ',' && TopLevel(b[..|a|]);
    }
  }

  /** Every piece before the last is closed, the last one is as open as the text, and none has a top-level comma. */
  lemma {:induction false} PiecesAreClosed(s: string)
    ensures var pieces := Pieces(s);
            && (forall i :: 0 <= i < |pieces| - 1 ==> TopLevel(pieces[i]))
            && Quoted(Last(pieces)) == Quoted(s) && Depth(Last(pieces)) == Depth(s)
            && (forall i :: 0 <= i < |pieces| ==> !HasTopLevelComma(pieces[i]))
  {
    hide HasTopLevelComma, Quoted, Depth;
    EmptyPieces();
    if s == "" {
      NoCommaInNothing();
    } else {
      var front, c := Pieces(Front(s)), Last(s);
      PiecesAreClosed(Front(s));
      assert s == Front(s) + [c];
      Snoc(Last(front), c);
      Snoc(Front(s), c);
      CommaInLonger(Last(front), c);
      NoCommaInNothing();
    }
  }

  lemma NoCommaInNothing()
    ensures !HasTopLevelComma("")
  {
  }

  /** Adding text without a top-level comma only lengthens the last piece. */
  lemma {:induction false} PiecesOfConcat(s: string, item: string)
    requires TopLevel(s) && !HasTopLevelComma(item)
    ensures Pieces(s + "," + item) == Pieces(s) + [item]
  {
    hide HasTopLevelComma, Quoted, Depth;
    var whole := s + "," + item;
    if item == "" {
      assert Front(whole) == s && Last(whole) == ',';
    } else {
      var less := Front(item);
      assert item == less + [Last(item)];
      CommaInLonger(less, Last(item));
      PiecesOfConcat(s, less);
      assert Front(whole) == s + "," + less && Last(whole) == Last(item);
      Snoc(s, ',');
      Concat(s + ",", less);
      assert TopLevel(s + "," + less) <==> TopLevel(less);
      assert Front(Pieces(s) + [less]) == Pieces(s);
    }
  }

  predicate ClosedItem(item: string) {
    TopLevel(item) && !HasTopLevelComma(item)
  }

  /** Splitting a join of closed items gives the items back. */
  lemma {:induction false} SplitOfJoin(items: seq<string>)
    requires items != [] && forall i :: 0 <= i < |items| ==> ClosedItem(items[i])
    ensures Pieces(JoinWithCommas(items)) == items && TopLevel(JoinWithCommas(items))
  {
    hide HasTopLevelComma, Quoted, Depth, Pieces;
    if |items| == 1 {
      OnePiece(items[0]);
      assert items == [items[0]];
    } else {
      var front := Front(items);
      assert forall i :: 0 <= i < |front| ==> front[i] == items[i];
      SplitOfJoin(front);
      var s := JoinWithCommas(front);
      PiecesOfConcat(s, Last(items));
      Snoc(s, ',');
      Concat(s + ",", Last(items));
    }
  }

  lemma {:induction false} OnePiece(item: string)
    requires !HasTopLevelComma(item)
    ensures Pieces(item) == [item]
  {
    hide HasTopLevelComma, Quoted, Depth;
    if item != "" {
      var less := Front(item);
      assert item == less + [Last(item)];
      CommaInLonger(less, Last(item));
      OnePiece(less);
    }
  }

  // ---------------------------------------------------------------- trimmed segments

  /** `str.isspace` of one character. */
  predicate IsSpace(c: char) {
    var n := c as int;
    || 0x09 <= n <= 0x0D || 0x1C <= n <= 0x20 || n == 0x85 || n == 0xA0 || n == 0x1680
    || 0x2000 <= n <= 0x200A || n == 0x2028 || n == 0x2029 || n == 0x202F || n == 0x205F || n == 0x3000
  }

  /** `s.strip()`. */
  function Strip(s: string): string {
    if s == "" then ""
    else if IsSpace(s[0]) then Strip(s[1..])
    else if IsSpace(Last(s)) then Strip(Front(s))
    else s
  }

  /** The non-blank trimmed pieces. */
  function Trimmed(pieces: seq<string>): seq<string> {
    if pieces == [] then []
    else if Strip(Last(pieces)) == "" then Trimmed(Front(pieces))
    else Trimmed(Front(pieces)) + [Strip(Last(pieces))]
  }

  /** `top_level_segments`. */
  method TopLevelSegments(body: string) returns (segments: seq<string>)
    ensures segments == Trimmed(Pieces(body))
  {
    hide Pieces, Quoted, Depth, Trimmed, Strip;
    EmptyPieces();
    segments := [];
    var start := 0;
    var depth := 0;
    var quoted := false;
    var position := 0;
    ghost var pieces: seq<string> := [];
    while position < |body|
      invariant 0 <= start <= position <= |body|
      invariant quoted == Quoted(body[..position]) && depth == Depth(body[..position])
      invariant Pieces(body[..position]) == pieces + [body[start..position]]
      invariant segments == Trimmed(pieces)
    {
      var character := body[position];
      PieceStep(body, start, position, pieces);
      if character == '\'' {
        if quoted && position + 1 < |body| && body[position + 1] == '\'' {
          PieceStep(body, start, position + 1, pieces);
          position := position + 2;
          continue;
        }
        quoted := !quoted;
      } else if !quoted {
        if character == '(' {
          depth := depth + 1;
        } else if character == ')' {
          depth := depth - 1;
        } else if character == ',' && depth == 0 {
          TrimmedSnoc(pieces, body[start..position]);
          var segment := Strip(body[start..position]);
          if segment != "" {
            segments := segments + [segment];
          }
          pieces := pieces + [body[start..position]];
          start := position + 1;
        }
      }
      position := position + 1;
    }
    assert body[..|body|] == body && body[start..|body|] == body[start..];
    TrimmedSnoc(pieces, body[start..]);
    var segment := Strip(body[start..]);
    if segment != "" {
      segments := segments + [segment];
    }
  }

  lemma EmptyPieces()
    ensures Pieces("") == [] + [""] && !Quoted("") && Depth("") == 0 && Trimmed([]) == []
  {
  }

  lemma TrimmedSnoc(pieces: seq<string>, piece: string)
    ensures Trimmed(pieces + [piece])
         == if Strip(piece) == "" then Trimmed(pieces) else Trimmed(pieces) + [Strip(piece)]
  {
    assert Front(pieces + [piece]) == pieces;
  }

  lemma PieceStep(body: string, start: nat, position: nat, pieces: seq<string>)
    requires start <= position < |body|
    requires Pieces(body[..position]) == pieces + [body[start..position]]
    ensures Pieces(body[..position + 1])
         == if body[position] == ',' && TopLevel(body[..position])
            then pieces + [body[start..position]] + [body[position + 1..position + 1]]
            else pieces + [body[start..position + 1]]
    ensures Quoted(body[..position + 1])
         == if body[position] == '\'' then !Quoted(body[..position]) else Quoted(body[..position])
    ensures Depth(body[..position + 1])
         == if Quoted(body[..position]) then Depth(body[..position])
            else Depth(body[..position])
                 + (if body[position] == '(' then 1 else if body[position] == ')' then -1 else 0)
  {
    hide Quoted, Depth;
    PrefixStep(body, position);
    assert body[position + 1..position + 1] == "";
    var s := body[..position + 1];
    assert s == body[..position] + [body[position]];
    assert Front(s) == body[..position] && Last(s) == body[position];
    assert Last(pieces + [body[start..position]]) == body[start..position];
    assert Front(pieces + [body[start..position]]) == pieces;
    assert body[start..position] + [body[position]] == body[start..position + 1];
  }

  // ---------------------------------------------------------------- what trimming does

  /** The characters that `str.strip` takes away. */
  const WHITESPACE := "\t\n\U{0B}\U{0C}\r\U{1C}\U{1D}\U{1E}\U{1F} \U{85}\U{A0}\U{1680}"
    + "\U{2000}\U{2001}\U{2002}\U{2003}\U{2004}\U{2005}\U{2006}\U{2007}\U{2008}\U{2009}\U{200A}"
    + "\U{2028}\U{2029}\U{202F}\U{205F}\U{3000}"

  lemma SpaceExactly(c: char)
    ensures IsSpace(c) <==> c in WHITESPACE
  {
    assert WHITESPACE[..9] == "\t\n\U{0B}\U{0C}\r\U{1C}\U{1D}\U{1E}\U{1F}";
    assert |WHITESPACE| == 29;
    assert forall k :: 0 <= k < 29 ==> IsSpace(WHITESPACE[k]);
    if IsSpace(c) {
      SpaceIsListed(c);
    }
  }

  lemma SpaceIsListed(c: char)
    requires IsSpace(c)
    ensures c in WHITESPACE
  {
    var n := c as int;
    var place := if n <= 0x0D then n - 0x09 else if n <= 0x20 then n - 0x1C + 5 else if n == 0x85 then 10
                 else if n == 0xA0 then 11 else if n == 0x1680 then 12 else if n <= 0x200A then n - 0x2000 + 13
                 else if n == 0x2028 then 24 else if n == 0x2029 then 25 else if n == 0x202F then 26
                 else if n == 0x205F then 27 else 28;
    assert |WHITESPACE| == 29;
    assert WHITESPACE[place] == c;
  }

  predicate Blank(s: string) {
    forall c :: c in s ==> c in WHITESPACE
  }

  /** `piece` is `core` with blanks around it, and `core` neither begins nor ends with one. */
  ghost predicate TrimsTo(piece: string, core: string) {
    && (core != "" ==> core[0] !in WHITESPACE && Last(core) !in WHITESPACE)
    && exists before, after :: piece == before + core + after && Blank(before) && Blank(after)
  }

  lemma BlankBefore(c: char, s: string, core: string)
    requires TrimsTo(s, core) && c in WHITESPACE
    ensures TrimsTo([c] + s, core)
  {
    hide WHITESPACE;
    var before, after :| s == before + core + after && Blank(before) && Blank(after);
    assert [c] + s == ([c] + before) + core + after && Blank([c] + before);
  }

  lemma BlankAfter(s: string, c: char, core: string)
    requires TrimsTo(s, core) && c in WHITESPACE
    ensures TrimsTo(s + [c], core)
  {
    hide WHITESPACE;
    var before, after :| s == before + core + after && Blank(before) && Blank(after);
    assert s + [c] == before + core + (after + [c]) && Blank(after + [c]);
  }

  lemma NothingToTrim(s: string)
    requires s != "" ==> s[0] !in WHITESPACE && Last(s) !in WHITESPACE
    ensures TrimsTo(s, s)
  {
    hide WHITESPACE;
    assert s == "" + s + "" && Blank("");
  }

  lemma {:induction false} StripTrims(s: string)
    ensures TrimsTo(s, Strip(s))
  {
    hide IsSpace, WHITESPACE, TrimsTo;
    if s == "" {
      NothingToTrim(s);
    } else {
      SpaceExactly(s[0]);
      SpaceExactly(Last(s));
      if IsSpace(s[0]) {
        StripTrims(s[1..]);
        BlankBefore(s[0], s[1..], Strip(s));
        assert s == [s[0]] + s[1..];
      } else if IsSpace(Last(s)) {
        StripTrims(Front(s));
        BlankAfter(Front(s), Last(s), Strip(s));
        assert s == Front(s) + [Last(s)];
      } else {
        NothingToTrim(s);
      }
    }
  }

  lemma {:induction false} TrimmingIsUnique(before: string, core: string, after: string)
    requires Blank(before) && Blank(after) && (core != "" ==> core[0] !in WHITESPACE && Last(core) !in WHITESPACE)
    ensures Strip(before + core + after) == core
    decreases |before| + |after|
  {
    hide IsSpace;
    var s := before + core + after;
    if before != "" {
      SpaceExactly(before[0]);
      assert before[0] in before && s[0] == before[0] && s[1..] == before[1..] + core + after;
      TrimmingIsUnique(before[1..], core, after);
    } else if core == "" {
      assert s == after;
      if after != "" {
        SpaceExactly(after[0]);
        assert after[0] in after && s[1..] == "" + "" + after[1..];
        TrimmingIsUnique("", "", after[1..]);
      }
    } else {
      SpaceExactly(core[0]);
      assert s[0] == core[0];
      if after != "" {
        SpaceExactly(Last(after));
        assert Last(s) == Last(after) && Last(after) in after && Front(s) == before + core + Front(after);
        TrimmingIsUnique(before, core, Front(after));
      } else {
        SpaceExactly(Last(core));
        assert s == core;
      }
    }
  }

  /** Trimming takes exactly the blanks at both ends. */
  lemma StripExactly(s: string, core: string)
    ensures Strip(s) == core <==> TrimsTo(s, core)
  {
    hide WHITESPACE, Strip;
    StripTrims(s);
    if TrimsTo(s, core) {
      var before, after :| s == before + core + after && Blank(before) && Blank(after);
      TrimmingIsUnique(before, core, after);
    }
  }

  /** The segments are what the pieces trim to, in order, and the blank pieces are left out. */
  lemma {:induction false} SegmentsExactly(a: seq<string>, piece: string, core: string, b: seq<string>)
    requires TrimsTo(piece, core)
    ensures Trimmed(a + [piece] + b) == Trimmed(a) + (if core == "" then [] else [core]) + Trimmed(b)
    decreases |b|
  {
    StripExactly(piece, core);
    EmptyPieces();
    hide Strip, TrimsTo, Trimmed;
    var kept := if core == "" then [] else [core];
    if b == [] {
      assert a + [piece] + b == a + [piece];
      TrimmedSnoc(a, piece);
      assert Trimmed(a) + kept + [] == Trimmed(a) + kept;
      assert Trimmed(a) + [] == Trimmed(a);
    } else {
      var front, last := Front(b), Last(b);
      SegmentsExactly(a, piece, core, front);
      assert b == front + [last] && a + [piece] + b == (a + [piece] + front) + [last];
      TrimmedSnoc(a + [piece] + front, last);
      TrimmedSnoc(front, last);
      assert Trimmed(a) + kept + Trimmed(front) + [Strip(last)] == Trimmed(a) + kept + (Trimmed(front) + [Strip(last)]);
    }
  }

  /** A closed item without blanks around it. */
  predicate CleanItem(item: string) {
    ClosedItem(item) && item != "" && Strip(item) == item
  }

  lemma CleanIsKept(pieces: seq<string>, item: string)
    requires CleanItem(item)
    ensures Trimmed(pieces + [item]) == Trimmed(pieces) + [item]
  {
    hide ClosedItem, Strip;
    assert Front(pieces + [item]) == pieces && Last(pieces + [item]) == item;
  }

  predicate CleanItems(items: seq<string>) {
    forall i :: 0 <= i < |items| ==> CleanItem(items[i])
  }

  lemma CleanFront(items: seq<string>)
    requires items != [] && CleanItems(items)
    ensures CleanItems(Front(items)) && CleanItem(Last(items)) && items == Front(items) + [Last(items)]
  {
    hide CleanItem;
  }

  lemma {:induction false} TrimmedIsIdentity(items: seq<string>)
    requires CleanItems(items)
    ensures Trimmed(items) == items
  {
    hide CleanItem, CleanItems;
    if items != [] {
      CleanFront(items);
      TrimmedIsIdentity(Front(items));
      CleanIsKept(Front(items), Last(items));
    }
  }

  /** The segments of a join of clean items are those items. */
  lemma SegmentsRoundTrip(items: seq<string>)
    requires items != [] && CleanItems(items)
    ensures Trimmed(Pieces(JoinWithCommas(items))) == items
  {
    assert forall i :: 0 <= i < |items| ==> ClosedItem(items[i]) by {
      hide ClosedItem, Strip;
      assert forall i :: 0 <= i < |items| ==> CleanItem(items[i]);
    }
    hide ClosedItem, CleanItems;
    SplitOfJoin(items);
    TrimmedIsIdentity(items);
  }
}
