/**
 * What splitting a script guarantees: the pieces make up the input, they are cut exactly at top-level semicolons,
 * every statement splits to itself, and joining the statements again splits to the same list.
 */
module SqlSplitterLaws {
  import opened Common
  import opened SqlSplitter

  // ---------------------------------------------------------------- the pieces make up the input

  function Concat(segments: seq<string>): string {
    if segments == [] then "" else segments[0] + Concat(segments[1..])
  }

  lemma {:induction false} SegmentsPartition(q: State, pending: string, s: string)
    ensures Concat(Segments(q, pending, s).segments) == pending + s
    decreases |s|
  {
    if s == "" {
      assert Concat([pending]) == pending + Concat([]);
    } else if s[0] == ';' && TopLevel(q) {
      SegmentsPartition(Plain, "", s[1..]);
    } else {
      SegmentsPartition(Step(q, s[0]), pending + [s[0]], s[1..]);
    }
  }

  // ---------------------------------------------------------------- where the input is cut

  /** The automaton's state before character `j`. */
  function StateAt(q: State, s: string, j: nat): State
    requires j <= |s|
    decreases j
  {
    if j == 0 then q else StateAt(Step(q, s[0]), s[1..], j - 1)
  }

  predicate CutAt(q: State, s: string, j: nat)
    requires j < |s|
  {
    s[j] == ';' && TopLevel(StateAt(q, s, j))
  }

  /** The length of the first `i` segments together. */
  function EndOf(segments: seq<string>, i: nat): nat
    requires i <= |segments|
    decreases i
  {
    if i == 0 then 0 else |segments[0]| + EndOf(segments[1..], i - 1)
  }

  ghost predicate EndsAt(segments: seq<string>, n: nat) {
    exists i :: 0 < i < |segments| && EndOf(segments, i) == n
  }

  lemma EndsOfCons(segment: string, rest: seq<string>, n: nat)
    requires |rest| > 0
    ensures EndsAt([segment] + rest, n) <==> n == |segment| || (n >= |segment| && EndsAt(rest, n - |segment|))
  {
    var all := [segment] + rest;
    assert all[1..] == rest;
    assert EndOf(all, 1) == |segment| + EndOf(rest, 0);
    if EndsAt(all, n) {
      var i :| 0 < i < |all| && EndOf(all, i) == n;
      assert EndOf(all, i) == |segment| + EndOf(rest, i - 1);
    }
    if n >= |segment| && EndsAt(rest, n - |segment|) {
      var i :| 0 < i < |rest| && EndOf(rest, i) == n - |segment|;
      assert EndOf(all, i + 1) == |segment| + EndOf(rest, i);
    }
  }

  lemma {:induction false} EndsLieBeyondPending(q: State, pending: string, s: string, n: nat)
    requires EndsAt(Segments(q, pending, s).segments, n)
    ensures n > |pending|
    decreases |s|
  {
    var segments := Segments(q, pending, s).segments;
    if s != "" && s[0] == ';' && TopLevel(q) {
      EndsOfCons(pending + ";", Segments(Plain, "", s[1..]).segments, n);
    } else if s != "" {
      EndsLieBeyondPending(Step(q, s[0]), pending + [s[0]], s[1..], n);
    }
  }

  lemma {:induction false} EndsAreCuts(q: State, pending: string, s: string, j: nat)
    requires j < |s|
    ensures CutAt(q, s, j) <==> EndsAt(Segments(q, pending, s).segments, |pending| + j + 1)
    decreases |s|
  {
    assert TopLevel(q) ==> Step(q, ';') == Plain;
    hide EndsAt, Step, TopLevel;
    var rest := Segments(Plain, "", s[1..]).segments;
    if s[0] == ';' && TopLevel(q) {
      EndsOfCons(pending + ";", rest, |pending| + j + 1);
      if j > 0 {
        EndsAreCuts(Plain, "", s[1..], j - 1);
      }
    } else {
      var pending' := pending + [s[0]];
      if j > 0 {
        EndsAreCuts(Step(q, s[0]), pending', s[1..], j - 1);
      } else if EndsAt(Segments(Step(q, s[0]), pending', s[1..]).segments, |pending| + 1) {
        EndsLieBeyondPending(Step(q, s[0]), pending', s[1..], |pending| + 1);
      }
    }
  }

  /** The pieces make up the input, and a piece ends after character `j` exactly when that is a top-level semicolon. */
  lemma InputIsCutAtTopLevelSemicolons(sql: string, j: nat)
    requires j < |sql|
    ensures Concat(Segments(Plain, "", sql).segments) == sql
    ensures EndsAt(Segments(Plain, "", sql).segments, j + 1) <==> CutAt(Plain, sql, j)
  {
    SegmentsPartition(Plain, "", sql);
    EndsAreCuts(Plain, "", sql, j);
  }

  // ---------------------------------------------------------------- when splitting fails

  lemma {:induction false} OkMeansTerminated(q: State, pending: string, s: string)
    ensures Segments(q, pending, s).ok <==> Terminated(StateAt(q, s, |s|))
    decreases |s|
  {
    if s != "" {
      if s[0] == ';' && TopLevel(q) {
        assert Step(q, ';') == Plain;
        OkMeansTerminated(Plain, "", s[1..]);
      } else {
        OkMeansTerminated(Step(q, s[0]), pending + [s[0]], s[1..]);
      }
    }
  }

  predicate AllSpace(s: string) {
    forall i :: 0 <= i < |s| ==> IsSpace(s[i])
  }

  lemma {:induction false} TrimLeftOf(s: string)
    ensures TrimLeft(s) == "" <==> AllSpace(s)
    ensures TrimLeft(s) != "" ==> !IsSpace(TrimLeft(s)[0]) && TrimLeft(s)[|TrimLeft(s)| - 1] == s[|s| - 1]
    decreases |s|
  {
    if s != "" && IsSpace(s[0]) {
      TrimLeftOf(s[1..]);
      assert forall i :: 0 < i < |s| ==> s[i] == s[1..][i - 1];
      if AllSpace(s) {
        assert AllSpace(s[1..]);
      }
    }
  }

  lemma {:induction false} TrimRightOf(s: string)
    requires s != "" ==> !IsSpace(s[0])
    ensures TrimRight(s) == "" <==> s == ""
    ensures TrimRight(s) <= s && (TrimRight(s) != "" ==> !IsSpace(TrimRight(s)[|TrimRight(s)| - 1]))
    decreases |s|
  {
    if s != "" && IsSpace(s[|s| - 1]) {
      TrimRightOf(s[..|s| - 1]);
    }
  }

  lemma TrimSpaceOf(s: string)
    ensures TrimSpace(s) == "" <==> AllSpace(s)
    ensures TrimSpace(TrimSpace(s)) == TrimSpace(s)
    ensures s != "" && !IsSpace(s[|s| - 1]) ==> TrimSpace(s) == TrimLeft(s)
  {
    hide IsSpace, AllSpace;
    TrimLeftOf(s);
    TrimRightOf(TrimLeft(s));
    var r := TrimSpace(s);
    assert r != "" ==> !IsSpace(r[0]) && !IsSpace(r[|r| - 1]);
    assert TrimLeft(r) == r && TrimRight(r) == r;
  }

  lemma {:induction false} SpaceStaysPlain(pending: string, s: string)
    requires AllSpace(s)
    ensures Segments(Plain, pending, s) == Parse([pending + s], true)
    decreases |s|
  {
    if s == "" {
      assert pending + s == pending;
    } else {
      assert IsSpace(s[0]) && Step(Plain, s[0]) == Plain;
      SpaceStaysPlain(pending + [s[0]], s[1..]);
      assert pending + [s[0]] + s[1..] == pending + s;
    }
  }

  lemma {:induction false} StatementsEmpty(segments: seq<string>)
    ensures Statements(segments) == [] <==> forall i :: 0 <= i < |segments| ==> AllSpace(segments[i])
    decreases |segments|
  {
    if segments != [] {
      TrimSpaceOf(segments[0]);
      StatementsEmpty(segments[1..]);
      assert forall i :: 0 < i < |segments| ==> segments[i] == segments[1..][i - 1];
    }
  }

  lemma {:induction false} ConcatOfSpace(segments: seq<string>)
    requires forall i :: 0 <= i < |segments| ==> AllSpace(segments[i])
    ensures AllSpace(Concat(segments))
    decreases |segments|
  {
    if segments != [] {
      ConcatOfSpace(segments[1..]);
    }
  }

  lemma BlankMeansNoStatements(sql: string)
    ensures AllSpace(sql) <==> Statements(Segments(Plain, "", sql).segments) == []
    ensures AllSpace(sql) ==> Segments(Plain, "", sql).ok
  {
    hide Segments, TrimSpace, Statements, IsSpace;
    var segments := Segments(Plain, "", sql).segments;
    assert "" + sql == sql;
    SegmentsPartition(Plain, "", sql);
    StatementsEmpty(segments);
    if Statements(segments) == [] {
      ConcatOfSpace(segments);
    }
    if AllSpace(sql) {
      SpaceStaysPlain("", sql);
      assert segments == [sql];
    }
  }

  /** Splitting fails exactly on text that ends inside a quote, block comment or dollar body, and on blank text. */
  lemma SplitFailsExactly(sql: string)
    ensures Split(sql) == Err(Unterminated) <==> !Terminated(StateAt(Plain, sql, |sql|))
    ensures Split(sql) == Err(NoStatements) <==> AllSpace(sql)
  {
    hide Segments, TrimSpace, Statements, AllSpace, StateAt, Terminated;
    OkMeansTerminated(Plain, "", sql);
    BlankMeansNoStatements(sql);
  }

  // ---------------------------------------------------------------- pieces on their own

  /** `s` is one piece that its last semicolon closes. */
  predicate Closed(s: string) {
    Segments(Plain, "", s) == Parse([s, ""], true)
  }

  /** `s` is one piece without a closing semicolon. */
  predicate OpenEnded(s: string) {
    Segments(Plain, "", s) == Parse([s], true)
  }

  /** The first piece of a parse is cut off wherever it stands, whatever follows it. */
  lemma {:induction false} FirstCut(q: State, pending: string, s: string, t: string) returns (n: nat)
    requires |Segments(q, pending, s).segments| > 1
    ensures 0 < n <= |s| && s[n - 1] == ';'
    ensures Segments(q, pending, s) == Cons(pending + s[..n], Segments(Plain, "", s[n..]))
    ensures Segments(q, pending, s[..n] + t) == Cons(pending + s[..n], Segments(Plain, "", t))
    decreases |s|
  {
    if s[0] == ';' && TopLevel(q) {
      n := 1;
      assert s[..1] == ";" && (s[..1] + t)[1..] == t;
    } else {
      var pending' := pending + [s[0]];
      var m := FirstCut(Step(q, s[0]), pending', s[1..], t);
      n := m + 1;
      assert s[..n] == [s[0]] + s[1..][..m] && s[1..][m..] == s[n..];
      assert pending' + s[1..][..m] == pending + s[..n];
      assert (s[..n] + t)[1..] == s[1..][..m] + t;
    }
  }

  lemma {:induction false} PiecesStandAlone(s: string)
    requires Segments(Plain, "", s).ok
    ensures var pieces := Segments(Plain, "", s).segments;
            (forall i :: 0 <= i < |pieces| - 1 ==> Closed(pieces[i])) && OpenEnded(pieces[|pieces| - 1])
    decreases |s|
  {
    var pieces := Segments(Plain, "", s).segments;
    if |pieces| == 1 {
      SegmentsPartition(Plain, "", s);
      assert pieces[1..] == [] && pieces[0] + "" == pieces[0] == s;
      assert pieces == [s];
    } else {
      var n := FirstCut(Plain, "", s, "");
      assert s[..n] + "" == s[..n] && "" + s[..n] == s[..n];
      PiecesStandAlone(s[n..]);
      assert forall i :: 0 < i < |pieces| ==> pieces[i] == Segments(Plain, "", s[n..]).segments[i - 1];
    }
  }

  /** What is pending only goes in front of the first piece. */
  lemma {:induction false} PendingGoesFirst(q: State, p: string, pending: string, s: string)
    ensures var r := Segments(q, pending, s); Segments(q, p + pending, s) == Parse([p + r.segments[0]] + r.segments[1..], r.ok)
    decreases |s|
  {
    if s == "" {
    } else if s[0] == ';' && TopLevel(q) {
      assert p + pending + ";" == p + (pending + ";");
    } else {
      assert p + pending + [s[0]] == p + (pending + [s[0]]);
      PendingGoesFirst(Step(q, s[0]), p, pending + [s[0]], s[1..]);
    }
  }

  lemma SpaceGoesFirst(c: char, s: string)
    requires IsSpace(c)
    ensures var r := Segments(Plain, "", s); Segments(Plain, "", [c] + s) == Parse([[c] + r.segments[0]] + r.segments[1..], r.ok)
  {
    assert ([c] + s)[1..] == s && Step(Plain, c) == Plain;
    PendingGoesFirst(Plain, [c], "", s);
    assert [c] + "" == [c] == "" + [c];
  }

  lemma {:induction false} TrimLeftKeepsPiece(s: string)
    requires TrimLeft(s) != ""
    ensures Closed(s) ==> Closed(TrimLeft(s))
    ensures OpenEnded(s) ==> OpenEnded(TrimLeft(s))
    decreases |s|
  {
    if s != "" && IsSpace(s[0]) {
      assert s == [s[0]] + s[1..];
      SpaceGoesFirst(s[0], s[1..]);
      var r := Segments(Plain, "", s[1..]);
      assert Segments(Plain, "", s).segments[1..] == r.segments[1..];
      assert Segments(Plain, "", s).segments[0] == [s[0]] + r.segments[0];
      assert ([s[0]] + r.segments[0])[1..] == r.segments[0];
      assert Closed(s) || OpenEnded(s) ==> [s[0]] + r.segments[0] == s && r.segments[0] == s[1..];
      assert r.segments == [r.segments[0]] + r.segments[1..];
      TrimLeftKeepsPiece(s[1..]);
    }
  }

  /** Tags contain no white space. */
  predicate TagsFit(q: State) {
    match q
    case Open(tag) => |tag| >= 1 && forall i :: 0 <= i < |tag| ==> !IsSpace(tag[i])
    case Dollar(tag, _) => |tag| >= 2 && forall i :: 0 <= i < |tag| ==> !IsSpace(tag[i])
    case _ => true
  }

  lemma SpaceKeepsOpen(q: State, c: char)
    requires TagsFit(q) && IsSpace(c)
    ensures Terminated(Step(q, c)) ==> Terminated(q)
  {
  }

  lemma SpaceIsNoSemicolon(c: char)
    requires IsSpace(c)
    ensures c != ';'
  {
  }

  lemma TagsStayFit(q: State, c: char)
    requires TagsFit(q)
    ensures TagsFit(Step(q, c))
  {
  }

  lemma {:induction false} TrailingSpace(q: State, pending: string, s: string, c: char)
    requires TagsFit(q) && IsSpace(c)
    requires Segments(q, pending, s + [c]) == Parse([pending + s + [c]], true)
    ensures Segments(q, pending, s) == Parse([pending + s], true)
    decreases |s|
  {
    hide Step, IsSpace, TagsFit, Terminated;
    if s == "" {
      SpaceIsNoSemicolon(c);
      assert s + [c] == [c] && [c][1..] == "";
      assert pending + s == pending;
      SpaceKeepsOpen(q, c);
    } else {
      TagsStayFit(q, s[0]);
      assert (s + [c])[1..] == s[1..] + [c];
      assert pending + s + [c] == pending + [s[0]] + s[1..] + [c];
      assert pending + s == pending + [s[0]] + s[1..];
      assert s[0] == ';' && TopLevel(q) ==> |Segments(q, pending, s + [c]).segments| > 1;
      if !(s[0] == ';' && TopLevel(q)) {
        TrailingSpace(Step(q, s[0]), pending + [s[0]], s[1..], c);
      }
    }
  }

  lemma {:induction false} TrimRightKeepsPiece(s: string)
    requires OpenEnded(s)
    ensures OpenEnded(TrimRight(s))
    decreases |s|
  {
    if s != "" && IsSpace(s[|s| - 1]) {
      var front, c := s[..|s| - 1], s[|s| - 1];
      assert front + [c] == s == "" + front + [c];
      TrailingSpace(Plain, "", front, c);
      assert "" + front == front;
      TrimRightKeepsPiece(front);
    }
  }

  lemma ClosedEndsWithSemicolon(s: string)
    requires Closed(s)
    ensures s != "" && s[|s| - 1] == ';'
  {
    var n := FirstCut(Plain, "", s, "");
    assert Segments(Plain, "", s).segments[0] == "" + s[..n] == s[..n];
  }

  lemma TrimKeepsPiece(s: string)
    requires TrimSpace(s) != "" && (Closed(s) || OpenEnded(s))
    ensures Closed(s) ==> Closed(TrimSpace(s))
    ensures OpenEnded(s) ==> OpenEnded(TrimSpace(s))
  {
    hide Closed, OpenEnded;
    TrimSpaceOf(s);
    TrimLeftOf(s);
    TrimLeftKeepsPiece(s);
    if Closed(s) {
      ClosedEndsWithSemicolon(s);
    }
    if OpenEnded(s) {
      TrimRightKeepsPiece(TrimLeft(s));
    }
  }

  // ---------------------------------------------------------------- the statements

  /** What the statements of a script look like: trimmed, and all but the last closed by a semicolon. */
  ghost predicate WellSplit(statements: seq<string>) {
    && (forall i :: 0 <= i < |statements| ==> statements[i] != "" && TrimSpace(statements[i]) == statements[i])
    && (forall i :: 0 <= i < |statements| ==> Closed(statements[i]) || (i == |statements| - 1 && OpenEnded(statements[i])))
  }

  lemma {:induction false} StatementsAreWellSplit(pieces: seq<string>)
    requires forall i :: 0 <= i < |pieces| ==> Closed(pieces[i]) || (i == |pieces| - 1 && OpenEnded(pieces[i]))
    ensures WellSplit(Statements(pieces))
    decreases |pieces|
  {
    hide Closed, OpenEnded, TrimSpace;
    if pieces != [] {
      var rest := Statements(pieces[1..]);
      assert forall i :: 0 < i < |pieces| ==> pieces[i] == pieces[1..][i - 1];
      StatementsAreWellSplit(pieces[1..]);
      TrimSpaceOf(pieces[0]);
      var first := TrimSpace(pieces[0]);
      if first != "" {
        assert Closed(pieces[0]) || OpenEnded(pieces[0]);
        TrimKeepsPiece(pieces[0]);
        assert Closed(first) || (rest == [] && OpenEnded(first)) by {
          assert |pieces| > 1 || Statements(pieces[1..]) == [];
        }
        assert forall i :: 0 < i < |[first] + rest| ==> ([first] + rest)[i] == rest[i - 1];
      } else {
        assert [] + rest == rest;
      }
    }
  }

  lemma SplitIsWellSplit(sql: string)
    requires Split(sql).Ok?
    ensures WellSplit(Split(sql).value)
  {
    hide Closed, OpenEnded, WellSplit, Segments;
    PiecesStandAlone(sql);
    StatementsAreWellSplit(Segments(Plain, "", sql).segments);
  }

  lemma StatementsOfOne(s: string)
    requires s != "" && TrimSpace(s) == s
    ensures Statements([s]) == [s] && Statements([s, ""]) == [s]
  {
    TrimSpaceOf("");
    assert [s, ""][1..] == [""] && [""][1..] == [] && [s][1..] == [];
    assert Statements([]) == [];
    assert Statements([""]) == [];
  }

  lemma TrimmedEnds(s: string)
    requires s != "" && TrimSpace(s) == s
    ensures !IsSpace(s[0]) && !IsSpace(s[|s| - 1])
  {
    hide IsSpace;
    TrimLeftOf(s);
    TrimRightOf(TrimLeft(s));
  }

  /** Each statement of a script, split on its own, is that one statement; it is not blank at either end. */
  lemma StatementsSplitToThemselves(sql: string, i: nat)
    requires Split(sql).Ok? && i < |Split(sql).value|
    ensures Split(Split(sql).value[i]) == Ok([Split(sql).value[i]])
    ensures var s := Split(sql).value[i]; s != "" && !IsSpace(s[0]) && !IsSpace(s[|s| - 1])
  {
    hide Segments, TrimSpace, IsSpace;
    SplitIsWellSplit(sql);
    var s := Split(sql).value[i];
    TrimmedEnds(s);
    StatementsOfOne(s);
    assert Closed(s) || OpenEnded(s);
  }

  function Join(statements: seq<string>): string
    requires statements != []
  {
    if |statements| == 1 then statements[0] else statements[0] + "\n" + Join(statements[1..])
  }

  lemma {:induction false} JoinSplits(statements: seq<string>)
    requires statements != [] && WellSplit(statements)
    ensures var r := Segments(Plain, "", Join(statements)); r.ok && Statements(r.segments) == statements
    decreases |statements|
  {
    hide Segments, TrimSpace;
    var first, rest := statements[0], statements[1..];
    if |statements| == 1 {
      StatementsOfOne(first);
      assert Closed(first) || OpenEnded(first);
      assert statements == [first];
    } else {
      assert forall i :: 0 <= i < |rest| ==> rest[i] == statements[i + 1];
      JoinSplits(rest);
      var tail := Join(rest);
      var r := Segments(Plain, "", tail);
      assert "\n" + tail == ['\n'] + tail;
      SpaceGoesFirst('\n', tail);
      ClosedThen(first, "\n" + tail);
      assert first + ("\n" + tail) == Join(statements);
      var whole := Segments(Plain, "", Join(statements)).segments;
      TrimOfNewline(r.segments[0]);
      assert whole == [first] + ([['\n'] + r.segments[0]] + r.segments[1..]);
      assert whole[1..] == [['\n'] + r.segments[0]] + r.segments[1..];
      assert whole[1..][1..] == r.segments[1..];
      assert Statements(whole[1..]) == Statements(r.segments);
      assert statements == [first] + rest;
    }
  }

  lemma TrimOfNewline(s: string)
    ensures TrimSpace(['\n'] + s) == TrimSpace(s)
  {
    assert (['\n'] + s)[1..] == s;
  }

  lemma ClosedThen(s: string, t: string)
    requires Closed(s)
    ensures Segments(Plain, "", s + t) == Cons(s, Segments(Plain, "", t))
  {
    var n := FirstCut(Plain, "", s, t);
    assert Segments(Plain, "", s).segments[0] == "" + s[..n] == s[..n];
  }

  /** Joining the statements of a script with newlines gives a script with the same statements. */
  lemma JoinedStatementsSplitBack(sql: string)
    requires Split(sql).Ok?
    ensures Split(sql).value != [] && Split(Join(Split(sql).value)) == Split(sql)
  {
    hide Segments, WellSplit;
    SplitIsWellSplit(sql);
    JoinSplits(Split(sql).value);
  }

  /** The white space of Unicode, by code point. */
  lemma WhiteSpaceByCodePoint(c: char)
    ensures IsSpace(c) <==>
      || 0x09 <= c as int <= 0x0D
      || c as int in {0x20, 0x85, 0xA0, 0x1680, 0x2028, 0x2029, 0x202F, 0x205F, 0x3000}
      || 0x2000 <= c as int <= 0x200A
  {
  }

  // ---------------------------------------------------------------- no text is lost

  /** The text without its white space. */
  function Squeeze(s: string): string {
    if s == "" then "" else (if IsSpace(s[0]) then "" else [s[0]]) + Squeeze(s[1..])
  }

  lemma {:induction false} SqueezeConcat(a: string, b: string)
    ensures Squeeze(a + b) == Squeeze(a) + Squeeze(b)
    decreases |a|
  {
    hide IsSpace;
    if a == "" {
      assert a + b == b;
    } else {
      assert (a + b)[1..] == a[1..] + b;
      SqueezeConcat(a[1..], b);
    }
  }

  lemma {:induction false} TrimLeftSqueezes(s: string)
    ensures Squeeze(TrimLeft(s)) == Squeeze(s)
    decreases |s|
  {
    if s != "" && IsSpace(s[0]) {
      TrimLeftSqueezes(s[1..]);
    }
  }

  lemma {:induction false} TrimRightSqueezes(s: string)
    ensures Squeeze(TrimRight(s)) == Squeeze(s)
    decreases |s|
  {
    if s != "" && IsSpace(s[|s| - 1]) {
      var front, last := s[..|s| - 1], [s[|s| - 1]];
      assert s == front + last && last[1..] == "";
      SqueezeConcat(front, last);
      TrimRightSqueezes(front);
    }
  }

  lemma {:induction false} StatementsSqueeze(segments: seq<string>)
    ensures Squeeze(Concat(Statements(segments))) == Squeeze(Concat(segments))
    decreases |segments|
  {
    hide Squeeze;
    if segments != [] {
      var first, rest := TrimSpace(segments[0]), Statements(segments[1..]);
      TrimLeftSqueezes(segments[0]);
      TrimRightSqueezes(TrimLeft(segments[0]));
      StatementsSqueeze(segments[1..]);
      SqueezeConcat(segments[0], Concat(segments[1..]));
      SqueezeConcat(first, Concat(rest));
      assert Concat([first] + rest) == first + Concat(rest) by { assert ([first] + rest)[1..] == rest; }
      assert [] + rest == rest && "" + Concat(rest) == Concat(rest);
    }
  }

  /** Splitting loses, adds and reorders nothing but white space. */
  lemma NothingIsLost(sql: string)
    requires Split(sql).Ok?
    ensures Squeeze(Concat(Split(sql).value)) == Squeeze(sql)
  {
    hide Segments, Squeeze, Statements;
    SegmentsPartition(Plain, "", sql);
    assert "" + sql == sql;
    StatementsSqueeze(Segments(Plain, "", sql).segments);
  }
}
