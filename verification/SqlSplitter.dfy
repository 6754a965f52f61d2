/**
 * Splitting a SQL script into statements. The tool's loop looks ahead from an index and keeps five mode variables;
 * the reference is an automaton that reads one character at a time and never looks ahead.
 *
 * Text is a sequence of Unicode characters; the automaton follows the tool's own grammar, in which block
 * comments do not nest.
 */
module SqlSplitter {
  import opened Common

  // ---------------------------------------------------------------- the automaton

  /** `Dash`, `Slash`, `SingleEnd`, `DoubleEnd`, `Open` and `BlockStar` wait for the character that decides. */
  datatype State =
    | Plain
    | Dash
    | Slash
    | Open(tag: string)
    | Single
    | SingleEnd
    | Double
    | DoubleEnd
    | Line
    | Block
    | BlockStar
    | Dollar(tag: string, matched: nat)

  predicate IsTagChar(c: char) {
    c == '_' || 'a' <= c <= 'z' || 'A' <= c <= 'Z' || '0' <= c <= '9'
  }

  function FromPlain(c: char): State {
    if c == '-' then Dash
    else if c == '/' then Slash
    else if c == '\'' then Single
    else if c == '"' then Double
    else if c == '$' then Open("$")
    else Plain
  }

  /** In these states a semicolon ends the statement. */
  predicate TopLevel(q: State) {
    q.Plain? || q.Dash? || q.Slash? || q.Open? || q.SingleEnd? || q.DoubleEnd?
  }

  predicate Terminated(q: State) {
    TopLevel(q) || q.Line?
  }

  function Step(q: State, c: char): State {
    match q
    case Plain => FromPlain(c)
    case Dash => if c == '-' then Line else FromPlain(c)
    case Slash => if c == '*' then Block else FromPlain(c)
    case Open(tag) =>
      if IsTagChar(c) then Open(tag + [c])
      else if c == '$' then Dollar(tag + "$", 0)
      else FromPlain(c)
    case Single => if c == '\'' then SingleEnd else Single
    case SingleEnd => if c == '\'' then Single else FromPlain(c)
    case Double => if c == '"' then DoubleEnd else Double
    case DoubleEnd => if c == '"' then Double else FromPlain(c)
    case Line => if c == '\n' then Plain else Line
    case Block => if c == '*' then BlockStar else Block
    case BlockStar => if c == '/' then Plain else if c == '*' then BlockStar else Block
    case Dollar(tag, k) =>
      if k < |tag| && c == tag[k] then (if k + 1 == |tag| then Plain else Dollar(tag, k + 1))
      else if c == '$' && |tag| > 1 then Dollar(tag, 1)
      else Dollar(tag, 0)
  }

  /** The raw segments between top-level semicolons, and whether the text ends outside every quote and block. */
  datatype Parse = Parse(segments: seq<string>, ok: bool)

  function Segments(q: State, pending: string, s: string): (r: Parse)
    ensures |r.segments| > 0
    decreases |s|
  {
    if s == "" then Parse([pending], Terminated(q))
    else if s[0] == ';' && TopLevel(q) then Cons(pending + ";", Segments(Plain, "", s[1..]))
    else Segments(Step(q, s[0]), pending + [s[0]], s[1..])
  }

  function Cons(segment: string, r: Parse): Parse {
    Parse([segment] + r.segments, r.ok)
  }

  function Prepend(segments: seq<string>, r: Parse): Parse {
    Parse(segments + r.segments, r.ok)
  }

  // ---------------------------------------------------------------- trimming

  /** Unicode white space, as Go's unicode.IsSpace. */
  predicate IsSpace(c: char) {
    || c == ' ' || ('\t' <= c <= '\r') || c == '\U{85}' || c == '\U{A0}' || c == '\U{1680}'
    || ('\U{2000}' <= c <= '\U{200A}') || c == '\U{2028}' || c == '\U{2029}' || c == '\U{202F}'
    || c == '\U{205F}' || c == '\U{3000}'
  }

  function TrimLeft(s: string): string {
    if s != "" && IsSpace(s[0]) then TrimLeft(s[1..]) else s
  }

  function TrimRight(s: string): string {
    if s != "" && IsSpace(s[|s| - 1]) then TrimRight(s[..|s| - 1]) else s
  }

  function TrimSpace(s: string): string {
    TrimRight(TrimLeft(s))
  }

  function Statements(segments: seq<string>): seq<string> {
    if segments == [] then []
    else (if TrimSpace(segments[0]) == "" then [] else [TrimSpace(segments[0])]) + Statements(segments[1..])
  }

  datatype SplitError = Unterminated | NoStatements

  function Split(sql: string): Result<seq<string>, SplitError> {
    var r := Segments(Plain, "", sql);
    if !r.ok then Err(Unterminated)
    else if Statements(r.segments) == [] then Err(NoStatements)
    else Ok(Statements(r.segments))
  }

  // ---------------------------------------------------------------- what the loop's lookahead means to the automaton

  /** A state that waits for a character acts like the plain one when another character comes. */
  lemma WaitingIsPlain(q: State, pending: string, s: string)
    requires q.Dash? || q.Slash? || q.SingleEnd? || q.DoubleEnd?
    requires s != "" ==> s[0] != match q case Dash => '-' case Slash => '*' case SingleEnd => '\'' case _ => '"'
    ensures Segments(q, pending, s) == Segments(Plain, pending, s)
  {
  }

  lemma StarIsBlock(pending: string, s: string)
    requires s != "" ==> s[0] != '/'
    ensures Segments(BlockStar, pending, s) == Segments(Block, pending, s)
  {
  }

  /** The length of the run of tag characters at the head of `s`. */
  function TagRun(s: string): (n: nat)
    ensures n <= |s|
  {
    if s != "" && IsTagChar(s[0]) then 1 + TagRun(s[1..]) else 0
  }

  /** A dollar sign whose tag is not closed is an ordinary character. */
  lemma {:induction false} OpenIsPlain(tag: string, pending: string, s: string)
    requires TagRun(s) < |s| ==> s[TagRun(s)] != '$'
    ensures Segments(Open(tag), pending, s) == Segments(Plain, pending, s)
    decreases |s|
  {
    if s != "" && IsTagChar(s[0]) {
      OpenIsPlain(tag + [s[0]], pending + [s[0]], s[1..]);
    }
  }

  lemma {:induction false} OpenReadsTag(tag: string, pending: string, s: string)
    requires TagRun(s) < |s| && s[TagRun(s)] == '$'
    ensures Segments(Open(tag), pending, s)
         == Segments(Dollar(tag + s[..TagRun(s) + 1], 0), pending + s[..TagRun(s) + 1], s[TagRun(s) + 1..])
    decreases |s|
  {
    var n := TagRun(s);
    if n == 0 {
      assert s[..1] == "$" == [s[0]];
    } else {
      OpenReadsTag(tag + [s[0]], pending + [s[0]], s[1..]);
      assert TagRun(s[1..]) == n - 1;
      assert s[..n + 1] == [s[0]] + s[1..][..n];
      assert tag + [s[0]] + s[1..][..n] == tag + s[..n + 1];
      assert pending + [s[0]] + s[1..][..n] == pending + s[..n + 1];
      assert s[1..][n..] == s[n + 1..];
    }
  }

  /** A dollar tag: tag characters between two dollar signs. */
  predicate IsTag(tag: string) {
    |tag| >= 2 && tag[0] == '$' == tag[|tag| - 1] && forall i :: 0 < i < |tag| - 1 ==> IsTagChar(tag[i])
  }

  lemma PrefixByHead(a: string, b: string)
    requires a != "" && b != ""
    ensures a <= b <==> a[0] == b[0] && a[1..] <= b[1..]
  {
    assert a == [a[0]] + a[1..] && b == [b[0]] + b[1..];
  }

  /** A partial match of the closing tag that does not complete might as well not have started. */
  lemma {:induction false} PartialMatchFails(tag: string, k: nat, pending: string, s: string)
    requires IsTag(tag) && k < |tag| && !(tag[k..] <= s)
    ensures Segments(Dollar(tag, k), pending, s) == Segments(Dollar(tag, 0), pending, s)
    decreases |s|
  {
    if s != "" && s[0] == tag[k] && k > 0 {
      PrefixByHead(tag[k..], s);
      assert tag[k..][1..] == tag[k + 1..];
      if k + 1 < |tag| {
        PartialMatchFails(tag, k + 1, pending + [s[0]], s[1..]);
      }
    }
  }

  lemma {:induction false} FullMatch(tag: string, k: nat, pending: string, s: string)
    requires IsTag(tag) && k < |tag| && tag[k..] <= s
    ensures Segments(Dollar(tag, k), pending, s) == Segments(Plain, pending + tag[k..], s[|tag| - k..])
    decreases |s|
  {
    assert s[0] == tag[k..][0] == tag[k];
    if k + 1 == |tag| {
      assert tag[k..] == [s[0]];
    } else {
      assert tag[k + 1..] == tag[k..][1..] <= s[1..];
      FullMatch(tag, k + 1, pending + [s[0]], s[1..]);
      assert pending + [s[0]] + tag[k + 1..] == pending + tag[k..];
      assert s[1..][|tag| - (k + 1)..] == s[|tag| - k..];
    }
  }

  lemma WholeMatch(tag: string, pending: string, s: string)
    requires IsTag(tag) && tag <= s
    ensures Segments(Dollar(tag, 0), pending, s) == Segments(Plain, pending + tag, s[|tag|..])
  {
    hide Segments;
    assert tag[0..] == tag;
    FullMatch(tag, 0, pending, s);
  }

  /** One turn of the loop in dollar mode. */
  lemma DollarTurn(tag: string, pending: string, s: string)
    requires IsTag(tag) && s != ""
    ensures tag <= s ==> Segments(Dollar(tag, 0), pending, s) == Segments(Plain, pending + tag, s[|tag|..])
    ensures !(tag <= s) ==> Segments(Dollar(tag, 0), pending, s) == Segments(Dollar(tag, 0), pending + [s[0]], s[1..])
  {
    hide Segments;
    if tag <= s {
      WholeMatch(tag, pending, s);
    } else {
      DollarMismatch(tag, pending, s);
    }
  }

  lemma DollarMismatch(tag: string, pending: string, s: string)
    requires IsTag(tag) && s != "" && !(tag <= s)
    ensures Segments(Dollar(tag, 0), pending, s) == Segments(Dollar(tag, 0), pending + [s[0]], s[1..])
  {
    ReadOne(Dollar(tag, 0), pending, s);
    if s[0] == '$' {
      hide Segments;
      PrefixByHead(tag, s);
      PartialMatchFails(tag, 1, pending + [s[0]], s[1..]);
    }
  }

  lemma ReadOne(q: State, pending: string, s: string)
    requires s != "" && !(s[0] == ';' && TopLevel(q))
    ensures Segments(q, pending, s) == Segments(Step(q, s[0]), pending + [s[0]], s[1..])
  {
  }

  // ---------------------------------------------------------------- the loop

  /** The state that the loop's five mode variables stand for. */
  function Mode(single: bool, double: bool, line: bool, block: bool, tag: string): State {
    if line then Line
    else if block then Block
    else if tag != "" then Dollar(tag, 0)
    else if single then Single
    else if double then Double
    else Plain
  }

  function Count(b: bool): nat {
    if b then 1 else 0
  }

  /** At most one mode is active. */
  predicate OneMode(single: bool, double: bool, line: bool, block: bool, tag: string) {
    Count(single) + Count(double) + Count(line) + Count(block) + Count(tag != "") <= 1
  }

  /** What the loop has still to do, seen from its index. */
  function Rest(sql: string, start: nat, index: nat, q: State): Parse
    requires start <= index <= |sql|
  {
    Segments(q, sql[start..index], sql[index..])
  }

  lemma Slide(sql: string, start: nat, index: nat, n: nat)
    requires start <= index && index + n <= |sql|
    ensures sql[start..index] + sql[index..][..n] == sql[start..index + n]
    ensures sql[index..][n..] == sql[index + n..]
  {
  }

  /** One character read by the automaton. */
  lemma OneStep(sql: string, start: nat, index: nat, q: State)
    requires start <= index < |sql| && !(sql[index] == ';' && TopLevel(q))
    ensures Rest(sql, start, index, q) == Rest(sql, start, index + 1, Step(q, sql[index]))
  {
    Slide(sql, start, index, 1);
    assert sql[index..][..1] == [sql[index]];
    ReadOne(q, sql[start..index], sql[index..]);
  }

  lemma PairAt(sql: string, index: nat, a: char, b: char)
    requires index + 1 < |sql|
    ensures sql[index..index + 2] == [a, b] <==> sql[index] == a && sql[index + 1] == b
  {
    assert sql[index..index + 2] == [sql[index], sql[index + 1]];
  }

  lemma BlockTurn(sql: string, start: nat, index: nat)
    requires start <= index < |sql|
    ensures if index + 1 < |sql| && sql[index..index + 2] == "*/"
            then Rest(sql, start, index, Block) == Rest(sql, start, index + 2, Plain)
            else Rest(sql, start, index, Block) == Rest(sql, start, index + 1, Block)
  {
    OneStep(sql, start, index, Block);
    if index + 1 < |sql| {
      PairAt(sql, index, '*', '/');
    }
    if index + 1 < |sql| && sql[index] == '*' && sql[index + 1] == '/' {
      OneStep(sql, start, index + 1, BlockStar);
    } else if sql[index] == '*' {
      StarIsBlock(sql[start..index + 1], sql[index + 1..]);
    }
  }

  lemma QuoteTurn(sql: string, start: nat, index: nat, q: State)
    requires start <= index < |sql| && (q.Single? || q.Double?)
    ensures var quote := if q.Single? then '\'' else '"';
            if sql[index] != quote then Rest(sql, start, index, q) == Rest(sql, start, index + 1, q)
            else if index + 1 < |sql| && sql[index + 1] == quote then Rest(sql, start, index, q) == Rest(sql, start, index + 2, q)
            else Rest(sql, start, index, q) == Rest(sql, start, index + 1, Plain)
  {
    var quote, end := if q.Single? then '\'' else '"', if q.Single? then SingleEnd else DoubleEnd;
    OneStep(sql, start, index, q);
    if sql[index] == quote {
      if index + 1 < |sql| && sql[index + 1] == quote {
        OneStep(sql, start, index + 1, end);
      } else {
        WaitingIsPlain(end, sql[start..index + 1], sql[index + 1..]);
      }
    }
  }

  lemma DollarTurnAt(sql: string, start: nat, index: nat, tag: string)
    requires start <= index < |sql| && IsTag(tag)
    ensures if tag <= sql[index..]
            then index + |tag| <= |sql| && Rest(sql, start, index, Dollar(tag, 0)) == Rest(sql, start, index + |tag|, Plain)
            else Rest(sql, start, index, Dollar(tag, 0)) == Rest(sql, start, index + 1, Dollar(tag, 0))
  {
    hide Segments;
    DollarTurn(tag, sql[start..index], sql[index..]);
    assert tag <= sql[index..] ==> tag == sql[index..][..|tag|];
    assert sql[index..][..1] == [sql[index]];
    Slide(sql, start, index, if tag <= sql[index..] then |tag| else 1);
  }

  /** A comment opener, or a dash or slash that opens nothing. */
  lemma CommentTurn(sql: string, start: nat, index: nat)
    requires start <= index < |sql| && (sql[index] == '-' || sql[index] == '/')
    ensures if index + 1 < |sql| && sql[index..index + 2] == "--"
            then Rest(sql, start, index, Plain) == Rest(sql, start, index + 2, Line)
            else if index + 1 < |sql| && sql[index..index + 2] == "/*"
            then Rest(sql, start, index, Plain) == Rest(sql, start, index + 2, Block)
            else Rest(sql, start, index, Plain) == Rest(sql, start, index + 1, Plain)
  {
    var q, second := Step(Plain, sql[index]), if sql[index] == '-' then '-' else '*';
    OneStep(sql, start, index, Plain);
    if index + 1 < |sql| {
      PairAt(sql, index, '-', '-');
      PairAt(sql, index, '/', '*');
    }
    if index + 1 < |sql| && sql[index + 1] == second {
      OneStep(sql, start, index + 1, q);
    } else {
      WaitingIsPlain(q, sql[start..index + 1], sql[index + 1..]);
    }
  }

  lemma HeadAndRun(sql: string, index: nat, n: nat)
    requires index + 1 + n <= |sql|
    ensures [sql[index]] + sql[index + 1..][..n] == sql[index..index + 1 + n]
  {
  }

  lemma TagTurn(sql: string, start: nat, index: nat, end: nat)
    requires start <= index < end <= |sql| && sql[index] == '$'
    requires end == index + 1 + TagRun(sql[index + 1..])
    ensures if end < |sql| && sql[end] == '$'
            then IsTag(sql[index..end + 1])
                 && Rest(sql, start, index, Plain) == Rest(sql, start, end + 1, Dollar(sql[index..end + 1], 0))
            else Rest(sql, start, index, Plain) == Rest(sql, start, index + 1, Plain)
  {
    hide Segments;
    var s := sql[index + 1..];
    OneStep(sql, start, index, Plain);
    if end < |sql| && sql[end] == '$' {
      OpenReadsTag("$", sql[start..index + 1], s);
      HeadAndRun(sql, index, TagRun(s) + 1);
      assert [sql[index]] == "$" && index + 1 + (TagRun(s) + 1) == end + 1;
      Slide(sql, start, index + 1, TagRun(s) + 1);
      TagRunIsTagChars(s);
      var tag := sql[index..end + 1];
      forall i | 0 < i < |tag| - 1 ensures IsTagChar(tag[i]) {
        assert tag[i] == s[i - 1];
      }
    } else {
      OpenIsPlain("$", sql[start..index + 1], s);
    }
  }

  lemma {:induction false} TagRunIsTagChars(s: string)
    ensures forall i :: 0 <= i < TagRun(s) ==> IsTagChar(s[i])
    ensures TagRun(s) < |s| ==> !IsTagChar(s[TagRun(s)])
    decreases |s|
  {
    if s != "" && IsTagChar(s[0]) {
      TagRunIsTagChars(s[1..]);
      assert forall i :: 0 < i < TagRun(s) ==> s[i] == s[1..][i - 1];
    }
  }

  lemma SemicolonTurn(sql: string, start: nat, index: nat)
    requires start <= index < |sql| && sql[index] == ';'
    ensures Rest(sql, start, index, Plain) == Cons(sql[start..index + 1], Rest(sql, index + 1, index + 1, Plain))
  {
    Slide(sql, start, index, 1);
    assert sql[index..][..1] == ";";
    assert sql[index + 1..index + 1] == "";
  }

  lemma SemicolonFound(sql: string, start: nat, index: nat, done: seq<string>)
    requires start <= index < |sql| && sql[index] == ';'
    ensures Prepend(done, Rest(sql, start, index, Plain))
         == Prepend(done + [sql[start..index + 1]], Rest(sql, index + 1, index + 1, Plain))
  {
    hide Rest;
    SemicolonTurn(sql, start, index);
    var segment, rest := sql[start..index + 1], Rest(sql, index + 1, index + 1, Plain).segments;
    assert done + ([segment] + rest) == done + [segment] + rest;
  }

  lemma {:induction false} StatementsOfMore(segments: seq<string>, segment: string)
    ensures Statements(segments + [segment])
         == Statements(segments) + (if TrimSpace(segment) == "" then [] else [TrimSpace(segment)])
    decreases |segments|
  {
    if segments == [] {
      assert segments + [segment] == [segment];
    } else {
      StatementsOfMore(segments[1..], segment);
      assert (segments + [segment])[1..] == segments[1..] + [segment];
    }
  }

  method ScanTag(sql: string, index: nat) returns (end: nat)
    requires index < |sql|
    ensures index < end <= |sql| && end == index + 1 + TagRun(sql[index + 1..])
  {
    end := index + 1;
    while end < |sql| && IsTagChar(sql[end])
      invariant index < end <= |sql|
      invariant TagRun(sql[index + 1..]) == end - index - 1 + TagRun(sql[end..])
    {
      assert sql[end..][1..] == sql[end + 1..];
      end := end + 1;
    }
  }

  method SplitSqlStatements(sql: string) returns (r: Result<seq<string>, SplitError>)
    ensures r == Split(sql)
  {
    hide Segments, IsTag, TrimSpace, Rest, Statements, Split, Prepend;
    var statements: seq<string> := [];
    var start, index := 0, 0;
    var inSingleQuote, inDoubleQuote, inLineComment, inBlockComment := false, false, false, false;
    var dollarTag := "";
    ghost var done: seq<string> := [];
    StartOfLoop(sql);
    while index < |sql|
      invariant 0 <= start <= index <= |sql|
      invariant OneMode(inSingleQuote, inDoubleQuote, inLineComment, inBlockComment, dollarTag)
      invariant dollarTag != "" ==> IsTag(dollarTag)
      invariant statements == Statements(done)
      invariant Segments(Plain, "", sql)
             == Prepend(done, Rest(sql, start, index, Mode(inSingleQuote, inDoubleQuote, inLineComment, inBlockComment, dollarTag)))
      decreases |sql| - index
    {
      if inLineComment {
        OneStep(sql, start, index, Line);
        if sql[index] == '\n' {
          inLineComment := false;
        }
        index := index + 1;
        continue;
      }
      if inBlockComment {
        BlockTurn(sql, start, index);
        if index + 1 < |sql| && sql[index..index + 2] == "*/" {
          inBlockComment := false;
          index := index + 2;
          continue;
        }
        index := index + 1;
        continue;
      }
      if dollarTag != "" {
        DollarTurnAt(sql, start, index, dollarTag);
        if dollarTag <= sql[index..] {
          index := index + |dollarTag|;
          dollarTag := "";
          continue;
        }
        index := index + 1;
        continue;
      }
      if inSingleQuote {
        QuoteTurn(sql, start, index, Single);
        if sql[index] == '\'' {
          if index + 1 < |sql| && sql[index + 1] == '\'' {
            index := index + 2;
            continue;
          }
          inSingleQuote := false;
        }
        index := index + 1;
        continue;
      }
      if inDoubleQuote {
        QuoteTurn(sql, start, index, Double);
        if sql[index] == '"' {
          if index + 1 < |sql| && sql[index + 1] == '"' {
            index := index + 2;
            continue;
          }
          inDoubleQuote := false;
        }
        index := index + 1;
        continue;
      }
      if sql[index] == '-' || sql[index] == '/' {
        CommentTurn(sql, start, index);
      }
      if index + 1 < |sql| {
        assert sql[index..index + 2][0] == sql[index];
        if sql[index..index + 2] == "--" {
          inLineComment := true;
          index := index + 2;
          continue;
        } else if sql[index..index + 2] == "/*" {
          inBlockComment := true;
          index := index + 2;
          continue;
        }
      }
      if sql[index] == '\'' {
        OneStep(sql, start, index, Plain);
        inSingleQuote := true;
        index := index + 1;
      } else if sql[index] == '"' {
        OneStep(sql, start, index, Plain);
        inDoubleQuote := true;
        index := index + 1;
      } else if sql[index] == '$' {
        var end := ScanTag(sql, index);
        TagTurn(sql, start, index, end);
        if end < |sql| && sql[end] == '$' {
          dollarTag := sql[index..end + 1];
          index := end + 1;
        } else {
          index := index + 1;
        }
      } else if sql[index] == ';' {
        SemicolonFound(sql, start, index, done);
        StatementsOfMore(done, sql[start..index + 1]);
        done := done + [sql[start..index + 1]];
        var statement := TrimSpace(sql[start..index + 1]);
        if statement != "" {
          statements := statements + [statement];
        }
        index := index + 1;
        start := index;
      } else {
        if sql[index] != '-' && sql[index] != '/' {
          OneStep(sql, start, index, Plain);
        }
        index := index + 1;
      }
    }
    ghost var q := Mode(inSingleQuote, inDoubleQuote, inLineComment, inBlockComment, dollarTag);
    EndOfLoop(sql, done, start, q);
    if inSingleQuote || inDoubleQuote || inBlockComment || dollarTag != "" {
      return Err(Unterminated);
    }
    StatementsOfMore(done, sql[start..]);
    var statement := TrimSpace(sql[start..]);
    if statement != "" {
      statements := statements + [statement];
    }
    assert statements == Statements(done + [sql[start..]]);
    if |statements| == 0 {
      return Err(NoStatements);
    }
    r := Ok(statements);
  }

  lemma StartOfLoop(sql: string)
    ensures Segments(Plain, "", sql) == Prepend([], Rest(sql, 0, 0, Plain))
    ensures Statements([]) == []
  {
    assert sql[0..0] == "" && sql[0..] == sql;
  }

  /** What the segments found so far and the last mode say about the whole text. */
  lemma EndOfLoop(sql: string, done: seq<string>, start: nat, q: State)
    requires start <= |sql| && Segments(Plain, "", sql) == Prepend(done, Rest(sql, start, |sql|, q))
    ensures !Terminated(q) ==> Split(sql) == Err(Unterminated)
    ensures Terminated(q) ==>
      Split(sql) == var found := Statements(done + [sql[start..]]); if found == [] then Err(NoStatements) else Ok(found)
  {
    assert sql[start..|sql|] == sql[start..];
    assert Rest(sql, start, |sql|, q) == Parse([sql[start..]], Terminated(q));
  }
}
