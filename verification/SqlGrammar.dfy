/**
 * The lexical grammar of a script, stated on its text and without the automaton: a script is a sequence of pieces,
 * namely comments, quoted strings and identifiers, dollar-quoted bodies, semicolons and other characters. Splitting
 * cuts exactly after the semicolons that are pieces of their own, and fails exactly on text that has no such sequence.
 */
module SqlGrammar {
  import opened Common
  import opened SqlSplitter
  import opened SqlSplitterLaws

  // ---------------------------------------------------------------- the grammar

  datatype Piece =
    | LineComment(line: string)
    | BlockComment(body: string)
    | Quoted(quote: char, body: string)
    | DollarQuoted(tag: string, body: string)
    | Semicolon
    | Other(c: char)

  function Text(p: Piece): string {
    match p
    case LineComment(line) => "--" + line
    case BlockComment(body) => "/*" + body + "*/"
    case Quoted(quote, body) => [quote] + body + [quote]
    case DollarQuoted(tag, body) => tag + body + tag
    case Semicolon => ";"
    case Other(c) => [c]
  }

  /** `end` occurs in `body + end` at its end and nowhere before. */
  ghost predicate EndsFirst(body: string, end: string) {
    forall i :: 0 <= i < |body| ==> !(end <= (body + end)[i..])
  }

  /** Every quote in `body` is doubled. */
  predicate Doubled(quote: char, body: string) {
    if body == "" then true
    else if body[0] != quote then Doubled(quote, body[1..])
    else |body| > 1 && body[1] == quote && Doubled(quote, body[2..])
  }

  /** Letters, digits and underscores between two dollar signs. */
  predicate DollarTag(tag: string) {
    && |tag| >= 2 && tag[0] == '$' == tag[|tag| - 1]
    && forall i :: 0 < i < |tag| - 1 ==>
         tag[i] == '_' || 'a' <= tag[i] <= 'z' || 'A' <= tag[i] <= 'Z' || '0' <= tag[i] <= '9'
  }

  /** The text begins with a comment, a quote, or a dollar tag. */
  ghost predicate Opens(s: string) {
    || "--" <= s || "/*" <= s || "'" <= s || "\"" <= s
    || exists n :: 0 <= n <= |s| && DollarTag(s[..n])
  }

  /** What the grammar allows `p` to be in front of `rest`; a line comment leaves its newline to the next piece. */
  ghost predicate Fits(p: Piece, rest: string) {
    match p
    case LineComment(line) => '\n' !in line && (rest == "" || rest[0] == '\n')
    case BlockComment(body) => EndsFirst(body, "*/")
    case Quoted(quote, body) => (quote == '\'' || quote == '"') && Doubled(quote, body) && (rest == "" || rest[0] != quote)
    case DollarQuoted(tag, body) => DollarTag(tag) && EndsFirst(body, tag)
    case Semicolon => true
    case Other(c) => c != ';' && !Opens([c] + rest)
  }

  function Texts(ps: seq<Piece>): string {
    if ps == [] then "" else Text(ps[0]) + Texts(ps[1..])
  }

  ghost predicate Lexes(ps: seq<Piece>) {
    ps == [] || (Fits(ps[0], Texts(ps[1..])) && Lexes(ps[1..]))
  }

  /** The text between semicolons, each with the semicolon that ends it. */
  function Cut(pending: string, ps: seq<Piece>): (r: seq<string>)
    ensures |r| > 0
    decreases |ps|
  {
    if ps == [] then [pending]
    else if ps[0].Semicolon? then [pending + ";"] + Cut("", ps[1..])
    else Cut(pending + Text(ps[0]), ps[1..])
  }

  // ---------------------------------------------------------------- the automaton reads a piece

  /** From plain text the automaton gets over `t` and is in plain text again. */
  predicate Reads(t: string, pending: string, rest: string) {
    Segments(Plain, pending, t + rest) == Segments(Plain, pending + t, rest)
  }

  lemma {:induction false} ReadsLine(line: string, pending: string, rest: string)
    requires '\n' !in line && (rest == "" || rest[0] == '\n')
    ensures Segments(Line, pending, line + rest) == Segments(Plain, pending + line, rest)
    decreases |line|
  {
    if line == "" {
      assert line + rest == rest && pending + line == pending;
    } else {
      assert (line + rest)[1..] == line[1..] + rest;
      ReadsLine(line[1..], pending + [line[0]], rest);
      assert pending + [line[0]] + line[1..] == pending + line;
    }
  }

  lemma ReadsLineComment(line: string, pending: string, rest: string)
    requires '\n' !in line && (rest == "" || rest[0] == '\n')
    ensures Reads("--" + line, pending, rest)
  {
    var s := "--" + line + rest;
    assert s[1..] == "-" + line + rest && s[1..][1..] == line + rest;
    ReadsLine(line, pending + "-" + "-", rest);
    assert pending + "-" + "-" + line == pending + ("--" + line);
  }

  lemma EndsFirstLater(body: string, end: string)
    requires body != "" && EndsFirst(body, end)
    ensures EndsFirst(body[1..], end) && !(end <= body + end)
  {
    assert (body + end)[0..] == body + end;
    forall i | 0 <= i < |body[1..]| ensures !(end <= (body[1..] + end)[i..]) {
      assert (body[1..] + end)[i..] == (body + end)[i + 1..];
    }
  }

  /** A prefix of a longer text that fits into its front is a prefix of the front. */
  lemma PrefixOfFront(end: string, front: string, rest: string)
    requires |end| <= |front|
    ensures end <= front + rest <==> end <= front
  {
  }

  lemma {:induction false} ReadsBlock(body: string, pending: string, rest: string)
    requires EndsFirst(body, "*/")
    ensures Segments(Block, pending, body + "*/" + rest) == Segments(Plain, pending + body + "*/", rest)
    decreases |body|
  {
    var s := body + "*/" + rest;
    if body == "" {
      assert s == "*/" + rest && s[1..] == "/" + rest && s[1..][1..] == rest;
      assert pending + "*" + "/" == pending + body + "*/";
    } else {
      var tail := body[1..] + "*/" + rest;
      assert s[0] == body[0] && s[1..] == tail;
      EndsFirstLater(body, "*/");
      ReadsBlock(body[1..], pending + [body[0]], rest);
      assert pending + [body[0]] + body[1..] + "*/" == pending + body + "*/";
      if body[0] == '*' {
        assert body + "*/" == ['*'] + (body[1..] + "*/");
        assert tail[0] == (body[1..] + "*/")[0] != '/';
        StarIsBlock(pending + [body[0]], tail);
      }
    }
  }

  lemma ReadsBlockComment(body: string, pending: string, rest: string)
    requires EndsFirst(body, "*/")
    ensures Reads("/*" + body + "*/", pending, rest)
  {
    var s := "/*" + body + "*/" + rest;
    assert s[1..] == "*" + body + "*/" + rest && s[1..][1..] == body + "*/" + rest;
    ReadsBlock(body, pending + "/" + "*", rest);
    assert pending + "/" + "*" + body + "*/" == pending + ("/*" + body + "*/");
  }

  function Inside(quote: char): State {
    if quote == '\'' then Single else Double
  }

  lemma ReadHead(q: State, pending: string, c: char, t: string)
    requires !(c == ';' && TopLevel(q))
    ensures Segments(q, pending, [c] + t) == Segments(Step(q, c), pending + [c], t)
  {
    assert ([c] + t)[1..] == t;
    ReadOne(q, pending, [c] + t);
  }

  lemma {:induction false} ReadsQuote(quote: char, body: string, pending: string, rest: string)
    requires (quote == '\'' || quote == '"') && Doubled(quote, body) && (rest == "" || rest[0] != quote)
    ensures Segments(Inside(quote), pending, body + [quote] + rest) == Segments(Plain, pending + body + [quote], rest)
    decreases |body|
  {
    hide Segments;
    var end := if quote == '\'' then SingleEnd else DoubleEnd;
    if body == "" {
      ReadHead(Inside(quote), pending, quote, rest);
      WaitingIsPlain(end, pending + [quote], rest);
      assert body + [quote] + rest == [quote] + rest && pending + body + [quote] == pending + [quote];
    } else if body[0] != quote {
      var tail := body[1..];
      ReadHead(Inside(quote), pending, body[0], tail + [quote] + rest);
      ReadsQuote(quote, tail, pending + [body[0]], rest);
      assert body + [quote] + rest == [body[0]] + (tail + [quote] + rest);
      assert pending + [body[0]] + tail + [quote] == pending + body + [quote];
    } else {
      var tail := body[2..];
      assert body == [quote] + [quote] + tail;
      ReadHead(Inside(quote), pending, quote, [quote] + (tail + [quote] + rest));
      ReadHead(end, pending + [quote], quote, tail + [quote] + rest);
      ReadsQuote(quote, tail, pending + [quote] + [quote], rest);
      assert body + [quote] + rest == [quote] + ([quote] + (tail + [quote] + rest));
      assert pending + [quote] + [quote] + tail + [quote] == pending + body + [quote];
    }
  }

  lemma ReadsQuoted(quote: char, body: string, pending: string, rest: string)
    requires (quote == '\'' || quote == '"') && Doubled(quote, body) && (rest == "" || rest[0] != quote)
    ensures Reads([quote] + body + [quote], pending, rest)
  {
    var s := [quote] + body + [quote] + rest;
    assert s[1..] == body + [quote] + rest;
    ReadsQuote(quote, body, pending + [quote], rest);
    assert pending + [quote] + body + [quote] == pending + ([quote] + body + [quote]);
  }

  lemma {:induction false} ReadsDollar(tag: string, body: string, pending: string, rest: string)
    requires IsTag(tag) && EndsFirst(body, tag)
    ensures Segments(Dollar(tag, 0), pending, body + tag + rest) == Segments(Plain, pending + body + tag, rest)
    decreases |body|
  {
    hide Segments, IsTag;
    var s := body + tag + rest;
    TagIsLong(tag);
    if body == "" {
      assert s == tag + rest && s[|tag|..] == rest;
      assert pending + body + tag == pending + tag;
      WholeMatch(tag, pending, s);
    } else {
      assert s[0] == body[0] && s[1..] == body[1..] + tag + rest;
      EndsFirstLater(body, tag);
      PrefixOfFront(tag, body + tag, rest);
      DollarMismatch(tag, pending, s);
      hide EndsFirst;
      ReadsDollar(tag, body[1..], pending + [body[0]], rest);
      assert pending + [body[0]] + body[1..] + tag == pending + body + tag;
    }
  }

  lemma TagIsLong(tag: string)
    requires IsTag(tag)
    ensures |tag| >= 2
  {
  }

  lemma SameTags(tag: string)
    ensures IsTag(tag) <==> DollarTag(tag)
  {
  }

  /** A tag's inner characters are the whole run after its first dollar sign. */
  lemma {:induction false} RunToDollar(n: nat, s: string)
    requires n < |s| && s[n] == '$' && forall i :: 0 <= i < n ==> IsTagChar(s[i])
    ensures TagRun(s) == n
    decreases n
  {
    if n > 0 {
      RunToDollar(n - 1, s[1..]);
    }
  }

  lemma OpensDollar(tag: string, pending: string, s: string)
    requires IsTag(tag)
    ensures Segments(Plain, pending, tag + s) == Segments(Dollar(tag, 0), pending + tag, s)
  {
    var n := |tag| - 2;
    var inner := tag[1..] + s;
    assert tag + s == ['$'] + inner;
    ReadHead(Plain, pending, '$', inner);
    hide Segments;
    forall i | 0 <= i < n ensures IsTagChar(inner[i]) {
      assert inner[i] == tag[i + 1];
    }
    assert inner[n] == tag[n + 1] == '$';
    RunToDollar(n, inner);
    OpenReadsTag("$", pending + "$", inner);
    assert inner[..n + 1] == tag[1..] && "$" + tag[1..] == tag && inner[n + 1..] == s;
    assert pending + "$" + tag[1..] == pending + tag;
  }

  lemma ReadsDollarQuoted(tag: string, body: string, pending: string, rest: string)
    requires DollarTag(tag) && EndsFirst(body, tag)
    ensures Reads(tag + body + tag, pending, rest)
  {
    SameTags(tag);
    hide Segments, IsTag, DollarTag;
    OpensDollar(tag, pending, body + tag + rest);
    ReadsDollar(tag, body, pending + tag, rest);
    assert tag + body + tag + rest == tag + (body + tag + rest);
    assert pending + tag + body + tag == pending + (tag + body + tag);
  }

  /** A character that opens nothing is read as plain text. */
  lemma ReadsOther(c: char, pending: string, rest: string)
    requires c != ';' && !Opens([c] + rest)
    ensures Reads([c], pending, rest)
  {
    var s := [c] + rest;
    assert s[1..] == rest;
    assert c != '\'' by { assert c == '\'' ==> "'" <= s; }
    assert c != '"' by { assert c == '"' ==> "\"" <= s; }
    if c == '-' {
      assert rest != "" && rest[0] == '-' ==> "--" <= s;
      WaitingIsPlain(Dash, pending + [c], rest);
    } else if c == '/' {
      assert rest != "" && rest[0] == '*' ==> "/*" <= s;
      WaitingIsPlain(Slash, pending + [c], rest);
    } else if c == '$' {
      NoTagOpens(rest);
      assert "$" == [c];
      OpenIsPlain("$", pending + [c], rest);
    }
  }

  lemma RunIsTag(rest: string, tag: string)
    requires TagRun(rest) < |rest| && rest[TagRun(rest)] == '$' && tag == (['$'] + rest)[..TagRun(rest) + 2]
    ensures DollarTag(tag)
  {
    TagRunIsTagChars(rest);
    forall i | 0 < i < |tag| - 1 ensures IsTagChar(tag[i]) {
      assert tag[i] == rest[i - 1];
    }
    SameTags(tag);
  }

  lemma NoTagOpens(rest: string)
    requires !Opens(['$'] + rest)
    ensures TagRun(rest) < |rest| ==> rest[TagRun(rest)] != '$'
  {
    hide DollarTag;
    var n, s := TagRun(rest), ['$'] + rest;
    if n < |rest| && rest[n] == '$' {
      RunIsTag(rest, s[..n + 2]);
    }
  }

  lemma ReadsPiece(p: Piece, pending: string, rest: string)
    requires Fits(p, rest) && !p.Semicolon?
    ensures Reads(Text(p), pending, rest)
  {
    hide Reads, Opens, EndsFirst, Doubled, DollarTag;
    match p
    case LineComment(line) => ReadsLineComment(line, pending, rest);
    case BlockComment(body) => ReadsBlockComment(body, pending, rest);
    case Quoted(quote, body) => ReadsQuoted(quote, body, pending, rest);
    case DollarQuoted(tag, body) => ReadsDollarQuoted(tag, body, pending, rest);
    case Other(c) => ReadsOther(c, pending, rest);
  }

  // ---------------------------------------------------------------- splitting follows the pieces

  lemma {:induction false} SegmentsOfPieces(pending: string, ps: seq<Piece>)
    requires Lexes(ps)
    ensures Segments(Plain, pending, Texts(ps)) == Parse(Cut(pending, ps), true)
    decreases |ps|
  {
    if ps != [] {
      var rest := Texts(ps[1..]);
      if ps[0].Semicolon? {
        assert (";" + rest)[1..] == rest;
        SegmentsOfPieces("", ps[1..]);
      } else {
        ReadsPiece(ps[0], pending, rest);
        hide Segments, Fits;
        SegmentsOfPieces(pending + Text(ps[0]), ps[1..]);
      }
    }
  }

  // ---------------------------------------------------------------- text that splits has pieces

  lemma {:induction false} LineEnds(s: string) returns (line: string, rest: string)
    ensures s == line + rest && '\n' !in line && (rest == "" || rest[0] == '\n')
    decreases |s|
  {
    if s == "" || s[0] == '\n' {
      line, rest := "", s;
    } else {
      line, rest := LineEnds(s[1..]);
      line := [s[0]] + line;
    }
  }

  /** Text whose first `end` comes at `n` is a body, that `end`, and a rest. */
  ghost predicate FirstAt(s: string, end: string, n: nat) {
    n <= |s| && end <= s[n..] && forall i :: 0 <= i < n ==> !(end <= s[i..])
  }

  lemma PrefixOfMore(end: string, front: string, rest: string)
    ensures end <= front ==> end <= front + rest
  {
  }

  lemma FirstSplits(s: string, end: string, n: nat) returns (body: string, rest: string)
    requires FirstAt(s, end, n)
    ensures s == body + end + rest && EndsFirst(body, end)
  {
    body, rest := s[..n], s[n + |end|..];
    assert s[n..] == end + rest;
    forall i | 0 <= i < |body| ensures !(end <= (body + end)[i..]) {
      assert s[i..] == (body + end)[i..] + rest;
      PrefixOfMore(end, (body + end)[i..], rest);
    }
  }

  lemma {:induction false} BlockEnds(pending: string, s: string) returns (n: nat)
    requires Segments(Block, pending, s).ok
    ensures FirstAt(s, "*/", n)
    decreases |s|
  {
    if "*/" <= s {
      n := 0;
      assert s[0..] == s;
    } else {
      assert s != "";
      if s[0] == '*' {
        assert s[1..] != "" && s[1..][0] == '/' ==> "*/" <= s;
        StarIsBlock(pending + [s[0]], s[1..]);
      }
      n := BlockEnds(pending + [s[0]], s[1..]);
      LaterFirst(s, "*/", n);
      n := n + 1;
    }
  }

  lemma LaterFirst(s: string, end: string, n: nat)
    requires s != "" && !(end <= s) && FirstAt(s[1..], end, n)
    ensures FirstAt(s, end, n + 1)
  {
    assert s[1..][n..] == s[n + 1..];
    forall i | 0 <= i < n + 1 ensures !(end <= s[i..]) {
      if i == 0 {
        assert s[0..] == s;
      } else {
        assert s[1..][i - 1..] == s[i..];
      }
    }
  }

  lemma {:induction false} DollarEnds(tag: string, pending: string, s: string) returns (n: nat)
    requires IsTag(tag) && Segments(Dollar(tag, 0), pending, s).ok
    ensures FirstAt(s, tag, n)
    decreases |s|
  {
    if tag <= s {
      n := 0;
      assert s[0..] == s;
    } else {
      assert s != "";
      DollarTurn(tag, pending, s);
      n := DollarEnds(tag, pending + [s[0]], s[1..]);
      LaterFirst(s, tag, n);
      n := n + 1;
    }
  }

  lemma {:induction false} QuoteEnds(quote: char, pending: string, s: string) returns (body: string, rest: string)
    requires (quote == '\'' || quote == '"') && Segments(Inside(quote), pending, s).ok
    ensures s == body + [quote] + rest && Doubled(quote, body) && (rest == "" || rest[0] != quote)
    decreases |s|
  {
    assert s != "";
    hide Segments;
    var end := if quote == '\'' then SingleEnd else DoubleEnd;
    if s[0] != quote {
      assert s == [s[0]] + s[1..];
      ReadHead(Inside(quote), pending, s[0], s[1..]);
      var inner;
      inner, rest := QuoteEnds(quote, pending + [s[0]], s[1..]);
      body := [s[0]] + inner;
      assert body[1..] == inner;
    } else if |s| > 1 && s[1] == quote {
      assert s == [quote] + ([quote] + s[2..]);
      ReadHead(Inside(quote), pending, quote, [quote] + s[2..]);
      ReadHead(end, pending + [quote], quote, s[2..]);
      var inner;
      inner, rest := QuoteEnds(quote, pending + [quote] + [quote], s[2..]);
      body := [quote, quote] + inner;
      assert body[2..] == inner;
    } else {
      body, rest := "", s[1..];
      assert s == [quote] + rest;
    }
  }

  lemma LineIsPiece(s: string) returns (p: Piece, rest: string)
    requires "--" <= s
    ensures s == Text(p) + rest && Fits(p, rest) && !p.Semicolon?
  {
    var line;
    line, rest := LineEnds(s[2..]);
    p := LineComment(line);
    assert s == "--" + s[2..] == "--" + (line + rest) == Text(p) + rest;
  }

  lemma BlockIsPiece(pending: string, s: string) returns (p: Piece, rest: string)
    requires Segments(Plain, pending, s).ok && "/*" <= s
    ensures s == Text(p) + rest && Fits(p, rest) && !p.Semicolon?
  {
    assert s[0] == '/' && s[1..][0] == '*' && s[1..][1..] == s[2..];
    assert Segments(Plain, pending, s) == Segments(Block, pending + [s[0]] + [s[1]], s[2..]);
    hide Segments, FirstAt, EndsFirst;
    var n := BlockEnds(pending + [s[0]] + [s[1]], s[2..]);
    var body;
    body, rest := FirstSplits(s[2..], "*/", n);
    p := BlockComment(body);
    assert s == "/*" + s[2..] == "/*" + (body + "*/" + rest) == Text(p) + rest;
  }

  lemma QuoteIsPiece(pending: string, s: string) returns (p: Piece, rest: string)
    requires Segments(Plain, pending, s).ok && s != "" && (s[0] == '\'' || s[0] == '"')
    ensures s == Text(p) + rest && Fits(p, rest) && !p.Semicolon?
  {
    assert Segments(Plain, pending, s) == Segments(Inside(s[0]), pending + [s[0]], s[1..]);
    hide Segments, Doubled;
    var body;
    body, rest := QuoteEnds(s[0], pending + [s[0]], s[1..]);
    p := Quoted(s[0], body);
    assert s == [s[0]] + s[1..] == [s[0]] + (body + [s[0]] + rest) == Text(p) + rest;
  }

  /** Text that begins with an opener begins with a whole piece. */
  lemma OpenerIsPiece(pending: string, s: string) returns (p: Piece, rest: string)
    requires Segments(Plain, pending, s).ok && s != "" && s[0] != ';' && Opens(s)
    ensures s == Text(p) + rest && Fits(p, rest) && !p.Semicolon?
  {
    hide Segments, Fits;
    if "--" <= s {
      p, rest := LineIsPiece(s);
    } else if "/*" <= s {
      p, rest := BlockIsPiece(pending, s);
    } else if s[0] == '\'' || s[0] == '"' {
      p, rest := QuoteIsPiece(pending, s);
    } else {
      p, rest := TagIsPiece(pending, s);
    }
  }

  lemma BodyIsPiece(tag: string, pending: string, t: string) returns (p: Piece, rest: string)
    requires IsTag(tag) && Segments(Dollar(tag, 0), pending, t).ok
    ensures tag + t == Text(p) + rest && Fits(p, rest) && !p.Semicolon?
  {
    SameTags(tag);
    hide Segments, DollarTag, IsTag, FirstAt, EndsFirst;
    var n := DollarEnds(tag, pending, t);
    var body;
    body, rest := FirstSplits(t, tag, n);
    p := DollarQuoted(tag, body);
    assert tag + (body + tag + rest) == Text(p) + rest;
  }

  lemma TagIsPiece(pending: string, s: string) returns (p: Piece, rest: string)
    requires Segments(Plain, pending, s).ok && exists n :: 0 <= n <= |s| && DollarTag(s[..n])
    ensures s == Text(p) + rest && Fits(p, rest) && !p.Semicolon?
  {
    var k :| 0 <= k <= |s| && DollarTag(s[..k]);
    hide Segments, DollarTag, IsTag, Fits, Text;
    SameTags(s[..k]);
    assert s == s[..k] + s[k..];
    OpensDollar(s[..k], pending, s[k..]);
    p, rest := BodyIsPiece(s[..k], pending + s[..k], s[k..]);
  }

  lemma {:induction false} PiecesExist(pending: string, s: string) returns (ps: seq<Piece>)
    requires Segments(Plain, pending, s).ok
    ensures Lexes(ps) && Texts(ps) == s
    decreases |s|
  {
    if s == "" {
      ps := [];
    } else if s[0] == ';' {
      var rest := PiecesExist("", s[1..]);
      ps := [Semicolon] + rest;
      assert ps[1..] == rest && s == ";" + s[1..];
    } else {
      var p, rest := FirstPiece(pending, s);
      ReadsPiece(p, pending, rest);
      hide Segments, Fits;
      assert |Text(p)| > 0 by { TextsAreNotEmpty(p, rest); }
      var tail := PiecesExist(pending + Text(p), rest);
      ps := [p] + tail;
      assert ps[1..] == tail;
    }
  }

  lemma FirstPiece(pending: string, s: string) returns (p: Piece, rest: string)
    requires Segments(Plain, pending, s).ok && s != "" && s[0] != ';'
    ensures s == Text(p) + rest && Fits(p, rest) && !p.Semicolon?
  {
    hide Segments, Opens;
    if Opens(s) {
      p, rest := OpenerIsPiece(pending, s);
    } else {
      p, rest := Other(s[0]), s[1..];
      assert s == [s[0]] + s[1..];
    }
  }

  lemma TextsAreNotEmpty(p: Piece, rest: string)
    requires Fits(p, rest)
    ensures |Text(p)| > 0
  {
  }

  // ---------------------------------------------------------------- theorems

  /**
   * Any reading of a script as pieces of the grammar gives the result of splitting it: the texts between the
   * semicolon pieces, each with its semicolon, trimmed, blank ones dropped.
   */
  lemma SplitFollowsTheGrammar(sql: string, ps: seq<Piece>)
    requires Lexes(ps) && Texts(ps) == sql
    ensures var statements := Statements(Cut("", ps));
            Split(sql) == if statements == [] then Err(NoStatements) else Ok(statements)
  {
    hide Segments, Lexes, Statements;
    SegmentsOfPieces("", ps);
  }

  /** Splitting reports unterminated syntax exactly on text that is no sequence of pieces. */
  lemma UnterminatedExactly(sql: string)
    ensures Split(sql) == Err(Unterminated) <==> !exists ps: seq<Piece> :: Lexes(ps) && Texts(ps) == sql
  {
    hide Segments, Lexes, Statements;
    if Segments(Plain, "", sql).ok {
      var ps := PiecesExist("", sql);
    } else if ps: seq<Piece> :| Lexes(ps) && Texts(ps) == sql {
      SegmentsOfPieces("", ps);
    }
  }

  /** Piece `i` is a semicolon, and `n` characters go up to its end. */
  predicate EndsSemicolon(ps: seq<Piece>, i: nat, n: int)
    requires i < |ps|
  {
    ps[i].Semicolon? && n == |Texts(ps[..i + 1])|
  }

  ghost predicate SemicolonEndsAt(ps: seq<Piece>, n: int) {
    exists i :: 0 <= i < |ps| && EndsSemicolon(ps, i, n)
  }

  /** Cuts come exactly at the ends of semicolon pieces. */
  lemma {:induction false} CutsAreSemicolonPieces(pending: string, ps: seq<Piece>, n: nat)
    ensures EndsAt(Cut(pending, ps), n) <==> SemicolonEndsAt(ps, n - |pending|)
    decreases |ps|
  {
    hide EndsAt, SemicolonEndsAt;
    if ps == [] {
      NoEnds(pending, n);
    } else {
      SemicolonsOfTail(ps, n - |pending|);
      if ps[0].Semicolon? {
        EndsOfCons(pending + ";", Cut("", ps[1..]), n);
        if n >= |pending| + 1 {
          CutsAreSemicolonPieces("", ps[1..], n - |pending| - 1);
        } else {
          EndsAreNotNegative(ps[1..], n - |pending| - 1);
        }
      } else {
        CutsAreSemicolonPieces(pending + Text(ps[0]), ps[1..], n);
      }
    }
  }

  lemma NoEnds(pending: string, n: int)
    ensures n >= 0 ==> !EndsAt([pending], n)
    ensures !SemicolonEndsAt([], n - |pending|)
  {
  }

  lemma EndsAreNotNegative(ps: seq<Piece>, n: int)
    requires n < 0
    ensures !SemicolonEndsAt(ps, n)
  {
  }

  lemma SemicolonOfTail(ps: seq<Piece>, i: nat, n: int)
    requires i + 1 < |ps|
    ensures EndsSemicolon(ps, i + 1, n) <==> EndsSemicolon(ps[1..], i, n - |Text(ps[0])|)
  {
    assert ps[..i + 2][1..] == ps[1..][..i + 1];
  }

  lemma SemicolonsOfTail(ps: seq<Piece>, n: int)
    requires ps != []
    ensures SemicolonEndsAt(ps, n) <==> (ps[0].Semicolon? && n == 1) || SemicolonEndsAt(ps[1..], n - |Text(ps[0])|)
  {
    assert ps[..1][1..] == [] && Texts(ps[..0 + 1]) == Text(ps[0]);
    if SemicolonEndsAt(ps, n) {
      var i :| 0 <= i < |ps| && EndsSemicolon(ps, i, n);
      if i > 0 {
        SemicolonOfTail(ps, i - 1, n);
      }
    }
    if SemicolonEndsAt(ps[1..], n - |Text(ps[0])|) {
      var i :| 0 <= i < |ps[1..]| && EndsSemicolon(ps[1..], i, n - |Text(ps[0])|);
      SemicolonOfTail(ps, i, n);
    }
    if ps[0].Semicolon? && n == 1 {
      assert EndsSemicolon(ps, 0, n);
    }
  }

  /**
   * For any reading of a script as pieces, splitting cuts it after a character exactly when a semicolon piece ends
   * there: never inside a comment, a quoted text or a dollar-quoted body.
   */
  lemma CutsFollowTheGrammar(sql: string, ps: seq<Piece>, n: nat)
    requires Lexes(ps) && Texts(ps) == sql
    ensures EndsAt(Segments(Plain, "", sql).segments, n) <==> SemicolonEndsAt(ps, n)
  {
    hide Segments, Lexes, EndsAt, SemicolonEndsAt;
    SegmentsOfPieces("", ps);
    CutsAreSemicolonPieces("", ps, n);
  }
}
