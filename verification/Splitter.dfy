/** Splitting a migration file into its statements. */
module Splitter {
  import opened Text
  import opened SqlLexer

  // --- What the statements of a file are -----------------------------------------------------

  /** The tokens between the semicolons. */
  function Pieces(tokens: seq<Token>): (p: seq<seq<Token>>)
    ensures |p| > 0
  {
    if tokens == [] then [[]]
    else
      var rest := Pieces(tokens[1..]);
      if tokens[0].Semi? then [[]] + rest else [[tokens[0]] + rest[0]] + rest[1..]
  }

  function Texts(pieces: seq<seq<Token>>): (r: seq<string>)
    ensures |r| == |pieces| && forall i :: 0 <= i < |r| ==> r[i] == Unlex(pieces[i])
  {
    seq(|pieces|, i requires 0 <= i < |pieces| => Unlex(pieces[i]))
  }

  function Join(parts: seq<string>): string {
    if parts == [] then "" else if |parts| == 1 then parts[0] else parts[0] + ";" + Join(parts[1..])
  }

  /** Anything but a comment or white space. */
  predicate Bears(t: Token) {
    t.Semi? || t.Literal? || (t.Plain? && !IsSpace(t.c))
  }

  predicate Sql(tokens: seq<Token>) {
    exists i :: 0 <= i < |tokens| && Bears(tokens[i])
  }

  function Keep(pieces: seq<seq<Token>>): seq<string> {
    if pieces == [] then []
    else (if Sql(pieces[0]) then [TrimSpace(Unlex(pieces[0]))] else []) + Keep(pieces[1..])
  }

  /** The pieces that carry SQL, trimmed, in order. */
  function Statements(body: string): seq<string> {
    Keep(Pieces(Lex(body)))
  }

  // --- Nothing is lost -----------------------------------------------------------------------

  lemma {:induction false} JoinPieces(tokens: seq<Token>)
    ensures Join(Texts(Pieces(tokens))) == Unlex(tokens)
  {
    if tokens == [] {
      assert Unlex(Pieces(tokens)[0]) == "";
    } else {
      JoinPieces(tokens[1..]);
      var rest := Pieces(tokens[1..]);
      if tokens[0].Semi? {
        JoinAfter(rest);
      } else {
        JoinInto(tokens[0], rest);
      }
    }
  }

  lemma JoinAfter(pieces: seq<seq<Token>>)
    requires pieces != []
    ensures Join(Texts([[]] + pieces)) == ";" + Join(Texts(pieces))
  {
    assert Texts([[]] + pieces) == [""] + Texts(pieces);
  }

  lemma JoinInto(t: Token, pieces: seq<seq<Token>>)
    requires pieces != []
    ensures Join(Texts([[t] + pieces[0]] + pieces[1..])) == TextOf(t) + Join(Texts(pieces))
  {
    assert ([t] + pieces[0])[1..] == pieces[0];
    assert Texts([[t] + pieces[0]] + pieces[1..]) == [TextOf(t) + Texts(pieces)[0]] + Texts(pieces)[1..];
    JoinFirst(TextOf(t), Texts(pieces));
  }

  lemma JoinFirst(x: string, parts: seq<string>)
    requires parts != []
    ensures Join([x + parts[0]] + parts[1..]) == x + Join(parts)
  {
  }

  /** The raw chunks joined with semicolons give back the file. */
  lemma ChunksGiveBackFile(body: string)
    ensures Join(Texts(Pieces(Lex(body)))) == body
  {
    JoinPieces(Lex(body));
    UnlexLex(body);
  }

  // --- A chunk reads alone as it reads in the file ------------------------------------------------

  lemma {:induction false} UnlexJoin(a: seq<Token>, b: seq<Token>)
    ensures Unlex(a + b) == Unlex(a) + Unlex(b)
  {
    if a == [] {
      assert a + b == b;
    } else {
      assert (a + b)[1..] == a[1..] + b;
      UnlexJoin(a[1..], b);
    }
  }

  lemma FormedCons(t: Token, tokens: seq<Token>)
    ensures Formed([t] + tokens) <==> Fits(t, Unlex(tokens)) && Formed(tokens)
  {
  }

  lemma FitsBefore(t: Token, x: string, y: string)
    requires Fits(t, x + ";" + y)
    ensures Fits(t, x)
  {
  }

  lemma {:induction false} FormedBefore(a: seq<Token>, b: seq<Token>)
    requires Formed(a + ([Semi] + b))
    ensures Formed(a) && Formed(b)
  {
    if a == [] {
      assert a + ([Semi] + b) == [Semi] + b;
      FormedCons(Semi, b);
    } else {
      var t, more := a[0], a[1..];
      assert a == [t] + more && a + ([Semi] + b) == [t] + (more + ([Semi] + b));
      FormedCons(t, more + ([Semi] + b));
      FormedCons(t, more);
      FormedBefore(more, b);
      UnlexAround(more, b);
      FitsBefore(t, Unlex(more), Unlex(b));
    }
  }

  lemma UnlexAround(a: seq<Token>, b: seq<Token>)
    ensures Unlex(a + ([Semi] + b)) == Unlex(a) + ";" + Unlex(b)
  {
    UnlexJoin(a, [Semi] + b);
    UnlexCons(Semi, b);
    assert Unlex(a) + (";" + Unlex(b)) == Unlex(a) + ";" + Unlex(b);
  }

  // --- The line-based test agrees with the lexer ------------------------------------------------------

  /** The lines of a text, without their line feeds. */
  function Lines(s: string): (r: seq<string>)
    ensures |r| > 0
  {
    if s == "" then [""]
    else
      var rest := Lines(s[1..]);
      if s[0] == '\n' then [""] + rest else [[s[0]] + rest[0]] + rest[1..]
  }

  predicate SqlLine(line: string) {
    var t := TrimSpace(line);
    t != "" && !Dashes(t)
  }

  /** Skips white space and comments, and reports whether anything is left. */
  predicate SqlFrom(s: string)
    decreases |s|
  {
    if s == "" then false
    else if IsSpace(s[0]) then SqlFrom(s[1..])
    else if Dashes(s) then SqlFrom(s[CommentLength(s)..])
    else true
  }

  lemma {:induction false} SqlTokens(s: string)
    ensures Sql(Lex(s)) <==> SqlFrom(s)
    decreases |s|
  {
    if s != "" {
      var rest := s[Length(s)..];
      SqlTokens(rest);
      assert Lex(s)[0] == First(s) && Lex(s)[1..] == Lex(rest);
      SqlCons(First(s), Lex(rest));
    }
  }

  lemma SqlCons(t: Token, tokens: seq<Token>)
    ensures Sql([t] + tokens) <==> Bears(t) || Sql(tokens)
  {
    var all := [t] + tokens;
    if Sql(tokens) {
      var i :| 0 <= i < |tokens| && Bears(tokens[i]);
      assert all[i + 1] == tokens[i];
    }
    if Bears(t) { assert Bears(all[0]); }
  }

  /** A line of its own: the test on the trimmed line is the skipping test. */
  lemma {:induction false} SqlInLine(line: string)
    requires '\n' !in line
    ensures SqlLine(line) <==> SqlFrom(line)
  {
    if line != "" && IsSpace(line[0]) {
      SqlInLine(line[1..]);
    } else if Dashes(line) {
      var t := TrimSpace(line);
      TrimmedRight(line);
      assert !IsSpace(line[1]) && (|t| < |line| ==> line[|t|..][0] == line[|t|]);
      CommentLengthOf(line, |line|);
    } else if line != "" {
      var t := TrimSpace(line);
      TrimmedRight(line);
      assert t == line[..|t|];
    }
  }

  /** A line feed ends what a line decides. */
  lemma {:induction false} SqlAcrossLines(line: string, rest: string)
    requires '\n' !in line
    ensures SqlFrom(line + "\n" + rest) <==> SqlFrom(line) || SqlFrom(rest)
  {
    var s := line + "\n" + rest;
    if line == "" {
      assert s[1..] == rest;
    } else if IsSpace(line[0]) {
      assert s[1..] == line[1..] + "\n" + rest;
      SqlAcrossLines(line[1..], rest);
    } else if Dashes(line) {
      CommentLengthOf(s, |line| + 1);
      CommentLengthOf(line, |line|);
      assert s[|line| + 1..] == rest;
    } else {
      assert |line| > 1 ==> s[1] == line[1];
    }
  }

  lemma {:induction false} FirstLine(s: string)
    ensures var lines := Lines(s);
      '\n' !in lines[0] && if |lines| == 1 then s == lines[0]
        else |s| > |lines[0]| && s == lines[0] + "\n" + s[|lines[0]| + 1..] && Lines(s[|lines[0]| + 1..]) == lines[1..]
  {
    if s != "" && s[0] != '\n' {
      FirstLine(s[1..]);
      var lines, rest := Lines(s), Lines(s[1..]);
      if |rest| > 1 { assert s[1..][|rest[0]| + 1..] == s[|lines[0]| + 1..]; }
    } else if s != "" {
      assert s == "" + "\n" + s[1..];
    }
  }

  predicate AnySqlLine(lines: seq<string>) {
    exists i :: 0 <= i < |lines| && SqlLine(lines[i])
  }

  lemma AnySqlLineFirst(lines: seq<string>)
    requires lines != []
    ensures AnySqlLine(lines) <==> SqlLine(lines[0]) || AnySqlLine(lines[1..])
  {
  }

  lemma {:induction false} SqlInLines(s: string)
    ensures AnySqlLine(Lines(s)) <==> SqlFrom(s)
    decreases |s|
  {
    var lines := Lines(s);
    FirstLine(s);
    SqlInLine(lines[0]);
    AnySqlLineFirst(lines);
    if |lines| > 1 {
      var rest := s[|lines[0]| + 1..];
      SqlAcrossLines(lines[0], rest);
      SqlInLines(rest);
    }
  }

  /** For every text, a line-by-line look finds SQL exactly when the lexer does. */
  method HasSql(s: string) returns (r: bool)
    ensures r <==> Sql(Lex(s))
  {
    var lines := Lines(s);
    assert Sql(Lex(s)) <==> AnySqlLine(lines) by {
      SqlTokens(s);
      SqlInLines(s);
    }
    for i := 0 to |lines|
      invariant forall j :: 0 <= j < i ==> !SqlLine(lines[j])
    {
      if SqlLine(lines[i]) { return true; }
    }
    r := false;
  }

  // --- The splitting loop -----------------------------------------------------------------------------

  lemma {:induction false} SqlDropSpace(s: string, c: char)
    requires IsSpace(c)
    ensures SqlFrom(s + [c]) <==> SqlFrom(s)
    decreases |s|
  {
    var longer := s + [c];
    if s == "" {
      assert longer[1..] == "";
    } else if IsSpace(s[0]) {
      assert longer[1..] == s[1..] + [c];
      SqlDropSpace(s[1..], c);
    } else if Dashes(s) {
      var n := CommentLength(s);
      CommentEnds(s);
      if n < |s| || s[n - 1] == '\n' {
        CommentLengthOf(longer, n);
        assert longer[n..] == s[n..] + [c];
        SqlDropSpace(s[n..], c);
      } else {
        CommentLengthOf(longer, n + 1);
      }
    } else {
      assert longer[0] == s[0] && (|s| > 1 ==> longer[1] == s[1]);
    }
  }

  lemma {:induction false} SqlTrimRight(s: string)
    ensures SqlFrom(TrimRight(s)) <==> SqlFrom(s)
  {
    if s != "" && IsSpace(s[|s| - 1]) {
      SqlTrimRight(s[..|s| - 1]);
      SqlDropSpace(s[..|s| - 1], s[|s| - 1]);
      assert s == s[..|s| - 1] + [s[|s| - 1]];
    }
  }

  lemma {:induction false} SqlTrimLeft(s: string)
    ensures SqlFrom(TrimLeft(s)) <==> SqlFrom(s)
  {
    if s != "" && IsSpace(s[0]) { SqlTrimLeft(s[1..]); }
  }

  lemma SqlTrimmed(s: string)
    ensures Sql(Lex(TrimSpace(s))) <==> Sql(Lex(s))
  {
    SqlTrimLeft(s);
    SqlTrimRight(TrimLeft(s));
    SqlTokens(s);
    SqlTokens(TrimSpace(s));
  }

  /** What appending `text` as a statement adds. */
  function Added(text: string): seq<string> {
    if Sql(Lex(text)) then [TrimSpace(text)] else []
  }

  /** `f` of each element, one after the other. */
  function FlatMap<A, B>(f: A -> seq<B>, xs: seq<A>): seq<B> {
    if xs == [] then [] else f(xs[0]) + FlatMap(f, xs[1..])
  }

  lemma {:induction false} FlatMapLast<A, B>(f: A -> seq<B>, xs: seq<A>, x: A)
    ensures FlatMap(f, xs + [x]) == FlatMap(f, xs) + f(x)
  {
    if xs == [] {
      assert xs + [x] == [x];
    } else {
      assert (xs + [x])[1..] == xs[1..] + [x];
      FlatMapLast(f, xs[1..], x);
    }
  }

  /** What keeping raw chunks gives. */
  function AddedAll(chunks: seq<string>): seq<string> {
    FlatMap(Added, chunks)
  }

  /** The raw chunks to come, when `cur` has been read of the current one. */
  function Chunks(cur: string, tokens: seq<Token>): seq<string>
    decreases |tokens|
  {
    if tokens == [] then [cur]
    else if tokens[0].Semi? then [cur] + Chunks("", tokens[1..])
    else Chunks(cur + TextOf(tokens[0]), tokens[1..])
  }

  lemma ChunksCons(cur: string, t: Token, tokens: seq<Token>)
    ensures Chunks(cur, [t] + tokens) == if t.Semi? then [cur] + Chunks("", tokens) else Chunks(cur + TextOf(t), tokens)
  {
  }

  /** How much of `s` the comment or literal the loop is in still takes. */
  function Left(inLine: bool, inString: bool, s: string): (n: nat)
    ensures n <= |s|
  {
    if inLine then CommentLength(s) else if inString then LiteralLength(s) else 0
  }

  /** The chunks to come at a point inside a token, with `s` ahead. */
  function Ahead(cur: string, inLine: bool, inString: bool, s: string): seq<string> {
    var n := Left(inLine, inString, s);
    Chunks(cur + s[..n], Lex(s[n..]))
  }

  /** Reading one more character of the current token changes nothing. */
  lemma AheadRead(cur: string, inLine: bool, inString: bool, inLine': bool, inString': bool, s: string)
    requires s != "" && Left(inLine, inString, s) == 1 + Left(inLine', inString', s[1..])
    ensures Ahead(cur, inLine, inString, s) == Ahead(cur + [s[0]], inLine', inString', s[1..])
  {
    OneOn(cur, s, Left(inLine, inString, s));
  }

  lemma AheadComment(cur: string, s: string)
    requires s != ""
    ensures Ahead(cur, true, false, s) == Ahead(cur + [s[0]], s[0] != '\n', false, s[1..])
  {
    AheadRead(cur, true, false, s[0] != '\n', false, s);
  }

  lemma AheadLiteral(cur: string, s: string)
    requires s != "" && !(|s| > 1 && s[0] == '\'' && s[1] == '\'')
    ensures Ahead(cur, false, true, s) == Ahead(cur + [s[0]], false, s[0] != '\'', s[1..])
  {
    AheadRead(cur, false, true, false, s[0] != '\'', s);
  }

  lemma AheadPair(cur: string, s: string)
    requires |s| > 1 && s[0] == '\'' && s[1] == '\''
    ensures Ahead(cur, false, true, s) == Ahead(cur + [s[0]] + [s[1]], false, true, s[2..])
  {
    var n := LiteralLength(s);
    assert s[n..] == s[2..][n - 2..];
    assert cur + s[..n] == cur + [s[0]] + [s[1]] + s[2..][..n - 2];
  }

  lemma TokenLeft(s: string)
    requires s != "" && s[0] != ';'
    ensures Length(s) == 1 + Left(Dashes(s), s[0] == '\'', s[1..])
  {
  }

  /** A token begins: what is ahead is the rest of it and the tokens after it. */
  lemma AheadToken(cur: string, s: string)
    requires s != "" && s[0] != ';'
    ensures Ahead(cur, false, false, s) == Ahead(cur + [s[0]], Dashes(s), s[0] == '\'', s[1..])
  {
    var n := Length(s);
    TokenLeft(s);
    AheadFirst(cur, s);
    OneOn(cur, s, n);
  }

  lemma OneOn(cur: string, s: string, n: nat)
    requires 0 < n <= |s|
    ensures s[n..] == s[1..][n - 1..] && cur + s[..n] == cur + [s[0]] + s[1..][..n - 1]
  {
  }

  lemma AheadFirst(cur: string, s: string)
    requires s != "" && s[0] != ';'
    ensures var n := Length(s); Ahead(cur, false, false, s) == Chunks(cur + s[..n], Lex(s[n..]))
  {
    TextOfFirst(s);
    ChunksCons(cur, First(s), Lex(s[Length(s)..]));
    assert cur + s[..0] == cur && s[0..] == s;
  }

  lemma AheadSemi(cur: string, s: string)
    requires s != "" && s[0] == ';'
    ensures Ahead(cur, false, false, s) == [cur] + Ahead("", false, false, s[1..])
  {
    var rest := s[1..];
    assert First(s) == Semi;
    ChunksCons(cur, Semi, Lex(rest));
    assert cur + s[..0] == cur && s[0..] == s && "" + rest[..0] == "" && rest[0..] == rest;
  }

  predicate DashesAt(body: string, i: nat) {
    i + 1 < |body| && body[i] == '-' && body[i + 1] == '-'
  }

  predicate PairAt(body: string, i: nat) {
    i + 1 < |body| && body[i] == '\'' && body[i + 1] == '\''
  }

  /** The loop as a function: the chunks still to come. */
  function Scan(body: string, i: nat, cur: string, inLine: bool, inString: bool): seq<string>
    requires i <= |body|
    decreases |body| - i
  {
    if i == |body| then [cur]
    else if inLine then Scan(body, i + 1, cur + [body[i]], body[i] != '\n', inString)
    else if inString then
      if PairAt(body, i) then Scan(body, i + 2, cur + [body[i]] + [body[i + 1]], inLine, inString)
      else Scan(body, i + 1, cur + [body[i]], inLine, body[i] != '\'')
    else if body[i] == ';' then [cur] + Scan(body, i + 1, "", inLine, inString)
    else Scan(body, i + 1, cur + [body[i]], DashesAt(body, i), body[i] == '\'')
  }

  lemma Suffix(body: string, i: nat)
    requires i < |body|
    ensures body[i..] != "" && body[i..][0] == body[i] && body[i..][1..] == body[i + 1..]
    ensures Dashes(body[i..]) <==> DashesAt(body, i)
    ensures PairAt(body, i) <==> |body[i..]| > 1 && body[i..][0] == '\'' && body[i..][1] == '\''
    ensures PairAt(body, i) ==> body[i..][1] == body[i + 1] && body[i..][2..] == body[i + 2..]
  {
  }

  /** It finds the chunks the lexer finds. */
  lemma {:induction false} ScanFollowsTokens(body: string, i: nat, cur: string, inLine: bool, inString: bool)
    requires i <= |body| && !(inLine && inString)
    ensures Scan(body, i, cur, inLine, inString) == Ahead(cur, inLine, inString, body[i..])
    decreases |body| - i
  {
    if i == |body| {
      assert body[i..] == "" && cur + "" == cur;
    } else {
      var s := body[i..];
      Suffix(body, i);
      if inLine {
        AheadComment(cur, s);
        ScanFollowsTokens(body, i + 1, cur + [body[i]], body[i] != '\n', false);
      } else if inString {
        if PairAt(body, i) {
          AheadPair(cur, s);
          ScanFollowsTokens(body, i + 2, cur + [body[i]] + [body[i + 1]], false, true);
        } else {
          AheadLiteral(cur, s);
          ScanFollowsTokens(body, i + 1, cur + [body[i]], false, body[i] != '\'');
        }
      } else if body[i] == ';' {
        AheadSemi(cur, s);
        ScanFollowsTokens(body, i + 1, "", false, false);
      } else {
        AheadToken(cur, s);
        ScanFollowsTokens(body, i + 1, cur + [body[i]], DashesAt(body, i), body[i] == '\'');
      }
    }
  }

  lemma ScanFindsStatements(body: string)
    ensures AddedAll(Scan(body, 0, "", false, false)) == Statements(body)
  {
    ScanFollowsTokens(body, 0, "", false, false);
    StatementsAhead(body);
    assert body[0..] == body;
  }

  /** Adds a chunk, trimmed, unless it carries no SQL. */
  method AppendStatement(out: seq<string>, ghost done: seq<string>, stmt: string) returns (r: seq<string>)
    requires out == AddedAll(done)
    ensures r == AddedAll(done + [stmt])
  {
    FlatMapLast(Added, done, stmt);
    SqlTrimmed(stmt);
    var trimmed := TrimSpace(stmt);
    var sql := HasSql(trimmed);
    if trimmed == "" || !sql { return out; }
    r := out + [trimmed];
  }

  method SplitStatements(body: string) returns (out: seq<string>)
    ensures out == Statements(body)
  {
    var cur, inLine, inString := "", false, false;
    var i: nat := 0;
    out := [];
    ghost var done: seq<string> := [];
    while i < |body|
      invariant i <= |body| && !(inLine && inString) && out == AddedAll(done)
      invariant Scan(body, 0, "", false, false) == done + Scan(body, i, cur, inLine, inString)
    {
      var c := body[i];
      if inLine {
        if c == '\n' { inLine := false; }
      } else if inString {
        if c == '\'' {
          if i + 1 < |body| && body[i + 1] == '\'' {
            cur := cur + [c];
            i := i + 1;
            c := body[i];
          } else {
            inString := false;
          }
        }
      } else if c == '-' && i + 1 < |body| && body[i + 1] == '-' {
        inLine := true;
      } else if c == '\'' {
        inString := true;
      } else if c == ';' {
        out := AppendStatement(out, done, cur);
        done := done + [cur];
        cur, i := "", i + 1;
        continue;
      }
      cur := cur + [c];
      i := i + 1;
    }
    out := AppendStatement(out, done, cur);
    ScanFindsStatements(body);
  }

  // --- What the statements promise ------------------------------------------------------------------------

  ghost predicate NoSemi(tokens: seq<Token>) {
    forall i :: 0 <= i < |tokens| ==> !tokens[i].Semi?
  }

  lemma NoSemiCons(t: Token, tokens: seq<Token>)
    ensures NoSemi([t] + tokens) <==> !t.Semi? && NoSemi(tokens)
  {
    assert ([t] + tokens)[0] == t && forall i :: 0 <= i < |tokens| ==> ([t] + tokens)[i + 1] == tokens[i];
  }

  lemma NoSemiStep(s: string)
    requires s != ""
    ensures NoSemi(Lex(s)) <==> !First(s).Semi? && NoSemi(Lex(s[Length(s)..]))
  {
    NoSemiCons(First(s), Lex(s[Length(s)..]));
  }

  /** A comment or literal that ends inside a text ends there in a longer one too. */
  lemma {:induction false} CommentLengthStays(s: string, c: char)
    requires CommentLength(s) < |s|
    ensures CommentLength(s + [c]) == CommentLength(s)
  {
    if s[0] != '\n' {
      assert (s + [c])[1..] == s[1..] + [c];
      CommentLengthStays(s[1..], c);
    }
  }

  lemma {:induction false} LiteralLengthStays(s: string, c: char)
    requires LiteralLength(s) < |s|
    ensures LiteralLength(s + [c]) == LiteralLength(s)
  {
    assert (s + [c])[1..] == s[1..] + [c];
    if s[0] != '\'' {
      LiteralLengthStays(s[1..], c);
    } else if |s| > 1 && s[1] == '\'' {
      assert (s + [c])[2..] == s[2..] + [c];
      LiteralLengthStays(s[2..], c);
    }
  }

  /** Either the first token is the whole of `s`, or it does not change. */
  lemma FirstStays(s: string, c: char)
    requires s != ""
    ensures Length(s) == |s| || (First(s + [c]) == First(s) && Length(s + [c]) == Length(s))
  {
    var n := Length(s);
    if n < |s| {
      assert (s + [c])[..n] == s[..n] && (s + [c])[1..] == s[1..] + [c];
      if Dashes(s) { CommentLengthStays(s, c); }
      else if s[0] == '\'' { LiteralLengthStays(s[1..], c); }
    }
  }

  /** Cutting off the end of a text makes no new split point. */
  lemma {:induction false} NoSemiShorter(s: string, c: char)
    requires NoSemi(Lex(s + [c]))
    ensures NoSemi(Lex(s))
    decreases |s|
  {
    if s != "" {
      var n := Length(s);
      FirstStays(s, c);
      NoSemiStep(s + [c]);
      NoSemiStep(s);
      if n != |s| {
        assert (s + [c])[n..] == s[n..] + [c];
        NoSemiShorter(s[n..], c);
      } else {
        assert s[n..] == "";
        assert s[0] == (s + [c])[0];
      }
    }
  }

  lemma {:induction false} NoSemiTrimRight(s: string)
    requires NoSemi(Lex(s))
    ensures NoSemi(Lex(TrimRight(s)))
  {
    if s != "" && IsSpace(s[|s| - 1]) {
      assert s == s[..|s| - 1] + [s[|s| - 1]];
      NoSemiShorter(s[..|s| - 1], s[|s| - 1]);
      NoSemiTrimRight(s[..|s| - 1]);
    }
  }

  lemma {:induction false} NoSemiTrimLeft(s: string)
    requires NoSemi(Lex(s))
    ensures NoSemi(Lex(TrimLeft(s)))
  {
    if s != "" && IsSpace(s[0]) {
      NoSemiStep(s);
      NoSemiTrimLeft(s[1..]);
    }
  }

  lemma {:induction false} OnePiece(tokens: seq<Token>)
    requires NoSemi(tokens)
    ensures Pieces(tokens) == [tokens]
  {
    if tokens != [] {
      assert forall i :: 0 <= i < |tokens| - 1 ==> tokens[1..][i] == tokens[i + 1];
      OnePiece(tokens[1..]);
      assert [tokens[0]] + tokens[1..] == tokens;
    }
  }

  /** The pieces when `begun` are the first tokens of the first one. */
  function PiecesAfter(begun: seq<Token>, tokens: seq<Token>): seq<seq<Token>>
    decreases |tokens|
  {
    if tokens == [] then [begun]
    else if tokens[0].Semi? then [begun] + PiecesAfter([], tokens[1..])
    else PiecesAfter(begun + [tokens[0]], tokens[1..])
  }

  lemma {:induction false} PiecesAfterIs(begun: seq<Token>, tokens: seq<Token>)
    ensures PiecesAfter(begun, tokens) == [begun + Pieces(tokens)[0]] + Pieces(tokens)[1..]
    decreases |tokens|
  {
    if tokens == [] {
      assert begun + [] == begun;
    } else {
      var rest := Pieces(tokens[1..]);
      if tokens[0].Semi? {
        PiecesAfterIs([], tokens[1..]);
        assert begun + [] == begun && [] + rest[0] == rest[0];
      } else {
        PiecesAfterIs(begun + [tokens[0]], tokens[1..]);
        assert begun + [tokens[0]] + rest[0] == begun + ([tokens[0]] + rest[0]);
      }
    }
  }

  /** The raw chunks are the texts of the pieces. */
  lemma {:induction false} ChunksArePieces(begun: seq<Token>, tokens: seq<Token>)
    ensures Chunks(Unlex(begun), tokens) == Texts(PiecesAfter(begun, tokens))
    decreases |tokens|
  {
    if tokens != [] {
      if tokens[0].Semi? {
        ChunksArePieces([], tokens[1..]);
      } else {
        ChunksArePieces(begun + [tokens[0]], tokens[1..]);
        UnlexJoin(begun, [tokens[0]]);
        assert Unlex([tokens[0]]) == TextOf(tokens[0]);
      }
    }
  }

  /** A piece that holds no semicolon and reads alone as it reads in the file. */
  ghost predicate Alone(piece: seq<Token>) {
    Formed(piece) && NoSemi(piece)
  }

  ghost predicate AllAlone(pieces: seq<seq<Token>>) {
    forall i :: 0 <= i < |pieces| ==> Alone(pieces[i])
  }

  lemma AllAloneCons(piece: seq<Token>, pieces: seq<seq<Token>>)
    requires Alone(piece) && AllAlone(pieces)
    ensures AllAlone([piece] + pieces)
  {
  }

  lemma {:induction false} PiecesAlone(begun: seq<Token>, tokens: seq<Token>)
    requires Formed(begun + tokens) && NoSemi(begun)
    ensures AllAlone(PiecesAfter(begun, tokens))
    decreases |tokens|
  {
    if tokens == [] {
      assert begun + tokens == begun;
    } else {
      var t, rest := tokens[0], tokens[1..];
      assert tokens == [t] + rest;
      if t.Semi? {
        FormedBefore(begun, rest);
        assert [] + rest == rest;
        PiecesAlone([], rest);
        AllAloneCons(begun, PiecesAfter([], rest));
      } else {
        assert begun + tokens == begun + [t] + rest;
        PiecesAlone(begun + [t], rest);
      }
    }
  }

  lemma PiecesOf(tokens: seq<Token>)
    ensures PiecesAfter([], tokens) == Pieces(tokens)
  {
    PiecesAfterIs([], tokens);
    assert [] + Pieces(tokens)[0] == Pieces(tokens)[0];
  }

  /** A piece, read by itself, is the same tokens as in the file. */
  lemma PiecesReadAlone(body: string)
    ensures AllAlone(Pieces(Lex(body)))
    ensures forall i :: 0 <= i < |Pieces(Lex(body))| ==> Lex(Unlex(Pieces(Lex(body))[i])) == Pieces(Lex(body))[i]
  {
    var tokens := Lex(body);
    LexIsFormed(body);
    assert [] + tokens == tokens;
    PiecesAlone([], tokens);
    PiecesOf(tokens);
    forall i | 0 <= i < |Pieces(tokens)| ensures Lex(Unlex(Pieces(tokens)[i])) == Pieces(tokens)[i] {
      assert Alone(Pieces(tokens)[i]);
      LexIsUnique(Pieces(tokens)[i]);
    }
  }

  lemma {:induction false} AddedTexts(pieces: seq<seq<Token>>)
    requires forall i :: 0 <= i < |pieces| ==> Lex(Unlex(pieces[i])) == pieces[i]
    ensures AddedAll(Texts(pieces)) == Keep(pieces)
  {
    if pieces != [] {
      assert Texts(pieces)[1..] == Texts(pieces[1..]);
      AddedTexts(pieces[1..]);
    }
  }

  /** The statements of a file, seen from its start. */
  lemma StatementsAhead(body: string)
    ensures Statements(body) == AddedAll(Ahead("", false, false, body))
  {
    var tokens := Lex(body);
    PiecesReadAlone(body);
    AddedTexts(Pieces(tokens));
    PiecesOf(tokens);
    ChunksArePieces([], tokens);
    assert "" + body[..0] == "" && body[0..] == body;
  }

  lemma {:induction false} KeptPiece(pieces: seq<seq<Token>>, stmt: string)
    ensures stmt in Keep(pieces) <==> exists i :: 0 <= i < |pieces| && Sql(pieces[i]) && stmt == TrimSpace(Unlex(pieces[i]))
  {
    if pieces != [] {
      KeptPiece(pieces[1..], stmt);
      assert forall i :: 0 <= i < |pieces| - 1 ==> pieces[1..][i] == pieces[i + 1];
      if stmt in Keep(pieces[1..]) {
        var i :| 0 <= i < |pieces| - 1 && Sql(pieces[1..][i]) && stmt == TrimSpace(Unlex(pieces[1..][i]));
        assert Sql(pieces[i + 1]);
      }
    }
  }

  /** A returned statement, split again, gives just itself. */
  lemma StatementsStandAlone(body: string, stmt: string)
    requires stmt in Statements(body)
    ensures Statements(stmt) == [stmt]
  {
    var pieces := Pieces(Lex(body));
    KeptPiece(pieces, stmt);
    var i :| 0 <= i < |pieces| && Sql(pieces[i]) && stmt == TrimSpace(Unlex(pieces[i]));
    PiecesReadAlone(body);
    assert Alone(pieces[i]);
    TrimmedStandsAlone(Unlex(pieces[i]));
  }

  lemma TrimmedStandsAlone(s: string)
    requires NoSemi(Lex(s)) && Sql(Lex(s))
    ensures Statements(TrimSpace(s)) == [TrimSpace(s)]
  {
    var stmt := TrimSpace(s);
    NoSemiTrimLeft(s);
    NoSemiTrimRight(TrimLeft(s));
    OnePiece(Lex(stmt));
    SqlTrimmed(s);
    UnlexLex(stmt);
    TrimAgain(s);
    assert Keep([Lex(stmt)]) == [stmt] + Keep([]);
  }
}
