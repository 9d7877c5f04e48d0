/** The lexical structure of a migration file: line comments, quoted literals
    and the semicolons outside both. */
module SqlLexer {
  // --- Tokens -----------------------------------------------------------------------------

  datatype Token = Semi | Plain(c: char) | Comment(text: string) | Literal(text: string)

  function TextOf(t: Token): string {
    match t
    case Semi => ";"
    case Plain(c) => [c]
    case Comment(text) => text
    case Literal(text) => text
  }

  function Unlex(tokens: seq<Token>): string {
    if tokens == [] then "" else TextOf(tokens[0]) + Unlex(tokens[1..])
  }

  predicate Starts(s: string, c: char) {
    s != "" && s[0] == c
  }

  predicate Dashes(s: string) {
    |s| > 1 && s[0] == '-' && s[1] == '-'
  }

  /** Every quote stands beside another: the inside of a literal. */
  predicate Paired(s: string) {
    if s == "" then true
    else if s[0] != '\'' then Paired(s[1..])
    else |s| > 1 && s[1] == '\'' && Paired(s[2..])
  }

  predicate Closed(text: string) {
    |text| > 1 && text[0] == '\'' && text[|text| - 1] == '\'' && Paired(text[1..|text| - 1])
  }

  /** May `t` stand before `rest`? A comment runs to the end of its line and a
      literal to its closing quote, or either to the end of the file. */
  predicate Fits(t: Token, rest: string) {
    match t
    case Semi => true
    case Plain(c) => c != ';' && c != '\'' && !(c == '-' && Starts(rest, '-'))
    case Comment(text) =>
      Dashes(text) && (forall i :: 0 <= i < |text| - 1 ==> text[i] != '\n') && (text[|text| - 1] == '\n' || rest == "")
    case Literal(text) =>
      || (Closed(text) && !Starts(rest, '\''))
      || (Starts(text, '\'') && Paired(text[1..]) && rest == "")
  }

  predicate Formed(tokens: seq<Token>) {
    tokens == [] || (Fits(tokens[0], Unlex(tokens[1..])) && Formed(tokens[1..]))
  }

  /** How much of `s` belongs to the comment it is in. */
  function CommentLength(s: string): (n: nat)
    ensures n <= |s| && (s != "" ==> n > 0)
  {
    if s == "" then 0 else if s[0] == '\n' then 1 else 1 + CommentLength(s[1..])
  }

  /** How much of `s` belongs to the literal it is in. */
  function LiteralLength(s: string): (n: nat)
    ensures n <= |s|
  {
    if s == "" then 0
    else if s[0] != '\'' then 1 + LiteralLength(s[1..])
    else if |s| > 1 && s[1] == '\'' then 2 + LiteralLength(s[2..])
    else 1
  }

  /** The length of the first token of `s`. */
  function Length(s: string): (n: nat)
    requires s != ""
    ensures 0 < n <= |s|
  {
    if Dashes(s) then CommentLength(s) else if s[0] == '\'' then 1 + LiteralLength(s[1..]) else 1
  }

  function First(s: string): Token
    requires s != ""
  {
    if Dashes(s) then Comment(s[..Length(s)])
    else if s[0] == '\'' then Literal(s[..Length(s)])
    else if s[0] == ';' then Semi
    else Plain(s[0])
  }

  function Lex(s: string): seq<Token>
    decreases |s|
  {
    if s == "" then [] else [First(s)] + Lex(s[Length(s)..])
  }

  lemma TextOfFirst(s: string)
    requires s != ""
    ensures TextOf(First(s)) == s[..Length(s)]
  {
  }

  // --- The lexer finds the one well-formed reading --------------------------------------------

  lemma {:induction false} UnlexLex(s: string)
    ensures Unlex(Lex(s)) == s
    decreases |s|
  {
    if s != "" {
      var t, rest := First(s), s[Length(s)..];
      TextOfFirst(s);
      UnlexLex(rest);
      UnlexCons(t, Lex(rest));
    }
  }

  lemma UnlexCons(t: Token, tokens: seq<Token>)
    ensures Unlex([t] + tokens) == TextOf(t) + Unlex(tokens)
  {
  }

  lemma {:induction false} CommentEnds(s: string)
    ensures var n := CommentLength(s);
      (forall i :: 0 <= i < n - 1 ==> s[i] != '\n') && (n < |s| ==> n > 0 && s[n - 1] == '\n')
  {
    if s != "" && s[0] != '\n' {
      CommentEnds(s[1..]);
      assert forall i :: 1 <= i < CommentLength(s) - 1 ==> s[i] == s[1..][i - 1];
    }
  }

  lemma {:induction false} CommentLengthOf(s: string, n: nat)
    requires n <= |s| && (s != "" ==> n > 0) && (forall i :: 0 <= i < n - 1 ==> s[i] != '\n')
    requires n == |s| || s[n - 1] == '\n'
    ensures CommentLength(s) == n
  {
    if n > 1 {
      assert s[0] != '\n';
      CommentLengthOf(s[1..], n - 1);
    } else if n == 1 && s[0] != '\n' {
      assert s[1..] == "";
    }
  }

  /** Inside a literal: up to the closing quote, or to the end. */
  ghost predicate Inside(s: string, n: nat) {
    && n <= |s|
    && ((n > 0 && s[n - 1] == '\'' && Paired(s[..n - 1]) && !Starts(s[n..], '\'')) || (n == |s| && Paired(s)))
  }

  lemma {:induction false} LiteralEnds(s: string)
    ensures Inside(s, LiteralLength(s))
    decreases |s|
  {
    if s != "" {
      var k := if s[0] != '\'' then 1 else 2;
      if k == 1 || (|s| > 1 && s[1] == '\'') {
        LiteralEnds(s[k..]);
        InsideStep(s, k, LiteralLength(s[k..]));
      }
    }
  }

  /** What is inside stays inside when one character, or a pair of quotes, is put before it. */
  lemma InsideStep(s: string, k: nat, n: nat)
    requires k == 1 || k == 2
    requires k <= |s| && if k == 1 then s[0] != '\'' else s[0] == '\'' && s[1] == '\''
    requires k + n <= |s|
    ensures Inside(s[k..], n) ==> Inside(s, k + n)
    ensures Inside(s, k + n) && (n > 0 || k + n == |s|) ==> Inside(s[k..], n)
  {
    assert s[k..][n..] == s[k + n..];
    if n > 0 {
      assert s[..k + n - 1][k..] == s[k..][..n - 1];
      assert s[k..][n - 1] == s[k + n - 1];
    }
  }

  lemma {:induction false} LiteralLengthOf(s: string, n: nat)
    requires Inside(s, n)
    ensures LiteralLength(s) == n
    decreases |s|
  {
    if s != "" {
      if s[0] != '\'' {
        InsideStep(s, 1, n - 1);
        LiteralLengthOf(s[1..], n - 1);
      } else if |s| > 1 && s[1] == '\'' {
        NotAtFirst(s, n);
        InsideStep(s, 2, n - 2);
        LiteralLengthOf(s[2..], n - 2);
      }
    }
  }

  /** A pair of quotes is not the end of a literal. */
  lemma NotAtFirst(s: string, n: nat)
    requires Inside(s, n) && |s| > 1 && s[0] == '\'' && s[1] == '\''
    ensures n > 2 || n == |s| == 2
  {
  }

  lemma FirstFits(s: string)
    requires s != ""
    ensures Fits(First(s), s[Length(s)..])
  {
    var t, n := First(s), Length(s);
    if t.Comment? {
      CommentEnds(s);
    } else if t.Literal? {
      LiteralEnds(s[1..]);
      assert s[1..][n - 1..] == s[n..];
      assert s[..n][1..] == s[1..][..n - 1];
      assert s[1..][..|s| - 1] == s[1..];
      if n > 1 { assert s[..n][1..n - 1] == s[1..][..n - 2]; }
    }
  }

  lemma {:induction false} LexIsFormed(s: string)
    ensures Formed(Lex(s))
    decreases |s|
  {
    if s != "" {
      var rest := s[Length(s)..];
      FirstFits(s);
      LexIsFormed(rest);
      UnlexLex(rest);
      assert Lex(s)[1..] == Lex(rest);
    }
  }

  lemma FittingIsFirst(t: Token, rest: string)
    requires Fits(t, rest)
    ensures TextOf(t) != "" && First(TextOf(t) + rest) == t && Length(TextOf(t) + rest) == |TextOf(t)|
  {
    var s := TextOf(t) + rest;
    match t
    case Semi =>
    case Plain(c) => assert rest != "" ==> s[1] == rest[0];
    case Comment(text) =>
      CommentLengthOf(s, |text|);
    case Literal(text) =>
      var n := |text| - 1;
      assert s[1..][n..] == rest;
      assert s[1..][..n] == text[1..];
      assert rest == "" ==> s[1..] == text[1..];
      if Closed(text) && !Starts(rest, '\'') { assert s[1..][..n - 1] == text[1..|text| - 1]; }
      LiteralLengthOf(s[1..], n);
  }

  /** A file has no other well-formed reading. */
  lemma {:induction false} LexIsUnique(tokens: seq<Token>)
    requires Formed(tokens)
    ensures Lex(Unlex(tokens)) == tokens
    decreases |tokens|
  {
    if tokens != [] {
      var t, rest := tokens[0], Unlex(tokens[1..]);
      FittingIsFirst(t, rest);
      LexIsUnique(tokens[1..]);
      assert (TextOf(t) + rest)[|TextOf(t)|..] == rest;
    }
  }

  lemma LexIsTheReading(tokens: seq<Token>, s: string)
    ensures tokens == Lex(s) <==> Formed(tokens) && Unlex(tokens) == s
  {
    UnlexLex(s);
    LexIsFormed(s);
    if Formed(tokens) && Unlex(tokens) == s { LexIsUnique(tokens); }
  }
}
