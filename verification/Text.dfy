/** White space and trimming, as the Go standard library defines them. */
module Text {

  predicate IsSpace(c: char) {
    || c in {'\t', '\n', '\U{000B}', '\U{000C}', '\r', ' ', '\U{0085}', '\U{00A0}', '\U{1680}', '\U{2028}', '\U{2029}', '\U{202F}', '\U{205F}', '\U{3000}'}
    || '\U{2000}' <= c <= '\U{200A}'
  }

  predicate Blank(s: string) {
    forall i :: 0 <= i < |s| ==> IsSpace(s[i])
  }

  /** `s` without the white space at its start. */
  function TrimLeft(s: string): string {
    if s != "" && IsSpace(s[0]) then TrimLeft(s[1..]) else s
  }

  /** `s` without the white space at its end. */
  function TrimRight(s: string): string {
    if s != "" && IsSpace(s[|s| - 1]) then TrimRight(s[..|s| - 1]) else s
  }

  function TrimSpace(s: string): string {
    TrimRight(TrimLeft(s))
  }

  lemma {:induction false} TrimmedLeft(s: string)
    ensures var r := TrimLeft(s);
      |r| <= |s| && s[|s| - |r|..] == r && Blank(s[..|s| - |r|]) && (r != "" ==> !IsSpace(r[0]))
  {
    if s != "" && IsSpace(s[0]) {
      TrimmedLeft(s[1..]);
      var r := TrimLeft(s);
      assert s[|s| - |r|..] == s[1..][|s[1..]| - |r|..];
      assert forall i :: 0 < i < |s| - |r| ==> s[i] == s[1..][..|s[1..]| - |r|][i - 1];
    }
  }

  lemma {:induction false} TrimmedRight(s: string)
    ensures var r := TrimRight(s);
      |r| <= |s| && s[..|r|] == r && Blank(s[|r|..]) && (r != "" ==> !IsSpace(r[|r| - 1]))
  {
    if s != "" && IsSpace(s[|s| - 1]) {
      TrimmedRight(s[..|s| - 1]);
      var r := TrimRight(s);
      assert s[..|r|] == s[..|s| - 1][..|r|];
      assert forall i :: 0 <= i < |s| - 1 - |r| ==> s[|r|..][i] == s[..|s| - 1][|r|..][i];
    }
  }

  lemma TrimAgain(s: string)
    ensures TrimSpace(TrimSpace(s)) == TrimSpace(s)
  {
    TrimmedLeft(s);
    TrimmedRight(TrimLeft(s));
    var t := TrimSpace(s);
    if t != "" { assert t[0] == TrimLeft(s)[0]; }
  }

  /** Nothing is left of a text exactly when it is all white space. */
  lemma TrimmedAway(s: string)
    ensures TrimSpace(s) == "" <==> Blank(s)
  {
    TrimmedLeft(s);
    TrimmedRight(TrimLeft(s));
    var t := TrimLeft(s);
    assert t != "" ==> s[|s| - |t|] == t[0];
    assert TrimSpace(s) == "" ==> Blank(t) by { assert t[0..] == t; }
    assert t == "" ==> s[..|s|] == s;
  }
}
