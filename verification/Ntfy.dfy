/** The size of an ntfy message: text cut at a limit in bytes, measured as JSON,
    and cut once more when the measure is over. */
module Ntfy {

  type byte = b: int | 0 <= b < 256

  // --- Characters ----------------------------------------------------------------------------

  /** A byte that does not continue a character. */
  predicate RuneStart(b: byte) {
    !Tail(b)
  }

  predicate Tail(b: byte) {
    0x80 <= b < 0xC0
  }

  /** How many bytes a character takes that starts with `b`; none for a byte that
      starts no character. */
  function Width(b: byte): nat {
    if b < 0x80 then 1
    else if 0xC2 <= b < 0xE0 then 2
    else if 0xE0 <= b < 0xF0 then 3
    else if 0xF0 <= b < 0xF5 then 4
    else 0
  }

  /** May `c` follow the first byte `b`? Overlong forms, surrogates and values past
      the last code point are shut out here. */
  predicate Second(b: byte, c: byte) {
    Tail(c) && (b == 0xE0 ==> c >= 0xA0) && (b == 0xED ==> c < 0xA0) && (b == 0xF0 ==> c >= 0x90) && (b == 0xF4 ==> c < 0x90)
  }

  predicate WellFormed(s: seq<byte>)
    requires s != []
  {
    var w := Width(s[0]);
    && 0 < w <= |s|
    && (w >= 2 ==> Second(s[0], s[1]))
    && (w >= 3 ==> Tail(s[2]))
    && (w >= 4 ==> Tail(s[3]))
  }

  /** The bytes of the first character; a byte that is part of none counts alone. */
  function Size(s: seq<byte>): (n: nat)
    requires s != []
    ensures 0 < n <= |s|
  {
    if WellFormed(s) then Width(s[0]) else 1
  }

  function Characters(s: seq<byte>): (r: seq<seq<byte>>)
    ensures forall i :: 0 <= i < |r| ==> r[i] != []
    decreases |s|
  {
    if s == [] then [] else [s[..Size(s)]] + Characters(s[Size(s)..])
  }

  predicate Utf8(s: seq<byte>) {
    forall c :: c in Characters(s) ==> c != [] && WellFormed(c)
  }

  // --- JSON --------------------------------------------------------------------------------------

  function Hex(n: nat): byte
    requires n < 16
  {
    if n < 10 then 0x30 + n else 0x61 + n - 10
  }

  /** An escape of six bytes: backslash, u and four hexadecimal digits. */
  function Escape(code: nat): (e: seq<byte>)
    requires code < 0x10000
    ensures |e| == 6
  {
    [0x5C, 0x75, Hex(code / 4096), Hex(code / 256 % 16), Hex(code / 16 % 16), Hex(code % 16)]
  }

  /** A character as it stands in a JSON string. Only the quote, the backslash,
      control characters, the two Unicode line separators and bytes that are no
      character are changed. */
  function Piece(c: seq<byte>): (e: seq<byte>)
    requires c != []
    ensures |e| >= Size(c)
  {
    if !WellFormed(c) then Escape(0xFFFD)
    else if c[0] == 0x22 || c[0] == 0x5C then [0x5C, c[0]]
    else if c[0] == 0x08 then [0x5C, 0x62]
    else if c[0] == 0x09 then [0x5C, 0x74]
    else if c[0] == 0x0A then [0x5C, 0x6E]
    else if c[0] == 0x0C then [0x5C, 0x66]
    else if c[0] == 0x0D then [0x5C, 0x72]
    else if c[0] < 0x20 then Escape(c[0])
    else if c[0] == 0xE2 && c[1] == 0x80 && c[2] == 0xA8 then Escape(0x2028)
    else if c[0] == 0xE2 && c[1] == 0x80 && c[2] == 0xA9 then Escape(0x2029)
    else c[..Size(c)]
  }

  function Pieces(chars: seq<seq<byte>>): seq<byte>
    requires forall i :: 0 <= i < |chars| ==> chars[i] != []
  {
    if chars == [] then [] else Piece(chars[0]) + Pieces(chars[1..])
  }

  /** The inside of the JSON string. */
  function Encoded(s: seq<byte>): seq<byte> {
    Pieces(Characters(s))
  }

  /** The first character, cut out, is still one character. */
  lemma FirstAlone(s: seq<byte>)
    requires s != []
    ensures Size(s[..Size(s)]) == Size(s) && (WellFormed(s[..Size(s)]) <==> WellFormed(s))
  {
  }

  lemma FirstEncoded(s: seq<byte>)
    requires s != []
    ensures Encoded(s) == Piece(s[..Size(s)]) + Encoded(s[Size(s)..])
  {
  }

  /** No text encodes shorter than it is. */
  lemma {:induction false} NeverShorter(s: seq<byte>)
    ensures |Encoded(s)| >= |s|
    decreases |s|
  {
    if s != [] {
      FirstAlone(s);
      FirstEncoded(s);
      NeverShorter(s[Size(s)..]);
    }
  }

  ghost predicate Boundary(s: seq<byte>, k: nat) {
    k <= |s| && (k == 0 || k == |s| || RuneStart(s[k]))
  }

  /** The first character does not reach across a boundary. */
  lemma FirstWithin(x: seq<byte>, y: seq<byte>)
    requires x != [] && (y == [] || RuneStart(y[0]))
    ensures Size(x + y) == Size(x) && (x + y)[..Size(x)] == x[..Size(x)]
  {
  }

  /** A text cut at a boundary keeps its characters. */
  lemma {:induction false} CharactersInTwo(x: seq<byte>, y: seq<byte>)
    requires y == [] || RuneStart(y[0])
    ensures Characters(x + y) == Characters(x) + Characters(y)
    decreases |x|
  {
    if x == [] {
      assert x + y == y;
    } else {
      FirstWithin(x, y);
      assert (x + y)[Size(x)..] == x[Size(x)..] + y;
      CharactersInTwo(x[Size(x)..], y);
    }
  }

  lemma {:induction false} PiecesInTwo(a: seq<seq<byte>>, b: seq<seq<byte>>)
    requires forall i :: 0 <= i < |a| ==> a[i] != []
    requires forall i :: 0 <= i < |b| ==> b[i] != []
    ensures Pieces(a + b) == Pieces(a) + Pieces(b)
  {
    if a == [] {
      assert a + b == b;
    } else {
      assert (a + b)[1..] == a[1..] + b;
      PiecesInTwo(a[1..], b);
    }
  }

  lemma EncodedInTwo(x: seq<byte>, y: seq<byte>)
    requires y == [] || RuneStart(y[0])
    ensures Encoded(x + y) == Encoded(x) + Encoded(y)
    ensures Utf8(x + y) <==> Utf8(x) && Utf8(y)
  {
    CharactersInTwo(x, y);
    PiecesInTwo(Characters(x), Characters(y));
  }

  // --- Cutting -----------------------------------------------------------------------------------

  /** "… [truncated]" */
  const MARK: seq<byte> := ELLIPSIS + WORD
  const ELLIPSIS: seq<byte> := [0xE2, 0x80, 0xA6]
  const WORD: seq<byte> := [0x20, 0x5B, 0x74, 0x72, 0x75, 0x6E, 0x63, 0x61, 0x74, 0x65, 0x64, 0x5D]

  function Larger(x: int, y: int): int {
    if x > y then x else y
  }

  /** The last boundary at or before `k`. */
  function LastBoundary(s: seq<byte>, k: nat): (r: nat)
    requires k < |s|
    ensures r <= k && Boundary(s, r) && forall j :: r < j <= k ==> !Boundary(s, j)
  {
    if k == 0 || RuneStart(s[k]) then k else LastBoundary(s, k - 1)
  }

  function Clipped(s: seq<byte>, n: nat): seq<byte> {
    if |s| <= n then s else s[..LastBoundary(s, Larger(n - |MARK|, 0))] + MARK
  }

  method ClipBytes(s: seq<byte>, n: nat) returns (r: seq<byte>)
    ensures r == Clipped(s, n)
  {
    if |s| <= n { return s; }
    var keep := Larger(n - |MARK|, 0);
    while keep > 0 && !RuneStart(s[keep])
      invariant 0 <= keep < |s| && LastBoundary(s, keep) == LastBoundary(s, Larger(n - |MARK|, 0))
    {
      keep := keep - 1;
    }
    r := s[..keep] + MARK;
  }

  /** `m` is `s`, or a start of `s` that ends between characters, and the mark. */
  ghost predicate CutOf(m: seq<byte>, s: seq<byte>) {
    m == s || exists k: nat :: Boundary(s, k) && k < |s| && m == s[..k] + MARK
  }

  /** The mark encodes as itself, and nothing runs into it. */
  ghost predicate Plain(mark: seq<byte>) {
    mark != [] && RuneStart(mark[0]) && Encoded(mark) == mark && Utf8(mark)
  }

  lemma MarkedStaysUtf8(s: seq<byte>, k: nat, mark: seq<byte>)
    requires k < |s| && Boundary(s, k) && Utf8(s) && Plain(mark)
    ensures Utf8(s[..k] + mark)
  {
    assert s == s[..k] + s[k..];
    if k == 0 {
      assert s[..k] + mark == mark;
    } else {
      EncodedInTwo(s[..k], s[k..]);
      EncodedInTwo(s[..k], mark);
    }
  }

  lemma CutStaysUtf8(m: seq<byte>, s: seq<byte>)
    requires CutOf(m, s) && Utf8(s) && Plain(MARK)
    ensures Utf8(m)
  {
    if m != s {
      var k: nat :| Boundary(s, k) && k < |s| && m == s[..k] + MARK;
      MarkedStaysUtf8(s, k, MARK);
    }
  }

  lemma MarkIsPlain()
    ensures Plain(MARK)
  {
    var word: seq<byte> :| word == WORD;
    PlainAscii(word);
    EllipsisFirst(word);
  }

  lemma EllipsisFirst(rest: seq<byte>)
    ensures Encoded(ELLIPSIS + rest) == ELLIPSIS + Encoded(rest)
    ensures Utf8(ELLIPSIS + rest) <==> Utf8(rest)
  {
  }

  lemma {:induction false} PlainAscii(s: seq<byte>)
    requires forall i :: 0 <= i < |s| ==> 0x20 <= s[i] < 0x80 && s[i] != 0x22 && s[i] != 0x5C
    ensures Encoded(s) == s && Utf8(s)
  {
    if s != [] {
      PlainAscii(s[1..]);
      assert s[..1] == [s[0]] && Piece(s[..1]) == [s[0]];
      FirstEncoded(s);
    }
  }

  // --- The message -----------------------------------------------------------------------------

  const MESSAGE_MAX: nat := 4000
  const BODY_MAX: nat := 8192

  lemma ClippedIsCut(s: seq<byte>, n: nat)
    ensures CutOf(Clipped(s, n), s)
    ensures n >= |MARK| ==> |Clipped(s, n)| <= n
  {
  }

  /** Cutting a text already cut, to less than it is, cuts before the old mark. */
  lemma CutAgain(s: seq<byte>, n: nat, m: seq<byte>)
    requires CutOf(m, s) && n < |m|
    ensures CutOf(Clipped(m, n), s)
  {
    var k := LastBoundary(m, Larger(n - |MARK|, 0));
    if m == s {
      ClippedIsCut(s, n);
    } else {
      var j: nat :| Boundary(s, j) && j < |s| && m == s[..j] + MARK;
      assert k <= j;
      assert m[..k] == s[..k];
      assert k < j ==> m[k] == s[k];
      assert Boundary(s, k) && Clipped(m, n) == s[..k] + MARK;
    }
  }

  /** The text after the second cut, for a body `over` bytes too long. */
  function Recut(m: seq<byte>, over: nat): seq<byte> {
    Clipped(m, Larger(|m| - over, 0))
  }

  /** The part cut off was at least as long encoded, and the mark is as long
      encoded as it is. */
  lemma CutSize(m: seq<byte>, k: nat, mark: seq<byte>)
    requires k < |m| && Boundary(m, k) && Plain(mark)
    ensures |mark| <= |Encoded(m[..k] + mark)| <= |Encoded(m)| - (|m| - k) + |mark|
    ensures k == 0 ==> |Encoded(m[..k] + mark)| == |mark|
  {
    assert m == m[..k] + m[k..];
    NeverShorter(m[k..]);
    if k == 0 {
      assert m[..k] + mark == mark && m[k..] == m;
    } else {
      EncodedInTwo(m[..k], m[k..]);
      EncodedInTwo(m[..k], mark);
    }
  }

  /** What is left is shorter by `over`, or is the mark alone. */
  lemma RecutSize(m: seq<byte>, over: nat)
    requires m != [] && over > 0 && Plain(MARK)
    ensures |Encoded(Recut(m, over))| >= |MARK|
    ensures |Encoded(Recut(m, over))| <= Larger(|Encoded(m)| - over, |MARK|)
  {
    CutSize(m, LastBoundary(m, Larger(Larger(|m| - over, 0) - |MARK|, 0)), MARK);
  }

  /** The body around the message: what stands before and after its text. */
  function Body(head: seq<byte>, m: seq<byte>, tail: seq<byte>): seq<byte> {
    head + Encoded(m) + tail
  }

  /** The text that is sent. */
  function Final(head: seq<byte>, text: seq<byte>, tail: seq<byte>): seq<byte> {
    var m := Clipped(text, MESSAGE_MAX);
    var over := |Body(head, m, tail)| - BODY_MAX;
    if over > 0 then Recut(m, over) else m
  }

  method Send(head: seq<byte>, text: seq<byte>, tail: seq<byte>) returns (body: seq<byte>)
    ensures body == Body(head, Final(head, text, tail), tail)
  {
    var m := ClipBytes(text, MESSAGE_MAX);
    body := Body(head, m, tail);
    var over := |body| - BODY_MAX;
    if over > 0 {
      m := ClipBytes(m, Larger(|m| - over, 0));
      body := Body(head, m, tail);
    }
  }

  /** The body fits if the first encoding did, and otherwise exactly if there is
      room for the mark: one more cut is enough. */
  lemma BodyFitsIff(head: seq<byte>, text: seq<byte>, tail: seq<byte>)
    ensures |Body(head, Final(head, text, tail), tail)| <= BODY_MAX <==>
      |Body(head, Clipped(text, MESSAGE_MAX), tail)| <= BODY_MAX || |head| + |MARK| + |tail| <= BODY_MAX
  {
    var m := Clipped(text, MESSAGE_MAX);
    var over := |Body(head, m, tail)| - BODY_MAX;
    ClippedIsCut(text, MESSAGE_MAX);
    if over > 0 { RecutFits(head, text, m, tail, over); }
  }

  /** So there is a text whose body is too long, if and only if what stands around
      it leaves no room for the mark. */
  lemma EveryTextFitsIff(head: seq<byte>, tail: seq<byte>)
    ensures (forall text :: |Body(head, Final(head, text, tail), tail)| <= BODY_MAX) <==> |head| + |MARK| + |tail| <= BODY_MAX
  {
    if |head| + |MARK| + |tail| <= BODY_MAX {
      forall text ensures |Body(head, Final(head, text, tail), tail)| <= BODY_MAX { BodyFitsIff(head, text, tail); }
    } else {
      TooLong(head, Letters(|MARK| + 1), tail);
    }
  }

  function Letters(n: nat): (s: seq<byte>)
    ensures |s| == n && forall i :: 0 <= i < n ==> s[i] == 0x61
  {
    seq(n, _ => 0x61)
  }

  /** No text longer than the mark fits where the mark does not. */
  lemma TooLong(head: seq<byte>, text: seq<byte>, tail: seq<byte>)
    requires |head| + |MARK| + |tail| > BODY_MAX && |MARK| < |text| <= MESSAGE_MAX
    ensures |Body(head, Final(head, text, tail), tail)| > BODY_MAX
  {
    NeverShorter(text);
    BodyFitsIff(head, text, tail);
  }

  /** The text is never cut inside a character, carries one mark at most, and
      stays within the message limit. */
  lemma FinalIsCut(head: seq<byte>, text: seq<byte>, tail: seq<byte>)
    ensures CutOf(Final(head, text, tail), text) && |Final(head, text, tail)| <= MESSAGE_MAX
    ensures Utf8(text) ==> Utf8(Final(head, text, tail))
  {
    var m := Clipped(text, MESSAGE_MAX);
    var over := |Body(head, m, tail)| - BODY_MAX;
    ClippedIsCut(text, MESSAGE_MAX);
    if over > 0 { RecutFits(head, text, m, tail, over); }
    if Utf8(text) {
      MarkIsPlain();
      CutStaysUtf8(Final(head, text, tail), text);
    }
  }

  lemma RecutFits(head: seq<byte>, text: seq<byte>, m: seq<byte>, tail: seq<byte>, over: nat)
    requires CutOf(m, text) && |m| <= MESSAGE_MAX && |Body(head, m, tail)| - over == BODY_MAX && over > 0
    ensures CutOf(Recut(m, over), text) && |Recut(m, over)| <= MESSAGE_MAX
    ensures |Body(head, Recut(m, over), tail)| <= BODY_MAX <==> |head| + |MARK| + |tail| <= BODY_MAX
  {
    if m != [] {
      MarkIsPlain();
      RecutSize(m, over);
      CutAgain(text, Larger(|m| - over, 0), m);
    }
  }
}
