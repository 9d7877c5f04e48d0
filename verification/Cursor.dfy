/** The page cursor: a timestamp and an identifier in URL-safe base64 without
    padding. Texts here are byte strings: every character is below 256. */
module Cursor {
  import opened Domain

  predicate Bytes(s: string) {
    forall i :: 0 <= i < |s| ==> s[i] as int < 256
  }

  // --- Base64 ------------------------------------------------------------------------------

  function Letter(n: nat): char
    requires n < 64
  {
    if n < 26 then 'A' + n as char
    else if n < 52 then 'a' + (n - 26) as char
    else if n < 62 then '0' + (n - 52) as char
    else if n == 62 then '-' else '_'
  }

  function Value(c: char): Option<nat> {
    if 'A' <= c <= 'Z' then Some(c as int - 'A' as int)
    else if 'a' <= c <= 'z' then Some(c as int - 'a' as int + 26)
    else if '0' <= c <= '9' then Some(c as int - '0' as int + 52)
    else if c == '-' then Some(62)
    else if c == '_' then Some(63)
    else None
  }

  lemma ValueOfLetter(n: nat)
    requires n < 64
    ensures Value(Letter(n)) == Some(n)
    ensures Letter(n) != '\n' && Letter(n) != '\r'
  {
  }

  function Byte(c: char): nat {
    c as int
  }

  function Split(a: char, b: char, c: char): (q: seq<nat>)
    requires Byte(a) < 256 && Byte(b) < 256 && Byte(c) < 256
    ensures |q| == 4 && forall i :: 0 <= i < 4 ==> q[i] < 64
  {
    [Byte(a) / 4, Byte(a) % 4 * 16 + Byte(b) / 16, Byte(b) % 16 * 4 + Byte(c) / 64, Byte(c) % 64]
  }

  /** Three bytes become four groups of six bits; one or two bytes left over
      become two or three. */
  function Groups(s: string): (q: seq<nat>)
    requires Bytes(s)
    ensures forall i :: 0 <= i < |q| ==> q[i] < 64
  {
    if s == "" then []
    else if |s| == 1 then Split(s[0], '\0', '\0')[..2]
    else if |s| == 2 then Split(s[0], s[1], '\0')[..3]
    else
      Split(s[0], s[1], s[2]) + Groups(s[3..])
  }

  function ByteOf(n: nat): char {
    (n % 256) as char
  }

  /** Four groups give three bytes; a rest of one group is an error, and the
      unused bits of a rest of two or three are ignored. */
  function FromGroups(q: seq<nat>): Result<string> {
    if q == [] then Ok("")
    else if |q| == 1 then Err(Validation)
    else if |q| == 2 then Ok([ByteOf(q[0] * 4 + q[1] / 16)])
    else if |q| == 3 then Ok([ByteOf(q[0] * 4 + q[1] / 16), ByteOf(q[1] % 16 * 16 + q[2] / 4)])
    else
      var rest := FromGroups(q[4..]);
      if rest.Err? then rest else
        Ok([ByteOf(q[0] * 4 + q[1] / 16), ByteOf(q[1] % 16 * 16 + q[2] / 4), ByteOf(q[2] % 4 * 64 + q[3])] + rest.value)
  }

  function Encode(s: string): string
    requires Bytes(s)
  {
    var q := Groups(s);
    seq(|q|, i requires 0 <= i < |q| => Letter(q[i]))
  }

  /** Line breaks inside the text are skipped by the decoder. */
  function WithoutBreaks(s: string): string {
    if s == "" then ""
    else if s[0] == '\n' || s[0] == '\r' then WithoutBreaks(s[1..])
    else [s[0]] + WithoutBreaks(s[1..])
  }

  function Decode(s: string): Result<string> {
    var letters := WithoutBreaks(s);
    if forall i :: 0 <= i < |letters| ==> Value(letters[i]).Some? then
      FromGroups(seq(|letters|, i requires 0 <= i < |letters| => Value(letters[i]).value))
    else Err(Validation)
  }

  lemma {:induction false} NoBreaks(s: string)
    requires forall i :: 0 <= i < |s| ==> s[i] != '\n' && s[i] != '\r'
    ensures WithoutBreaks(s) == s
  {
    if s != "" { NoBreaks(s[1..]); }
  }

  /** Six and two bits make the first byte, four and four the second, two and
      six the third. */
  lemma Joined(a: char, b: char, c: char)
    requires Byte(a) < 256 && Byte(b) < 256 && Byte(c) < 256
    ensures var q := Split(a, b, c);
      ByteOf(q[0] * 4 + q[1] / 16) == a && ByteOf(q[1] % 16 * 16 + q[2] / 4) == b && ByteOf(q[2] % 4 * 64 + q[3]) == c
  {
    var q := Split(a, b, c);
    assert q[1] / 16 == Byte(a) % 4 && q[1] % 16 == Byte(b) / 16;
    assert q[2] / 4 == Byte(b) % 16 && q[2] % 4 == Byte(c) / 64;
  }

  lemma JoinStep(a: char, b: char, c: char, rest: seq<nat>, tail: string)
    requires Byte(a) < 256 && Byte(b) < 256 && Byte(c) < 256 && FromGroups(rest) == Ok(tail)
    ensures FromGroups(Split(a, b, c) + rest) == Ok([a, b, c] + tail)
  {
    var q := Split(a, b, c);
    Joined(a, b, c);
    assert (q + rest)[4..] == rest;
    assert (q + rest)[0] == q[0] && (q + rest)[1] == q[1] && (q + rest)[2] == q[2] && (q + rest)[3] == q[3];
  }

  lemma OneLeft(a: char)
    requires Byte(a) < 256
    ensures FromGroups(Split(a, '\0', '\0')[..2]) == Ok([a])
  {
  }

  lemma TwoLeft(a: char, b: char)
    requires Byte(a) < 256 && Byte(b) < 256
    ensures FromGroups(Split(a, b, '\0')[..3]) == Ok([a, b])
  {
    Joined(a, b, '\0');
  }

  lemma {:induction false} BytesFromGroups(s: string)
    requires Bytes(s)
    ensures FromGroups(Groups(s)) == Ok(s)
    decreases |s|
  {
    if |s| == 1 {
      OneLeft(s[0]);
      assert s == [s[0]];
    } else if |s| == 2 {
      TwoLeft(s[0], s[1]);
      assert s == [s[0], s[1]];
    } else if s != "" {
      BytesFromGroups(s[3..]);
      JoinStep(s[0], s[1], s[2], Groups(s[3..]), s[3..]);
      assert s == [s[0], s[1], s[2]] + s[3..];
    }
  }

  lemma DecodeEncoded(s: string)
    requires Bytes(s)
    ensures Decode(Encode(s)) == Ok(s)
  {
    var q, e := Groups(s), Encode(s);
    forall i | 0 <= i < |e| ensures Value(e[i]) == Some(q[i]) && e[i] != '\n' && e[i] != '\r' { ValueOfLetter(q[i]); }
    NoBreaks(e);
    assert seq(|e|, i requires 0 <= i < |e| => Value(e[i]).value) == q;
    BytesFromGroups(s);
  }

  // --- The cursor -------------------------------------------------------------------------------

  function EncodeCursor(createdAt: string, id: string): string
    requires Bytes(createdAt) && Bytes(id)
  {
    Encode(createdAt + "\0" + id)
  }

  /** The part before the first zero byte and the part after it. */
  function Cut(s: string): Result<(string, string)> {
    if s == "" then Err(Validation)
    else if s[0] == '\0' then Ok(("", s[1..]))
    else
      var rest := Cut(s[1..]);
      if rest.Err? then rest else Ok(([s[0]] + rest.value.0, rest.value.1))
  }

  function DecodeCursor(cursor: string): Result<(string, string)> {
    var raw := Decode(cursor);
    if raw.Err? then Err(raw.error) else Cut(raw.value)
  }

  lemma {:induction false} CutAtZero(a: string, b: string)
    requires '\0' !in a
    ensures Cut(a + "\0" + b) == Ok((a, b))
  {
    var s := a + "\0" + b;
    if a == "" {
      assert s[1..] == b;
    } else {
      assert s[1..] == a[1..] + "\0" + b;
      CutAtZero(a[1..], b);
      assert a == [a[0]] + a[1..];
    }
  }

  /** A cursor decodes to the pair it was made from. */
  lemma CursorRoundTrip(createdAt: string, id: string)
    requires Bytes(createdAt) && Bytes(id) && '\0' !in createdAt
    ensures DecodeCursor(EncodeCursor(createdAt, id)) == Ok((createdAt, id))
    ensures EncodeCursor(createdAt, id) != ""
  {
    var raw := createdAt + "\0" + id;
    DecodeEncoded(raw);
    CutAtZero(createdAt, id);
  }
}
