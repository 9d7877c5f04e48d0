/** When a detour can be shorter: the triangle inequality for the distance of
    `EditDistance`, which edits no character twice. */
module Detours {
  import opened EditDistance

  // --- Tables of three texts ------------------------------------------------------------------

  function Flip(p: Table): Table {
    (i: nat, j: nat) => p(j, i)
  }

  lemma FlipKeepsDistances(p: Table, a: string, b: string)
    requires Distances(p, a, b)
    ensures Distances(Flip(p), b, a)
  {
    forall i, j | 0 < i <= |b| && 0 < j <= |a| ensures Cell(Flip(p), b, a, i, j) { assert Cell(p, a, b, j, i); }
  }

  /** `x`, or twice that. */
  function Weighed(double: bool, x: nat): nat {
    if double then x + x else x
  }

  /** Three texts with the tables of their distances: from `a` to `b`, from `b` to
      `c`, and straight from `a` to `c`. */
  datatype Trio = Trio(a: string, b: string, c: string, p: Table, q: Table, r: Table)

  ghost predicate Valid(t: Trio) {
    Distances(t.p, t.a, t.b) && Distances(t.q, t.b, t.c) && Distances(t.r, t.a, t.c)
  }

  function Chars(t: Trio): set<char> {
    (set x | x in t.a) + (set x | x in t.b) + (set x | x in t.c)
  }

  /** Of any three characters some two are the same. */
  predicate TwoChars(t: Trio) {
    forall x, y, z :: x in Chars(t) && y in Chars(t) && z in Chars(t) ==> x == y || y == z || x == z
  }

  function Turned(t: Trio): Trio {
    Trio(t.c, t.b, t.a, Flip(t.q), Flip(t.p), Flip(t.r))
  }

  lemma TurnedIsValid(t: Trio)
    requires Valid(t)
    ensures Valid(Turned(t)) && Chars(Turned(t)) == Chars(t)
  {
    FlipKeepsDistances(t.p, t.a, t.b);
    FlipKeepsDistances(t.q, t.b, t.c);
    FlipKeepsDistances(t.r, t.a, t.c);
  }

  /** For these prefixes the way by `b` is not shorter, one or the other leg
      counted double if asked. */
  ghost predicate Holds(u: bool, w: bool, t: Trio, i: nat, j: nat, k: nat) {
    i <= |t.a| && j <= |t.b| && k <= |t.c| ==> t.r(i, k) <= Weighed(u, t.p(i, j)) + Weighed(w, t.q(j, k))
  }

  /** It holds for all shorter prefixes. */
  ghost predicate Below(u: bool, w: bool, t: Trio, n: nat) {
    forall i: nat, j: nat, k: nat :: i + j + k < n ==> Holds(u, w, t, i, j, k)
  }

  lemma TurnedBelow(u: bool, w: bool, t: Trio, n: nat)
    requires Below(u, w, t, n)
    ensures Below(w, u, Turned(t), n)
  {
    forall i: nat, j: nat, k: nat | i + j + k < n ensures Holds(w, u, Turned(t), i, j, k) { assert Holds(u, w, t, k, j, i); }
  }

  // --- One step -------------------------------------------------------------------------------

  /** What one edit at the ends of two prefixes can cost. */
  lemma Moves(p: Table, a: string, b: string, i: nat, j: nat)
    requires Distances(p, a, b) && i <= |a| && j <= |b|
    ensures i > 0 ==> p(i, j) <= p(i - 1, j) + 1
    ensures j > 0 ==> p(i, j) <= p(i, j - 1) + 1
    ensures i > 0 && j > 0 ==> p(i, j) <= p(i - 1, j - 1) + Change(a, b, i, j)
    ensures EndSwapped(a, b, i, j) ==> p(i, j) <= p(i - 2, j - 2) + 1
  {
    if i > 0 && j > 0 { assert Cell(p, a, b, i, j); }
  }

  /** The prefixes, and that shorter ones are done. A leg counts double, or there
      are only two characters. */
  ghost predicate Ready(u: bool, w: bool, t: Trio, i: nat, j: nat, k: nat) {
    Valid(t) && i <= |t.a| && j <= |t.b| && k <= |t.c| && Below(u, w, t, i + j + k) && (u || w || TwoChars(t))
  }

  /** The first leg ends in a swap. */
  ghost predicate SwapsFirst(t: Trio, i: nat, j: nat) {
    i <= |t.a| && j <= |t.b| && EndSwapped(t.a, t.b, i, j) && t.p(i, j) == t.p(i - 2, j - 2) + 1
  }

  /** A swap, and then the second of the swapped characters is kept. */
  lemma SwapThenKeep(u: bool, w: bool, t: Trio, i: nat, j: nat, k: nat)
    requires Ready(u, w, t, i, j, k) && SwapsFirst(t, i, j)
    requires k > 0 && t.b[j - 1] == t.c[k - 1] && t.q(j, k) == t.q(j - 1, k - 1)
    ensures Holds(u, w, t, i, j, k)
  {
    var e := LastEdit(t.q, t.b, t.c, j - 1, k - 1);
    if e.Insert? {
      SwapThenInsert(u, w, t, i, j, k);
    } else if e.Keep? || e.Replace? {
      assert Holds(u, w, t, i - 2, j - 2, k - 2);
      Moves(t.r, t.a, t.c, i, k);
      Moves(t.r, t.a, t.c, i - 1, k - 1);
    } else {
      if e.Swap? {
        Moves(t.q, t.b, t.c, j - 2, k - 1);
        Moves(t.q, t.b, t.c, j - 3, k - 2);
      }
      DeleteThenKeep(u, w, t, i, j, k);
    }
  }

  /** Straight on, the first of the swapped characters goes and the second is kept. */
  lemma DeleteThenKeep(u: bool, w: bool, t: Trio, i: nat, j: nat, k: nat)
    requires Ready(u, w, t, i, j, k) && SwapsFirst(t, i, j)
    requires k > 0 && t.b[j - 1] == t.c[k - 1] && t.q(j - 2, k - 1) <= t.q(j, k)
    ensures Holds(u, w, t, i, j, k)
  {
    assert Holds(u, w, t, i - 2, j - 2, k - 1);
    Moves(t.r, t.a, t.c, i, k);
    Moves(t.r, t.a, t.c, i - 1, k);
  }

  /** A character is put between two swapped ones. Only here can the way by `b` be
      shorter: straight on, no character may be edited twice. */
  lemma SwapThenInsert(u: bool, w: bool, t: Trio, i: nat, j: nat, k: nat)
    requires Ready(u, w, t, i, j, k) && SwapsFirst(t, i, j)
    requires k > 1 && t.b[j - 1] == t.c[k - 1] && t.q(j, k) == t.q(j - 1, k - 1) == t.q(j - 1, k - 2) + 1
    ensures Holds(u, w, t, i, j, k)
  {
    if w {
      InsertInDouble(u, t, i, j, k);
    } else if u {
      assert Holds(u, w, t, i - 2, j - 2, k - 2);
      Moves(t.r, t.a, t.c, i, k);
      Moves(t.r, t.a, t.c, i - 1, k);
      Moves(t.r, t.a, t.c, i - 2, k - 1);
      LessOfMiddle(t.q, t.b, t.c, j - 2, k - 2);
    } else {
      InsertAmongTwo(t, i, j, k);
    }
  }

  lemma InsertInDouble(u: bool, t: Trio, i: nat, j: nat, k: nat)
    requires Ready(u, true, t, i, j, k) && SwapsFirst(t, i, j) && k > 1 && t.q(j, k) == t.q(j - 1, k - 2) + 1
    ensures Holds(u, true, t, i, j, k)
  {
    assert Holds(u, true, t, i - 1, j - 1, k - 2);
    Moves(t.r, t.a, t.c, i, k);
    Moves(t.r, t.a, t.c, i - 1, k - 1);
    Moves(t.p, t.a, t.b, i - 1, j - 1);
  }

  /** With two characters, the one put between is one of the swapped. */
  lemma InsertAmongTwo(t: Trio, i: nat, j: nat, k: nat)
    requires Ready(false, false, t, i, j, k) && SwapsFirst(t, i, j)
    requires k > 1 && t.b[j - 1] == t.c[k - 1] && t.q(j, k) == t.q(j - 1, k - 1) == t.q(j - 1, k - 2) + 1
    ensures Holds(false, false, t, i, j, k)
  {
    var x, y, z := t.a[i - 2], t.a[i - 1], t.c[k - 2];
    assert x in Chars(t) && y in Chars(t) && z in Chars(t);
    Moves(t.r, t.a, t.c, i, k);
    if x == y {
      assert Holds(false, false, t, i - 1, j - 1, k - 1);
      Moves(t.p, t.a, t.b, i - 1, j - 1);
    } else if y == z {
      assert Holds(false, false, t, i - 1, j - 1, k - 2);
      Moves(t.r, t.a, t.c, i, k - 1);
      Moves(t.p, t.a, t.b, i - 1, j - 1);
    } else {
      assert Holds(false, false, t, i - 2, j - 1, k - 2);
      Moves(t.r, t.a, t.c, i - 1, k - 1);
      Moves(t.p, t.a, t.b, i - 2, j - 1);
    }
  }

  /** Leaving out the last character costs one at most. */
  lemma {:induction false} LessOfMiddle(q: Table, b: string, c: string, j: nat, k: nat)
    requires Distances(q, b, c) && j < |b| && k <= |c|
    ensures q(j, k) <= q(j + 1, k) + 1
    decreases k
  {
    var e := LastEdit(q, b, c, j + 1, k);
    Moves(q, b, c, j, k);
    if e.Insert? {
      LessOfMiddle(q, b, c, j, k - 1);
    } else if e.Swap? {
      Moves(q, b, c, j - 1, k - 1);
    }
  }

  /** The first leg ends in a swap, whatever the second does. */
  lemma SwapFirst(u: bool, w: bool, t: Trio, i: nat, j: nat, k: nat)
    requires Ready(u, w, t, i, j, k) && SwapsFirst(t, i, j)
    ensures Holds(u, w, t, i, j, k)
  {
    var e := LastEdit(t.q, t.b, t.c, j, k);
    if e.Keep? {
      SwapThenKeep(u, w, t, i, j, k);
    } else if e.Delete? {
      assert Holds(u, w, t, i, j - 1, k);
      Moves(t.p, t.a, t.b, i, j - 1);
      Moves(t.p, t.a, t.b, i - 1, j - 2);
    } else {
      SwapThenOther(u, w, t, i, j, k, e);
    }
  }

  lemma SwapThenOther(u: bool, w: bool, t: Trio, i: nat, j: nat, k: nat, e: Edit)
    requires Ready(u, w, t, i, j, k) && SwapsFirst(t, i, j) && (e.Insert? || e.Replace? || e.Swap?)
    requires EndsIn(e, t.b, t.c, j, k) && t.q(j, k) == t.q(j - Takes(e), k - Gives(e)) + Price(e)
    ensures Holds(u, w, t, i, j, k)
  {
    Moves(t.r, t.a, t.c, i, k);
    if e.Insert? {
      assert Holds(u, w, t, i, j, k - 1);
    } else if e.Replace? {
      assert Holds(u, w, t, i - 1, j - 1, k - 1);
      Moves(t.p, t.a, t.b, i - 1, j - 1);
    } else {
      assert Holds(u, w, t, i - 2, j - 2, k - 2);
      Moves(t.r, t.a, t.c, i - 1, k - 1);
    }
  }

  lemma SwapSecond(u: bool, w: bool, t: Trio, i: nat, j: nat, k: nat)
    requires Ready(u, w, t, i, j, k)
    requires EndSwapped(t.b, t.c, j, k) && t.q(j, k) == t.q(j - 2, k - 2) + 1
    ensures Holds(u, w, t, i, j, k)
  {
    TurnedIsValid(t);
    TurnedBelow(u, w, t, i + j + k);
    SwapFirst(w, u, Turned(t), k, j, i);
  }

  lemma Step(u: bool, w: bool, t: Trio, i: nat, j: nat, k: nat)
    requires Ready(u, w, t, i, j, k)
    ensures Holds(u, w, t, i, j, k)
  {
    if i + j > 0 && j + k > 0 {
      var e := LastEdit(t.p, t.a, t.b, i, j);
      var f := LastEdit(t.q, t.b, t.c, j, k);
      if e.Delete? {
        Moves(t.r, t.a, t.c, i, k);
        assert Holds(u, w, t, i - 1, j, k);
      } else if f.Insert? {
        Moves(t.r, t.a, t.c, i, k);
        assert Holds(u, w, t, i, j, k - 1);
      } else if e.Swap? {
        SwapFirst(u, w, t, i, j, k);
      } else if f.Swap? {
        SwapSecond(u, w, t, i, j, k);
      } else {
        NoSwap(u, w, t, i, j, k, e, f);
      }
    }
  }

  /** The last character of `b` is written by the first leg and read by the second. */
  lemma NoSwap(u: bool, w: bool, t: Trio, i: nat, j: nat, k: nat, e: Edit, f: Edit)
    requires Ready(u, w, t, i, j, k) && (e.Keep? || e.Replace? || e.Insert?) && (f.Keep? || f.Replace? || f.Delete?)
    requires EndsIn(e, t.a, t.b, i, j) && t.p(i, j) == t.p(i - Takes(e), j - 1) + Price(e)
    requires EndsIn(f, t.b, t.c, j, k) && t.q(j, k) == t.q(j - 1, k - Gives(f)) + Price(f)
    ensures Holds(u, w, t, i, j, k)
  {
    assert Holds(u, w, t, i - Takes(e), j - 1, k - Gives(f));
    Moves(t.r, t.a, t.c, i, k);
  }

  lemma {:induction false} AllBelow(u: bool, w: bool, t: Trio, n: nat)
    requires Valid(t) && (u || w || TwoChars(t))
    ensures Below(u, w, t, n)
  {
    if n > 0 {
      AllBelow(u, w, t, n - 1);
      forall i: nat, j: nat, k: nat | i + j + k < n ensures Holds(u, w, t, i, j, k) {
        if i <= |t.a| && j <= |t.b| && k <= |t.c| && i + j + k == n - 1 { Step(u, w, t, i, j, k); }
      }
    }
  }

  // --- The triangle inequality ----------------------------------------------------------------

  lemma ByMiddle(u: bool, w: bool, a: string, b: string, c: string)
    requires u || w || TwoChars(Trio(a, b, c, PrefixTable(a, b), PrefixTable(b, c), PrefixTable(a, c)))
    ensures Distance(a, c) <= Weighed(u, Distance(a, b)) + Weighed(w, Distance(b, c))
  {
    PrefixesAreDistances(a, b);
    PrefixesAreDistances(b, c);
    PrefixesAreDistances(a, c);
    var t := Trio(a, b, c, PrefixTable(a, b), PrefixTable(b, c), PrefixTable(a, c));
    AllBelow(u, w, t, |a| + |b| + |c| + 1);
    assert Holds(u, w, t, |a|, |b|, |c|);
  }

  /** For all texts: a detour saves no more than its shorter leg. */
  lemma DetourSavesAtMostShorterLeg(a: string, b: string, c: string)
    ensures Distance(a, c) <= Distance(a, b) + Distance(b, c) + Min(Distance(a, b), Distance(b, c))
  {
    ByMiddle(true, false, a, b, c);
    ByMiddle(false, true, a, b, c);
  }

  predicate Over(s: string, chars: set<char>) {
    forall i :: 0 <= i < |s| ==> s[i] in chars
  }

  /** No three texts over these characters have a shorter detour. */
  ghost predicate NoShorterDetour(chars: set<char>) {
    forall a, b, c :: Over(a, chars) && Over(b, chars) && Over(c, chars) ==> Distance(a, c) <= Distance(a, b) + Distance(b, c)
  }

  /** Three characters are enough for one, which saves the whole shorter leg. */
  lemma ThreeCharsDetour(x: char, y: char, z: char)
    requires x != y && y != z && x != z
    ensures Distance([x, y], [y, x]) == 1 && Distance([y, x], [y, z, x]) == 1 && Distance([x, y], [y, z, x]) == 3
  {
    NeighboursSwapped("", x, y, "");
    assert "" + [x, y] + "" == [x, y] && "" + [y, x] + "" == [y, x];
    var a, b, c := [x, y], [y, z, x], [y, x];
    assert Prefixes(c, b, 1, 1) == 0;
    assert Prefixes(c, b, 1, 2) <= 1;
    assert Prefixes(c, b, 2, 3) <= 1;
    DistanceBounds(c, b);
    assert Prefixes(a, b, 1, 1) == 1 && Prefixes(a, b, 1, 2) == 2 && Prefixes(a, b, 1, 3) == 2;
    assert Prefixes(a, b, 2, 1) == 1;
    assert Prefixes(a, b, 2, 2) == 2;
    assert Prefixes(a, b, 2, 3) == 3;
  }

  /** The triangle inequality holds for all texts over a set of characters if and
      only if the set has two characters at most. */
  lemma NoShorterDetourIff(chars: set<char>)
    ensures NoShorterDetour(chars) <==> |chars| <= 2
  {
    if |chars| <= 2 {
      forall a, b, c | Over(a, chars) && Over(b, chars) && Over(c, chars)
        ensures Distance(a, c) <= Distance(a, b) + Distance(b, c)
      {
        var t := Trio(a, b, c, PrefixTable(a, b), PrefixTable(b, c), PrefixTable(a, c));
        forall x, y, z | x in Chars(t) && y in Chars(t) && z in Chars(t) ensures x == y || y == z || x == z { Third(chars, x, y, z); }
        ByMiddle(false, false, a, b, c);
      }
    } else {
      var x, y, z := Three(chars);
      ThreeCharsDetour(x, y, z);
      assert Over([x, y], chars) && Over([y, x], chars) && Over([y, z, x], chars);
    }
  }

  lemma Three(chars: set<char>) returns (x: char, y: char, z: char)
    requires |chars| > 2
    ensures {x, y, z} <= chars && x != y && y != z && x != z
  {
    x :| x in chars;
    assert |chars - {x}| == |chars| - 1;
    y :| y in chars - {x};
    assert |chars - {x} - {y}| == |chars| - 2;
    z :| z in chars - {x} - {y};
  }

  lemma Third(chars: set<char>, x: char, y: char, z: char)
    requires |chars| <= 2 && x in chars && y in chars && z in chars
    ensures x == y || y == z || x == z
  {
    assert x != y ==> |chars - {x} - {y}| == |chars| - 2;
  }
}
