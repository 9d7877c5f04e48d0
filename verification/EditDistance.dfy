/** The optimal string alignment distance between two configuration keys. Keys
    are byte strings, one character a byte. */
module EditDistance {
  function Min(x: int, y: int): int {
    if x < y then x else y
  }

  /** Do the first `i` characters of `a` and the first `j` of `b` end in the same
      two, the other way round? */
  predicate EndSwapped(a: string, b: string, i: nat, j: nat)
    requires i <= |a| && j <= |b|
  {
    i > 1 && j > 1 && a[i - 1] == b[j - 2] && a[i - 2] == b[j - 1]
  }

  /** The distance of the first `i` characters of `a` from the first `j` of `b`,
      by recursion on the ends. */
  function Prefixes(a: string, b: string, i: nat, j: nat): nat
    requires i <= |a| && j <= |b|
  {
    if i == 0 then j
    else if j == 0 then i
    else
      var change := if a[i - 1] == b[j - 1] then 0 else 1;
      var best := Min(Prefixes(a, b, i - 1, j) + 1, Min(Prefixes(a, b, i, j - 1) + 1, Prefixes(a, b, i - 1, j - 1) + change));
      if EndSwapped(a, b, i, j) then Min(best, Prefixes(a, b, i - 2, j - 2) + 1) else best
  }

  function Distance(a: string, b: string): nat {
    Prefixes(a, b, |a|, |b|)
  }

  // --- What the distance measures --------------------------------------------------------

  /** One edit of a text. No character takes part in two edits. */
  datatype Edit = Keep(c: char) | Replace(c: char, d: char) | Insert(c: char) | Delete(c: char) | Swap(c: char, d: char)

  function Before(e: Edit): string {
    match e
    case Keep(c) => [c]
    case Replace(c, _) => [c]
    case Insert(_) => ""
    case Delete(c) => [c]
    case Swap(c, d) => [c, d]
  }

  function After(e: Edit): string {
    match e
    case Keep(c) => [c]
    case Replace(_, d) => [d]
    case Insert(c) => [c]
    case Delete(_) => ""
    case Swap(c, d) => [d, c]
  }

  /** How many characters the edit reads. */
  function Takes(e: Edit): nat {
    if e.Insert? then 0 else if e.Swap? then 2 else 1
  }

  /** How many it writes. */
  function Gives(e: Edit): nat {
    if e.Delete? then 0 else if e.Swap? then 2 else 1
  }

  lemma Widths(e: Edit)
    ensures Takes(e) == |Before(e)| && Gives(e) == |After(e)|
  {
  }

  /** The text a script of edits starts from. */
  function Source(script: seq<Edit>): string {
    if script == [] then "" else Source(script[..|script| - 1]) + Before(script[|script| - 1])
  }

  /** The text it ends with. */
  function Target(script: seq<Edit>): string {
    if script == [] then "" else Target(script[..|script| - 1]) + After(script[|script| - 1])
  }

  /** Every edit but keeping a character costs one. */
  function Cost(script: seq<Edit>): nat {
    if script == [] then 0 else Cost(script[..|script| - 1]) + if script[|script| - 1].Keep? then 0 else 1
  }

  ghost predicate Turns(script: seq<Edit>, a: string, b: string) {
    Source(script) == a && Target(script) == b
  }

  function Price(e: Edit): nat {
    if e.Keep? then 0 else 1
  }

  /** Distances of all prefixes of two texts. */
  type Table = (nat, nat) -> nat

  function Change(a: string, b: string, i: nat, j: nat): nat
    requires 0 < i <= |a| && 0 < j <= |b|
  {
    if a[i - 1] == b[j - 1] then 0 else 1
  }

  /** One entry is the least its neighbours allow. */
  ghost predicate Cell(p: Table, a: string, b: string, i: nat, j: nat)
    requires 0 < i <= |a| && 0 < j <= |b|
  {
    && p(i, j) <= p(i - 1, j) + 1
    && p(i, j) <= p(i, j - 1) + 1
    && p(i, j) <= p(i - 1, j - 1) + Change(a, b, i, j)
    && (EndSwapped(a, b, i, j) ==> p(i, j) <= p(i - 2, j - 2) + 1)
    && (p(i, j) == p(i - 1, j) + 1 || p(i, j) == p(i, j - 1) + 1 || p(i, j) == p(i - 1, j - 1) + Change(a, b, i, j)
        || (EndSwapped(a, b, i, j) && p(i, j) == p(i - 2, j - 2) + 1))
  }

  ghost predicate Distances(p: Table, a: string, b: string) {
    && (forall i :: 0 <= i <= |a| ==> p(i, 0) == i)
    && (forall j :: 0 <= j <= |b| ==> p(0, j) == j)
    && (forall i, j :: 0 < i <= |a| && 0 < j <= |b| ==> Cell(p, a, b, i, j))
  }

  function PrefixTable(a: string, b: string): Table {
    (i: nat, j: nat) => if i <= |a| && j <= |b| then Prefixes(a, b, i, j) else 0
  }

  lemma PrefixesAreDistances(a: string, b: string)
    ensures Distances(PrefixTable(a, b), a, b)
  {
  }

  /** The edit stands in the two texts, ending at `i` and `j`. */
  predicate EndsIn(e: Edit, a: string, b: string, i: nat, j: nat)
    requires i <= |a| && j <= |b|
  {
    match e
    case Keep(c) => i > 0 && j > 0 && a[i - 1] == c == b[j - 1]
    case Replace(c, d) => i > 0 && j > 0 && a[i - 1] == c && b[j - 1] == d
    case Insert(c) => j > 0 && b[j - 1] == c
    case Delete(c) => i > 0 && a[i - 1] == c
    case Swap(c, d) => i > 1 && j > 1 && a[i - 2] == c && a[i - 1] == d && b[j - 2] == d && b[j - 1] == c
  }

  lemma One(s: string, i: nat)
    requires 0 < i <= |s|
    ensures s[i - 1..i] == [s[i - 1]]
  {
  }

  lemma Two(s: string, i: nat)
    requires 1 < i <= |s|
    ensures s[i - 2..i] == [s[i - 2], s[i - 1]]
  {
  }

  lemma EndsInTexts(e: Edit, a: string, b: string, i: nat, j: nat)
    requires i <= |a| && j <= |b| && Takes(e) <= i && Gives(e) <= j
    ensures EndsIn(e, a, b, i, j) <==> a[i - Takes(e)..i] == Before(e) && b[j - Gives(e)..j] == After(e)
  {
    Widths(e);
    if Takes(e) == 1 { One(a, i); }
    if Gives(e) == 1 { One(b, j); }
    if e.Swap? {
      Two(a, i);
      Two(b, j);
    }
  }

  /** No script is cheaper than the distance. */
  lemma {:induction false} NoCheaperScript(p: Table, script: seq<Edit>, a: string, b: string, i: nat, j: nat)
    requires Distances(p, a, b) && i <= |a| && j <= |b| && Turns(script, a[..i], b[..j])
    ensures p(i, j) <= Cost(script)
    decreases |script|
  {
    if script != [] {
      var rest, e := script[..|script| - 1], script[|script| - 1];
      WithoutLast(script, a, b, i, j);
      NoCheaperScript(p, rest, a, b, i - Takes(e), j - Gives(e));
      Costs(p, a, b, i, j, e);
    }
  }

  /** A script turns shorter prefixes into each other before its last edit. */
  lemma WithoutLast(script: seq<Edit>, a: string, b: string, i: nat, j: nat)
    requires script != [] && i <= |a| && j <= |b| && Turns(script, a[..i], b[..j])
    ensures var rest, e := script[..|script| - 1], script[|script| - 1];
      && Takes(e) <= i && Gives(e) <= j && EndsIn(e, a, b, i, j)
      && Turns(rest, a[..i - Takes(e)], b[..j - Gives(e)])
  {
    var rest, e := script[..|script| - 1], script[|script| - 1];
    Widths(e);
    Cut(a, i, Source(rest), Before(e));
    Cut(b, j, Target(rest), After(e));
    EndsInTexts(e, a, b, i, j);
  }

  lemma Cut(s: string, i: nat, x: string, y: string)
    requires i <= |s| && s[..i] == x + y
    ensures |y| <= i && x == s[..i - |y|] && y == s[i - |y|..i]
  {
  }

  /** One more edit moves the distance by at most its price. */
  lemma Costs(p: Table, a: string, b: string, i: nat, j: nat, e: Edit)
    requires Distances(p, a, b) && i <= |a| && j <= |b| && EndsIn(e, a, b, i, j)
    ensures p(i, j) <= p(i - Takes(e), j - Gives(e)) + Price(e)
  {
    if i > 0 && j > 0 { assert Cell(p, a, b, i, j); }
  }

  lemma Then(script: seq<Edit>, e: Edit, a: string, b: string, x: nat, y: nat, i: nat, j: nat)
    requires x <= i <= |a| && y <= j <= |b| && Turns(script, a[..x], b[..y])
    requires Before(e) == a[x..i] && After(e) == b[y..j]
    ensures Turns(script + [e], a[..i], b[..j]) && Cost(script + [e]) == Cost(script) + Price(e)
  {
  }

  /** The last edit of a cheapest script. */
  lemma LastEdit(p: Table, a: string, b: string, i: nat, j: nat) returns (e: Edit)
    requires Distances(p, a, b) && i <= |a| && j <= |b| && i + j > 0
    ensures EndsIn(e, a, b, i, j) && p(i, j) == p(i - Takes(e), j - Gives(e)) + Price(e)
  {
    if j == 0 {
      e := Delete(a[i - 1]);
    } else if i == 0 {
      e := Insert(b[j - 1]);
    } else {
      assert Cell(p, a, b, i, j);
      if p(i, j) == p(i - 1, j) + 1 {
        e := Delete(a[i - 1]);
      } else if p(i, j) == p(i, j - 1) + 1 {
        e := Insert(b[j - 1]);
      } else if EndSwapped(a, b, i, j) && p(i, j) == p(i - 2, j - 2) + 1 {
        e := Swap(a[i - 2], a[i - 1]);
      } else if a[i - 1] == b[j - 1] {
        e := Keep(a[i - 1]);
      } else {
        e := Replace(a[i - 1], b[j - 1]);
      }
    }
  }

  /** Some script costs exactly the distance. */
  lemma {:induction false} CheapestScript(p: Table, a: string, b: string, i: nat, j: nat) returns (script: seq<Edit>)
    requires Distances(p, a, b) && i <= |a| && j <= |b|
    ensures Turns(script, a[..i], b[..j]) && Cost(script) == p(i, j)
    decreases i + j
  {
    if i + j == 0 {
      script := [];
    } else {
      var e := LastEdit(p, a, b, i, j);
      EndsInTexts(e, a, b, i, j);
      var x, y := i - Takes(e), j - Gives(e);
      script := CheapestScript(p, a, b, x, y);
      Then(script, e, a, b, x, y, i, j);
      script := script + [e];
    }
  }

  /** The distance is the cost of the cheapest script, and of no other number. */
  lemma DistanceIsLeastCost(a: string, b: string, d: nat)
    ensures d == Distance(a, b) <==>
      && (exists script :: Turns(script, a, b) && Cost(script) == d)
      && (forall script :: Turns(script, a, b) ==> d <= Cost(script))
  {
    var p := PrefixTable(a, b);
    PrefixesAreDistances(a, b);
    assert a[..|a|] == a && b[..|b|] == b && p(|a|, |b|) == Distance(a, b);
    var cheapest := CheapestScript(p, a, b, |a|, |b|);
    forall script | Turns(script, a, b) ensures Distance(a, b) <= Cost(script) {
      NoCheaperScript(p, script, a, b, |a|, |b|);
    }
  }

  // --- What follows from it ----------------------------------------------------------------

  function Undo(e: Edit): Edit {
    match e
    case Keep(c) => Keep(c)
    case Replace(c, d) => Replace(d, c)
    case Insert(c) => Delete(c)
    case Delete(c) => Insert(c)
    case Swap(c, d) => Swap(d, c)
  }

  lemma {:induction false} UndoScript(script: seq<Edit>) returns (undo: seq<Edit>)
    ensures Turns(undo, Target(script), Source(script)) && Cost(undo) == Cost(script)
    decreases |script|
  {
    if script == [] {
      undo := [];
    } else {
      var e := Undo(script[|script| - 1]);
      var rest := UndoScript(script[..|script| - 1]);
      undo := rest + [e];
      assert undo[..|rest|] == rest;
    }
  }

  lemma NotFurtherBack(a: string, b: string)
    ensures Distance(b, a) <= Distance(a, b)
  {
    DistanceIsLeastCost(a, b, Distance(a, b));
    DistanceIsLeastCost(b, a, Distance(b, a));
    var script :| Turns(script, a, b) && Cost(script) == Distance(a, b);
    var undo := UndoScript(script);
  }

  lemma Symmetric(a: string, b: string)
    ensures Distance(a, b) == Distance(b, a)
  {
    NotFurtherBack(a, b);
    NotFurtherBack(b, a);
  }

  /** A script's cost bounds how far the lengths are apart, and a free script
      changes nothing. */
  lemma {:induction false} CostBounds(script: seq<Edit>)
    ensures |Source(script)| <= |Target(script)| + Cost(script)
    ensures |Target(script)| <= |Source(script)| + Cost(script)
    ensures Cost(script) == 0 ==> Source(script) == Target(script)
    decreases |script|
  {
    if script != [] { CostBounds(script[..|script| - 1]); }
  }

  lemma {:induction false} AtMostLonger(a: string, b: string, i: nat, j: nat)
    requires i <= |a| && j <= |b|
    ensures Prefixes(a, b, i, j) <= i || Prefixes(a, b, i, j) <= j
  {
    if i > 0 && j > 0 { AtMostLonger(a, b, i - 1, j - 1); }
  }

  lemma DistanceBounds(a: string, b: string)
    ensures Distance(a, b) == 0 <==> a == b
    ensures |a| - |b| <= Distance(a, b) && |b| - |a| <= Distance(a, b)
    ensures Distance(a, b) <= |a| || Distance(a, b) <= |b|
  {
    DistanceIsLeastCost(a, b, Distance(a, b));
    var script :| Turns(script, a, b) && Cost(script) == Distance(a, b);
    CostBounds(script);
    AtMostLonger(a, b, |a|, |b|);
    if a == b { var same := Kept([], a); }
  }

  /** A script followed by keeping `z`. */
  lemma {:induction false} Kept(script: seq<Edit>, z: string) returns (longer: seq<Edit>)
    ensures Turns(longer, Source(script) + z, Target(script) + z) && Cost(longer) == Cost(script)
    decreases |z|
  {
    if z == "" {
      longer := script;
      assert Source(script) + z == Source(script) && Target(script) + z == Target(script);
    } else {
      var n := |z| - 1;
      var rest := Kept(script, z[..n]);
      longer := rest + [Keep(z[n])];
      assert longer[..|rest|] == rest;
      assert z == z[..n] + [z[n]];
      assert Source(script) + z[..n] + [z[n]] == Source(script) + z;
      assert Target(script) + z[..n] + [z[n]] == Target(script) + z;
    }
  }

  lemma SwapScript(x: string, c: char, d: char, z: string) returns (script: seq<Edit>)
    ensures Turns(script, x + [c, d] + z, x + [d, c] + z) && Cost(script) == 1
  {
    var keeps := Kept([], x);
    assert "" + x == x;
    script := keeps + [Swap(c, d)];
    assert script[..|keeps|] == keeps;
    script := Kept(script, z);
  }

  /** Two neighbours the wrong way round are one edit, wherever they stand. */
  lemma NeighboursSwapped(x: string, c: char, d: char, z: string)
    requires c != d
    ensures Distance(x + [c, d] + z, x + [d, c] + z) == 1
  {
    var a, b := x + [c, d] + z, x + [d, c] + z;
    var script := SwapScript(x, c, d, z);
    DistanceIsLeastCost(a, b, Distance(a, b));
    assert a[|x|] == c && b[|x|] == d;
    DistanceBounds(a, b);
  }

  // --- The rolling rows -----------------------------------------------------------------------

  ghost predicate RowOf(row: array<int>, p: Table, b: string, i: nat)
    reads row
  {
    row.Length == |b| + 1 && forall j {:trigger row[j]} :: 0 <= j <= |b| ==> row[j] == p(i, j)
  }

  /** The value of one entry. */
  lemma CellIsLeast(p: Table, a: string, b: string, i: nat, j: nat)
    requires Distances(p, a, b) && 0 < i <= |a| && 0 < j <= |b|
    ensures var best := Min(p(i - 1, j) + 1, Min(p(i, j - 1) + 1, p(i - 1, j - 1) + Change(a, b, i, j)));
      p(i, j) == if EndSwapped(a, b, i, j) then Min(best, p(i - 2, j - 2) + 1) else best
  {
    assert Cell(p, a, b, i, j);
  }

  /** Fills the row of `i` from the two rows before it. */
  method FillRow(ghost p: Table, a: string, b: string, i: nat, prev2: array<int>, prev: array<int>, cur: array<int>)
    requires Distances(p, a, b) && 0 < i <= |a| && cur != prev && cur != prev2
    requires prev2.Length == cur.Length == |b| + 1 && RowOf(prev, p, b, i - 1) && (i > 1 ==> RowOf(prev2, p, b, i - 2))
    modifies cur
    ensures RowOf(cur, p, b, i)
  {
    cur[0] := i;
    for j := 1 to |b| + 1
      invariant forall k {:trigger cur[k]} :: 0 <= k < j ==> cur[k] == p(i, k)
    {
      CellIsLeast(p, a, b, i, j);
      var cost := 1;
      if a[i - 1] == b[j - 1] { cost := 0; }
      cur[j] := Min(prev[j] + 1, Min(cur[j - 1] + 1, prev[j - 1] + cost));
      if i > 1 && j > 1 && a[i - 1] == b[j - 2] && a[i - 2] == b[j - 1] {
        cur[j] := Min(cur[j], prev2[j - 2] + 1);
      }
    }
  }

  method Compute(a: string, b: string) returns (d: int)
    ensures d == Distance(a, b)
  {
    ghost var p := PrefixTable(a, b);
    PrefixesAreDistances(a, b);
    var prev2, prev, cur := new int[|b| + 1], new int[|b| + 1], new int[|b| + 1];
    for j := 0 to |b| + 1
      invariant forall k :: 0 <= k < j ==> prev[k] == k
    {
      prev[j] := j;
    }
    for i := 1 to |a| + 1
      invariant prev2.Length == prev.Length == cur.Length == |b| + 1
      invariant prev2 != prev && prev != cur && cur != prev2
      invariant fresh(prev2) && fresh(prev) && fresh(cur)
      invariant RowOf(prev, p, b, i - 1)
      invariant i > 1 ==> RowOf(prev2, p, b, i - 2)
    {
      FillRow(p, a, b, i, prev2, prev, cur);
      prev2, prev, cur := prev, cur, prev2;
    }
    d := prev[|b|];
  }
}
