/** Which known configuration key an unknown one was probably meant to be. */
module Suggestions {
  import opened TextOrder
  import opened EditDistance

  /** A dotted path as its parent and its last name. */
  function SplitPath(path: string): (string, string) {
    var i := LastDot(path);
    if i >= 0 then (path[..i], path[i + 1..]) else ("", path)
  }

  function LastDot(s: string): (i: int)
    ensures -1 <= i < |s|
  {
    if s == "" then -1
    else if s[|s| - 1] == '.' then |s| - 1
    else LastDot(s[..|s| - 1])
  }

  lemma {:induction false} LastDotIsLast(s: string)
    ensures var i := LastDot(s); (i >= 0 ==> s[i] == '.') && forall k :: i < k < |s| ==> s[k] != '.'
  {
    if s != "" && s[|s| - 1] != '.' { LastDotIsLast(s[..|s| - 1]); }
  }

  /** The name has no dot in it, and the two parts make up the path. */
  lemma PartsOfPath(path: string)
    ensures var r := SplitPath(path); '.' !in r.1 && if '.' in path then r.0 + "." + r.1 == path else r == ("", path)
  {
    LastDotIsLast(path);
  }

  /** How many edits a suggestion may be away: one for a short name, two from
      eight characters on, three from twelve. */
  function EditBudget(name: string): (budget: nat)
    ensures 1 <= budget <= 3
    ensures (budget >= 2 <==> |name| >= 8) && (budget == 3 <==> |name| >= 12)
  {
    var budget := |name| / 4;
    if budget < 1 then 1 else if budget > 3 then 3 else budget
  }

  predicate Siblings(k: string, path: string) {
    SplitPath(k).0 == SplitPath(path).0
  }

  function Gap(path: string, k: string): nat {
    Distance(SplitPath(path).1, SplitPath(k).1)
  }

  ghost predicate InReach(k: string, path: string, known: set<string>) {
    k in known && Siblings(k, path) && Gap(path, k) <= EditBudget(SplitPath(path).1)
  }

  /** Of the siblings in reach the closest one, and of those the first in order. */
  ghost predicate Closest(k: string, path: string, known: set<string>) {
    && InReach(k, path, known)
    && forall q :: q in known && Siblings(q, path) && q != k ==>
         Gap(path, k) < Gap(path, q) || (Gap(path, k) == Gap(path, q) && Less(k, q))
  }

  lemma ClosestIsUnique(k: string, q: string, path: string, known: set<string>)
    requires Closest(k, path, known) && Closest(q, path, known)
    ensures k == q
  {
    if k != q && Less(k, q) && Less(q, k) {
      Transitive(k, q, k);
      Irreflexive(k);
    }
  }

  // --- Sorting ---------------------------------------------------------------------------

  ghost predicate Ascending(s: seq<string>) {
    forall i, j :: 0 <= i < j < |s| ==> Less(s[i], s[j])
  }

  method SortedKeys(m: set<string>) returns (s: seq<string>)
    ensures Ascending(s) && forall k :: k in s <==> k in m
  {
    s := [];
    var rest := m;
    while rest != {}
      invariant rest <= m && Ascending(s)
      invariant forall k :: k in m <==> k in s || k in rest
      invariant forall k, q :: k in s && q in rest ==> Less(k, q)
      decreases rest
    {
      var least := Least(rest);
      assert forall i :: 0 <= i < |s| ==> s[i] in s;
      s := s + [least];
      rest := rest - {least};
    }
  }

  method Least(among: set<string>) returns (least: string)
    requires among != {}
    ensures least in among && forall k :: k in among && k != least ==> Less(least, k)
  {
    least :| least in among;
    var rest := among - {least};
    while rest != {}
      invariant rest <= among && least in among && least !in rest
      invariant forall k :: k in among && k !in rest && k != least ==> Less(least, k)
      decreases rest
    {
      var k :| k in rest;
      rest := rest - {k};
      Total(k, least);
      if Less(k, least) {
        forall q | q in among && q !in rest && q != least && q != k ensures Less(k, q) { Transitive(k, least, q); }
        least := k;
      }
    }
  }

  // --- The suggestion -------------------------------------------------------------------------

  /** What the loop has found among the keys it has seen. */
  ghost predicate BestSoFar(best: string, bestDist: nat, path: string, seen: set<string>) {
    if bestDist <= EditBudget(SplitPath(path).1) then Closest(best, path, seen) && bestDist == Gap(path, best)
    else best == "" && bestDist == EditBudget(SplitPath(path).1) + 1 && forall k :: !InReach(k, path, seen)
  }

  lemma BestSkips(best: string, bestDist: nat, path: string, seen: set<string>, k: string)
    requires BestSoFar(best, bestDist, path, seen) && k !in seen
    requires forall q :: q in seen ==> Less(q, k)
    requires Siblings(k, path) ==> bestDist <= Gap(path, k)
    ensures BestSoFar(best, bestDist, path, seen + {k})
  {
    var budget := EditBudget(SplitPath(path).1);
    if bestDist > budget {
      forall q ensures !InReach(q, path, seen + {k}) { assert !InReach(q, path, seen); }
    } else {
      assert InReach(best, path, seen + {k});
      forall q | q in seen + {k} && Siblings(q, path) && q != best
        ensures Gap(path, best) < Gap(path, q) || (Gap(path, best) == Gap(path, q) && Less(best, q))
      {
        assert q in seen || q == k;
      }
    }
  }

  lemma BestTakes(best: string, bestDist: nat, path: string, seen: set<string>, k: string)
    requires BestSoFar(best, bestDist, path, seen) && k !in seen
    requires Siblings(k, path) && Gap(path, k) < bestDist
    ensures BestSoFar(k, Gap(path, k), path, seen + {k})
  {
    forall q | q in seen && Siblings(q, path) ensures Gap(path, k) < Gap(path, q) {
      assert !InReach(q, path, seen) ==> Gap(path, q) > EditBudget(SplitPath(path).1);
    }
  }

  method SuggestNearby(path: string, known: set<string>) returns (best: string)
    ensures Closest(best, path, known) || (best == "" && forall k :: !InReach(k, path, known))
  {
    var (parent, name) := SplitPath(path);
    var bestDist: nat := EditBudget(name) + 1;
    best := "";
    var keys := SortedKeys(known);
    ghost var seen: set<string> := {};
    for i := 0 to |keys|
      invariant seen == set j | 0 <= j < i :: keys[j]
      invariant BestSoFar(best, bestDist, path, seen)
    {
      var k := keys[i];
      var (p, n) := SplitPath(k);
      forall q | q in seen ensures Less(q, k) { }
      Irreflexive(k);
      if p != parent {
        BestSkips(best, bestDist, path, seen, k);
      } else {
        var d := Compute(name, n);
        if d < bestDist {
          BestTakes(best, bestDist, path, seen, k);
          best, bestDist := k, d;
        } else {
          BestSkips(best, bestDist, path, seen, k);
        }
      }
      seen := seen + {k};
    }
    assert seen == known;
  }

  ghost predicate FirstOfName(r: string, name: string, known: set<string>) {
    || (r in known && SplitPath(r).1 == name && forall k :: k in known && SplitPath(k).1 == name && k != r ==> Less(r, k))
    || (r == "" && forall k :: k in known ==> SplitPath(k).1 != name)
  }

  /** A nearby key, or else the first key of the same name anywhere. An empty key,
      if there were one, would read as no suggestion. */
  method SuggestKey(path: string, known: set<string>) returns (r: string)
    ensures if (exists k :: InReach(k, path, known)) && !Closest("", path, known) then Closest(r, path, known)
      else FirstOfName(r, SplitPath(path).1, known)
  {
    r := SuggestNearby(path, known);
    if r != "" {
      if Closest("", path, known) { ClosestIsUnique(r, "", path, known); }
    } else {
      var (_, name) := SplitPath(path);
      r := FirstNamed(name, known);
    }
  }

  method FirstNamed(name: string, known: set<string>) returns (r: string)
    ensures FirstOfName(r, name, known)
  {
    var keys := SortedKeys(known);
    for i := 0 to |keys|
      invariant forall j :: 0 <= j < i ==> SplitPath(keys[j]).1 != name
    {
      var (_, n) := SplitPath(keys[i]);
      if n == name {
        assert keys[i] in keys;
        return keys[i];
      }
    }
    r := "";
  }

  /** A key with two neighbours of its name the wrong way round always gets a
      suggestion, and one that is one edit away at most. */
  lemma SwappedKeyIsSuggested(path: string, meant: string, x: string, c: char, d: char, z: string, known: set<string>, best: string)
    requires meant in known && Siblings(meant, path) && c != d
    requires SplitPath(meant).1 == x + [c, d] + z && SplitPath(path).1 == x + [d, c] + z
    requires Closest(best, path, known) || (best == "" && forall k :: !InReach(k, path, known))
    ensures Closest(best, path, known) && Gap(path, best) <= 1
  {
    NeighboursSwapped(x, d, c, z);
    assert InReach(meant, path, known);
  }
}
