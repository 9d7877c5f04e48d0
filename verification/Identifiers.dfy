/** New row identifiers: random in the program, so all that is known of one is
    that no row has it. */
module Identifiers {
  import opened Domain
  import opened Tables

  lemma {:induction false} BoundOf(used: set<Id>) returns (bound: nat)
    ensures forall i :: i in used ==> i < bound
    decreases used
  {
    if used == {} {
      bound := 0;
    } else {
      var x :| x in used;
      var rest := BoundOf(used - {x});
      bound := if rest > x then rest else x + 1;
      assert forall i :: i in used ==> i == x || i in used - {x};
    }
  }

  method NewId(used: set<Id>) returns (id: Id)
    ensures id !in used
  {
    ghost var bound := BoundOf(used);
    assert bound !in used;
    id :| id !in used;
  }

  /** One new identifier for each target. */
  method NewIds<T(==)>(used: set<Id>, targets: set<T>) returns (newIds: map<Id, T>)
    ensures Assigns(newIds, targets) && newIds.Keys !! used
  {
    newIds := map[];
    var rest := targets;
    while rest != {}
      invariant rest <= targets && newIds.Values == targets - rest && newIds.Keys !! used
      invariant forall i, j :: i in newIds && j in newIds && newIds[i] == newIds[j] ==> i == j
      decreases rest
    {
      var t :| t in rest;
      var id := NewId(used + newIds.Keys);
      forall i | i in newIds ensures newIds[i] != t { assert newIds[i] in newIds.Values; }
      ghost var was := newIds;
      newIds := newIds[id := t];
      ValuesOfUpdate(was, id, t);
      rest := rest - {t};
    }
  }

  /** The i-th of `ids` names the i-th of `targets`. */
  ghost predicate Names<T(!new)>(ids: seq<Id>, newIds: map<Id, T>, targets: seq<T>) {
    && |ids| == |targets| && (forall i, j :: 0 <= i < j < |ids| ==> ids[i] != ids[j])
    && newIds.Keys == (set i | i in ids) && forall i :: 0 <= i < |ids| ==> newIds[ids[i]] == targets[i]
  }

  /** One identifier for each entry of a list. */
  ghost predicate OneEach<T(!new)>(newIds: map<Id, T>, targets: seq<T>) {
    exists ids :: Names(ids, newIds, targets)
  }

  /** One new identifier for each entry. */
  method BuildIds<T(!new)>(used: set<Id>, targets: seq<T>) returns (newIds: map<Id, T>)
    ensures OneEach(newIds, targets) && newIds.Keys !! used
  {
    newIds := map[];
    ghost var ids: seq<Id> := [];
    for i := 0 to |targets|
      invariant Names(ids, newIds, targets[..i]) && newIds.Keys !! used
    {
      var id := NewId(used + newIds.Keys);
      NamesNext(ids, newIds, targets, i, id);
      ids := ids + [id];
      newIds := newIds[id := targets[i]];
    }
    assert targets[..|targets|] == targets;
  }

  lemma NamesNext<T(!new)>(ids: seq<Id>, newIds: map<Id, T>, targets: seq<T>, i: nat, id: Id)
    requires i < |targets| && Names(ids, newIds, targets[..i]) && id !in newIds
    ensures Names(ids + [id], newIds[id := targets[i]], targets[..i + 1])
  {
    assert forall k :: 0 <= k < |ids| ==> ids[k] in newIds;
  }

  /** Exactly the entries of the list are named. */
  lemma OneEachValues<T(!new)>(newIds: map<Id, T>, targets: seq<T>, t: T)
    requires OneEach(newIds, targets)
    ensures t in targets <==> exists i :: i in newIds && newIds[i] == t
  {
    var ids :| Names(ids, newIds, targets);
    if t in targets {
      var k :| 0 <= k < |targets| && targets[k] == t;
      assert ids[k] in newIds && newIds[ids[k]] == t;
    }
  }

  ghost predicate Injective<T, U>(f: map<T, U>) {
    forall x, y :: x in f && y in f && f[x] == f[y] ==> x == y
  }

  /** No target is named twice, if and only if the list holds none twice. */
  lemma OneEachInjective<T(!new)>(newIds: map<Id, T>, targets: seq<T>)
    requires OneEach(newIds, targets)
    ensures Injective(newIds) <==> forall i, j :: 0 <= i < j < |targets| ==> targets[i] != targets[j]
  {
    var ids :| Names(ids, newIds, targets);
    if Injective(newIds) {
      forall i, j | 0 <= i < j < |targets| ensures targets[i] != targets[j] { assert ids[i] in newIds && ids[j] in newIds && ids[i] != ids[j]; }
    } else {
      var x, y :| x in newIds && y in newIds && newIds[x] == newIds[y] && x != y;
      var i :| 0 <= i < |ids| && ids[i] == x;
      var j :| 0 <= j < |ids| && ids[j] == y;
      assert targets[i] == targets[j];
    }
  }

  lemma ValuesOfUpdate<T>(m: map<Id, T>, id: Id, t: T)
    requires id !in m
    ensures m[id := t].Values == m.Values + {t}
  {
    var n := m[id := t];
    forall v | v in m.Values ensures v in n.Values {
      var i :| i in m && m[i] == v;
      assert n[i] == v;
    }
    assert n[id] == t;
  }
}
