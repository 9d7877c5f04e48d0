/** Listing a table page by page, newest first, with a cursor on
    (created_at, id). */
module Paging {
  import opened Domain
  import opened TextOrder
  import opened Timestamps
  import opened Cursor

  /** A row as the listing sees it: its two key columns as stored, and what the
      filter looks at. */
  datatype Row<T> = Row(createdAt: string, id: string, data: T)

  /** A row the store can hold: its time was written by `FormatTime`. */
  ghost predicate Storable<T>(r: Row<T>) {
    Bytes(r.id) && exists t :: ValidUtc(t) && t.year < 10000 && r.createdAt == FormatTime(t)
  }

  ghost predicate Table<T>(rows: set<Row<T>>) {
    && (forall r :: r in rows ==> Storable(r))
    && (forall r, q :: r in rows && q in rows && r.id == q.id ==> r == q)
  }

  /** (created_at, id) of `r` is below the key (t, id). */
  predicate KeyBelow<T>(r: Row<T>, t: string, id: string) {
    Less(r.createdAt, t) || (r.createdAt == t && Less(r.id, id))
  }

  predicate Below<T>(r: Row<T>, q: Row<T>) {
    KeyBelow(r, q.createdAt, q.id)
  }

  lemma BelowTransitive<T>(a: Row<T>, b: Row<T>, c: Row<T>)
    requires Below(a, b) && Below(b, c)
    ensures Below(a, c)
  {
    if Less(a.createdAt, b.createdAt) && Less(b.createdAt, c.createdAt) {
      Transitive(a.createdAt, b.createdAt, c.createdAt);
    } else if a.createdAt == b.createdAt == c.createdAt && !Less(a.createdAt, c.createdAt) {
      Transitive(a.id, b.id, c.id);
    }
  }

  lemma BelowTotal<T>(rows: set<Row<T>>, a: Row<T>, b: Row<T>)
    requires Table(rows) && a in rows && b in rows && a != b
    ensures Below(a, b) || Below(b, a)
  {
    Total(a.createdAt, b.createdAt);
    Total(a.id, b.id);
  }

  lemma BelowIrreflexive<T>(a: Row<T>)
    ensures !Below(a, a)
  {
    Irreflexive(a.createdAt);
    Irreflexive(a.id);
  }

  // --- The listing as a whole -------------------------------------------------------------------

  ghost predicate Descending<T>(s: seq<Row<T>>) {
    forall i, j :: 0 <= i < j < |s| ==> Below(s[j], s[i])
  }

  /** `s` lists `rows`: every row once, newest first. */
  ghost predicate Lists<T>(s: seq<Row<T>>, rows: set<Row<T>>) {
    Descending(s) && (forall r :: r in s ==> r in rows) && (forall r :: r in rows ==> r in s)
  }

  /** A set of rows has one listing only. */
  lemma {:induction false} ListingIsUnique<T>(s: seq<Row<T>>, u: seq<Row<T>>, rows: set<Row<T>>)
    requires Lists(s, rows) && Lists(u, rows)
    ensures s == u
    decreases |s|
  {
    EmptyListing(s, rows);
    EmptyListing(u, rows);
    if rows != {} {
      FirstIsGreatest(s, u, rows);
      var rest := rows - {s[0]};
      TailLists(s, rows);
      TailLists(u, rows);
      ListingIsUnique(s[1..], u[1..], rest);
      assert s == [s[0]] + s[1..] && u == [u[0]] + u[1..];
    }
  }

  lemma EmptyListing<T>(s: seq<Row<T>>, rows: set<Row<T>>)
    requires Lists(s, rows)
    ensures s == [] <==> rows == {}
  {
    if s != [] { assert s[0] in s; }
  }

  lemma FirstIsGreatest<T>(s: seq<Row<T>>, u: seq<Row<T>>, rows: set<Row<T>>)
    requires Lists(s, rows) && Lists(u, rows) && s != [] && u != []
    ensures s[0] == u[0]
  {
    assert s[0] in u && u[0] in s;
    var i :| 0 <= i < |u| && u[i] == s[0];
    var j :| 0 <= j < |s| && s[j] == u[0];
    if i > 0 && j > 0 {
      assert Below(u[i], u[0]) && Below(s[j], s[0]);
      BelowTransitive(u[0], s[0], u[0]);
      BelowIrreflexive(u[0]);
    }
  }

  lemma TailLists<T>(s: seq<Row<T>>, rows: set<Row<T>>)
    requires Lists(s, rows) && s != []
    ensures Lists(s[1..], rows - {s[0]})
  {
    forall r | r in s[1..] ensures r in rows - {s[0]} {
      var i :| 0 <= i < |s[1..]| && s[1..][i] == r;
      assert Below(s[i + 1], s[0]);
      BelowIrreflexive(s[0]);
    }
  }

  // --- One page -----------------------------------------------------------------------------------

  /** ORDER BY created_at DESC, id DESC LIMIT n: the n newest rows, in order. */
  method Newest<T(==)>(rows: set<Row<T>>, n: nat) returns (items: seq<Row<T>>)
    requires Table(rows)
    ensures Descending(items) && |items| <= n
    ensures forall r :: r in items ==> r in rows
    ensures forall r, q :: r in items && q in rows && q !in items ==> Below(q, r)
    ensures |items| < n ==> Lists(items, rows)
  {
    items := [];
    var rest := rows;
    while rest != {} && |items| < n
      invariant rest <= rows && |items| <= n && Descending(items)
      invariant forall r :: r in rows <==> r in items || r in rest
      invariant forall r, q :: r in items && q in rest ==> Below(q, r)
      decreases rest
    {
      var top := Greatest(rest, rows);
      BelowIrreflexive(top);
      DescendingJoin(items, [top]);
      items := items + [top];
      rest := rest - {top};
    }
  }

  lemma DescendingJoin<T>(s: seq<Row<T>>, u: seq<Row<T>>)
    requires Descending(s) && Descending(u)
    requires forall x, y :: x in s && y in u ==> Below(y, x)
    ensures Descending(s + u)
  {
  }

  /** All but the last of a listing's first rows are above the last kept one. */
  lemma Kept<T>(items: seq<Row<T>>, n: nat, left: set<Row<T>>)
    requires 0 < n < |items| <= n + 1 && Descending(items)
    requires forall r, q :: r in items && q in left && q !in items ==> Below(q, r)
    ensures Descending(items[..n]) && items[n] !in items[..n]
    ensures forall x :: x in left ==> x in items[..n] || Below(x, items[n - 1])
  {
    BelowIrreflexive(items[n]);
  }

  method Greatest<T(==)>(among: set<Row<T>>, ghost rows: set<Row<T>>) returns (top: Row<T>)
    requires among != {} && among <= rows && Table(rows)
    ensures top in among && forall r :: r in among && r != top ==> Below(r, top)
  {
    top :| top in among;
    var rest := among - {top};
    while rest != {}
      invariant rest <= among && top in among && top !in rest
      invariant forall r :: r in among && r !in rest && r != top ==> Below(r, top)
      decreases rest
    {
      var r :| r in rest;
      rest := rest - {r};
      if Below(top, r) {
        forall q | q in among && q !in rest && q != top && q != r ensures Below(q, r) { BelowTransitive(q, top, r); }
        top := r;
      } else {
        BelowTotal(rows, r, top);
      }
    }
  }

  /** The size of a page: never more than was asked for, nor than 200, and less than
      was asked for only to stay within that; 50 if nothing was asked for. */
  function ClampLimit(limit: int): (n: nat)
    ensures 1 <= n <= 200 && (1 <= limit ==> n <= limit) && (n < limit ==> n == 200)
    ensures limit < 1 ==> n == 50
  {
    if limit <= 0 then 50 else if limit > 200 then 200 else limit
  }

  datatype Page<T> = Page(items: seq<Row<T>>, next: string)

  function Matching<T(==)>(rows: set<Row<T>>, filter: Row<T> -> bool): set<Row<T>> {
    set r | r in rows && filter(r)
  }

  /** The matching rows a cursor leaves: all of them, or those below its key. */
  ghost function Remaining<T>(rows: set<Row<T>>, filter: Row<T> -> bool, cursor: string): set<Row<T>> {
    if cursor == "" then Matching(rows, filter)
    else if DecodeCursor(cursor).Err? then {}
    else set r | r in Matching(rows, filter) && KeyBelow(r, DecodeCursor(cursor).value.0, DecodeCursor(cursor).value.1)
  }

  /** The cursor made from a stored row: its time is read and written again. */
  function CursorOf<T>(r: Row<T>): string {
    var t := ParseTime(r.createdAt);
    if t.Some? && Bytes(FormatTime(t.value)) && Bytes(r.id) then EncodeCursor(FormatTime(t.value), r.id) else ""
  }

  /** Bytes, none of them zero. */
  predicate Plain(s: string) {
    forall i :: 0 <= i < |s| ==> 0 < s[i] as int < 256
  }

  lemma {:induction false} DigitsArePlain(n: nat, w: nat)
    ensures Plain(Digits(n, w))
  {
    if w > 0 { DigitsArePlain(n / 10, w - 1); }
  }

  lemma FieldIsPlain(sep: string, n: nat, w: nat, after: string)
    requires Plain(sep) && Plain(after)
    ensures Plain(sep + Digits(n, w) + after)
  {
    DigitsArePlain(n, w);
  }

  lemma TimeIsPlain(t: Utc)
    requires t.year < 10000
    ensures Plain(FormatTime(t))
  {
    FieldIsPlain(".", t.nano, 9, "Z");
    FieldIsPlain(":", t.second, 2, FromNano(t));
    FieldIsPlain(":", t.minute, 2, FromSecond(t));
    FieldIsPlain("T", t.hour, 2, FromMinute(t));
    FieldIsPlain("-", t.day, 2, FromHour(t));
    FieldIsPlain("-", t.month, 2, FromDay(t));
    RestByFields(t);
    FieldIsPlain("", t.year, 4, FromMonth(t));
    assert FormatTime(t) == "" + Digits(t.year, 4) + FromMonth(t);
  }

  /** The cursor of a stored row decodes to the row's own key. */
  lemma CursorOfRow<T>(r: Row<T>)
    requires Storable(r)
    ensures CursorOf(r) != "" && DecodeCursor(CursorOf(r)) == Ok((r.createdAt, r.id))
  {
    var t :| ValidUtc(t) && t.year < 10000 && r.createdAt == FormatTime(t);
    ParseFormat(t);
    TimeIsPlain(t);
    CursorRoundTrip(r.createdAt, r.id);
  }

  /** Rows are left that `items` does not show. */
  ghost predicate HasMore<T>(items: seq<Row<T>>, left: set<Row<T>>) {
    Rows(items) < left
  }

  /** The page shows `left` whole, or the newest of it and a cursor to the rest. */
  ghost predicate PageOf<T>(page: Page<T>, left: set<Row<T>>, limit: int) {
    if page.next == "" then Lists(page.items, left) && |page.items| <= ClampLimit(limit)
    else
      && Shows(page.items, left) && HasMore(page.items, left) && |page.items| == ClampLimit(limit)
      && page.next == CursorOf(page.items[|page.items| - 1])
  }

  /** One page: one row more than the limit is asked for, to see whether another
      page follows. */
  method ListPage<T(==)>(rows: set<Row<T>>, filter: Row<T> -> bool, limit: int, cursor: string) returns (r: Result<Page<T>>)
    requires Table(rows)
    ensures r.Err? <==> cursor != "" && DecodeCursor(cursor).Err?
    ensures r.Ok? ==> PageOf(r.value, Remaining(rows, filter, cursor), limit)
  {
    var n := ClampLimit(limit);
    var left := Matching(rows, filter);
    if cursor != "" {
      var key := DecodeCursor(cursor);
      if key.Err? { return Err(Validation); }
      left := set x | x in left && KeyBelow(x, key.value.0, key.value.1);
    }
    assert left == Remaining(rows, filter, cursor);
    var items := Newest(left, n + 1);
    if |items| > n {
      var last := items[n - 1];
      CursorOfRow(last);
      Kept(items, n, left);
      assert items[n] in items && items[n] in left - Rows(items[..n]);
      r := Ok(Page(items[..n], CursorOf(last)));
    } else {
      r := Ok(Page(items, ""));
    }
  }

  /** `all` lists the newest of `rows` and `left` are the others. */
  ghost predicate Walked<T>(all: seq<Row<T>>, left: set<Row<T>>, rows: set<Row<T>>) {
    && Descending(all) && rows == Rows(all) + left
    && (forall x, y :: x in all && y in left ==> Below(y, x))
  }

  /** `items` are the newest of `left`, and not none. */
  ghost predicate Shows<T>(items: seq<Row<T>>, left: set<Row<T>>) {
    && items != [] && Descending(items)
    && (forall x :: x in items ==> x in left)
    && (forall x :: x in left ==> x in items || Below(x, items[|items| - 1]))
  }

  function Rows<T(==)>(items: seq<Row<T>>): set<Row<T>> {
    set x | x in items
  }

  /** The rows a page does not show are those its cursor leaves. */
  lemma CursorLeavesRest<T>(rows: set<Row<T>>, filter: Row<T> -> bool, all: seq<Row<T>>, left: set<Row<T>>, items: seq<Row<T>>)
    requires Table(rows) && Walked(all, left, Matching(rows, filter)) && Shows(items, left)
    ensures Remaining(rows, filter, CursorOf(items[|items| - 1])) == left - Rows(items)
    ensures CursorOf(items[|items| - 1]) != "" && DecodeCursor(CursorOf(items[|items| - 1])).Ok?
  {
    var last := items[|items| - 1];
    assert last in items;
    CursorOfRow(last);
    BelowLast(all, left, Matching(rows, filter), items);
  }

  lemma BelowLast<T>(all: seq<Row<T>>, left: set<Row<T>>, rows: set<Row<T>>, items: seq<Row<T>>)
    requires Walked(all, left, rows) && Shows(items, left)
    ensures (set x | x in rows && KeyBelow(x, items[|items| - 1].createdAt, items[|items| - 1].id)) == left - Rows(items)
  {
    forall x | x in rows
      ensures Below(x, items[|items| - 1]) <==> x in left - Rows(items)
    {
      WhatIsBelow(all, left, rows, items, x);
    }
  }

  lemma WhatIsBelow<T>(all: seq<Row<T>>, left: set<Row<T>>, rows: set<Row<T>>, items: seq<Row<T>>, x: Row<T>)
    requires Walked(all, left, rows) && Shows(items, left) && x in rows
    ensures Below(x, items[|items| - 1]) <==> x in left - Rows(items)
  {
    var last := items[|items| - 1];
    assert last in items;
    if x in items {
      var i :| 0 <= i < |items| && items[i] == x;
      NotBelow(x, last);
    } else if x !in left {
      NotBelow(x, last);
    }
  }

  lemma WalkOn<T>(all: seq<Row<T>>, left: set<Row<T>>, rows: set<Row<T>>, items: seq<Row<T>>)
    requires Walked(all, left, rows) && Shows(items, left)
    ensures Walked(all + items, left - Rows(items), rows) && left - Rows(items) < left
  {
    AboveAll(items, left - Rows(items));
    DescendingJoin(all, items);
    assert items[0] in items;
  }

  lemma WalkEnds<T>(all: seq<Row<T>>, left: set<Row<T>>, rows: set<Row<T>>, items: seq<Row<T>>)
    requires Walked(all, left, rows) && Lists(items, left)
    ensures Lists(all + items, rows)
  {
  }

  lemma NotBelow<T>(x: Row<T>, y: Row<T>)
    requires x == y || Below(y, x)
    ensures !Below(x, y)
  {
    BelowIrreflexive(x);
    if Below(x, y) && Below(y, x) { BelowTransitive(x, y, x); }
  }

  /** Following the cursor from the first page: every matching row exactly once,
      newest first, and the walk ends. */
  method ListAll<T(==)>(rows: set<Row<T>>, filter: Row<T> -> bool, limit: int) returns (all: seq<Row<T>>)
    requires Table(rows)
    ensures Lists(all, Matching(rows, filter))
  {
    all := [];
    var first := ListPage(rows, filter, limit, "");
    var page := first.value;
    ghost var left := Matching(rows, filter);
    while page.next != ""
      invariant Walked(all, left, Matching(rows, filter)) && PageOf(page, left, limit)
      decreases left
    {
      NextPage(rows, filter, limit, all, left, page);
      var next := ListPage(rows, filter, limit, page.next);
      all := all + page.items;
      left := left - Rows(page.items);
      page := next.value;
    }
    WalkEnds(all, left, Matching(rows, filter), page.items);
    all := all + page.items;
  }

  lemma NextPage<T>(rows: set<Row<T>>, filter: Row<T> -> bool, limit: int, all: seq<Row<T>>, left: set<Row<T>>, page: Page<T>)
    requires Table(rows) && Walked(all, left, Matching(rows, filter))
    ensures PageOf(page, left, limit) && page.next != "" ==>
      && DecodeCursor(page.next).Ok? && Remaining(rows, filter, page.next) == left - Rows(page.items) < left
      && Walked(all + page.items, left - Rows(page.items), Matching(rows, filter))
  {
    if PageOf(page, left, limit) && page.next != "" { RestAhead(rows, filter, all, left, page.items, page.next); }
  }

  lemma RestAhead<T>(rows: set<Row<T>>, filter: Row<T> -> bool, all: seq<Row<T>>, left: set<Row<T>>, items: seq<Row<T>>, next: string)
    requires Table(rows) && Walked(all, left, Matching(rows, filter)) && Shows(items, left) && next == CursorOf(items[|items| - 1])
    ensures DecodeCursor(next).Ok? && Remaining(rows, filter, next) == left - Rows(items) < left
    ensures Walked(all + items, left - Rows(items), Matching(rows, filter))
  {
    CursorLeavesRest(rows, filter, all, left, items);
    WalkOn(all, left, Matching(rows, filter), items);
  }

  lemma AboveAll<T>(items: seq<Row<T>>, rest: set<Row<T>>)
    requires items != [] && Descending(items)
    requires forall x :: x in rest ==> Below(x, items[|items| - 1])
    ensures forall x, y :: x in items && y in rest ==> Below(y, x)
  {
    var last := items[|items| - 1];
    forall x, y | x in items && y in rest
      ensures Below(y, x)
    {
      if x != last { BelowTransitive(y, last, x); }
    }
  }

  /** Newest first by the clock, not just by the text. */
  lemma OrderIsTime<T>(r: Row<T>, q: Row<T>, t: Utc, u: Utc)
    requires ValidUtc(t) && t.year < 10000 && r.createdAt == FormatTime(t)
    requires ValidUtc(u) && u.year < 10000 && q.createdAt == FormatTime(u)
    ensures Below(r, q) <==> Instant(t) < Instant(u) || (t == u && Less(r.id, q.id))
  {
    TextOrdersAsTime(t, u);
  }
}
