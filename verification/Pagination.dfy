/** The order of a message list, and keyset pagination over it. */
module Ordering {
  import opened Basics
  import opened StoreModel

  /** A message with its joined row. */
  datatype Row = Row(id: string, rec: Rec)

  /** The pagination key; ids are compared character by character. */
  datatype Key = Key(created: int, id: string)

  function KeyOf(r: Row): Key {
    Key(r.rec.created, r.id)
  }

  predicate TextLess(a: string, b: string) {
    b != "" && (a == "" || a[0] < b[0] || (a[0] == b[0] && TextLess(a[1..], b[1..])))
  }

  predicate KeyLess(a: Key, b: Key) {
    a.created < b.created || (a.created == b.created && TextLess(a.id, b.id))
  }

  /** `a` comes before `b` in the chosen direction. */
  predicate Before(asc: bool, a: Key, b: Key) {
    if asc then KeyLess(a, b) else KeyLess(b, a)
  }

  lemma {:induction false} TextTransitive(a: string, b: string, c: string)
    requires TextLess(a, b) && TextLess(b, c)
    ensures TextLess(a, c)
  {
    if a != "" && a[0] == b[0] && b[0] == c[0] {
      TextTransitive(a[1..], b[1..], c[1..]);
    }
  }

  lemma {:induction false} TextTrichotomy(a: string, b: string)
    ensures !TextLess(a, a)
    ensures TextLess(a, b) || TextLess(b, a) || a == b
    ensures !(TextLess(a, b) && TextLess(b, a))
  {
    if a != "" && b != "" {
      TextTrichotomy(a[1..], b[1..]);
      assert a == [a[0]] + a[1..] && b == [b[0]] + b[1..];
    } else if a != "" {
      TextTrichotomy(a[1..], b);
    }
  }

  /** `Before` is a strict total order on keys, in either direction. */
  lemma BeforeTransitive(asc: bool, a: Key, b: Key, c: Key)
    requires Before(asc, a, b) && Before(asc, b, c)
    ensures Before(asc, a, c)
  {
    if a.created == b.created && b.created == c.created {
      if asc {
        TextTransitive(a.id, b.id, c.id);
      } else {
        TextTransitive(c.id, b.id, a.id);
      }
    }
  }

  lemma BeforeTotal(asc: bool, a: Key, b: Key)
    ensures !Before(asc, a, a)
    ensures Before(asc, a, b) || Before(asc, b, a) || a == b
    ensures !(Before(asc, a, b) && Before(asc, b, a))
  {
    TextTrichotomy(a.id, b.id);
  }

  /** Where two texts part: after `k` common characters the first ends or has the smaller
      one. */
  predicate PartsAt(a: string, b: string, k: nat) {
    k <= |a| && k < |b| && a[..k] == b[..k] && (k == |a| || a[k] < b[k])
  }

  lemma {:induction false} TextLessExactly(a: string, b: string)
    ensures TextLess(a, b) <==> exists k: nat :: PartsAt(a, b, k)
  {
    if b != "" && a != "" && a[0] == b[0] {
      TextLessExactly(a[1..], b[1..]);
      if TextLess(a[1..], b[1..]) {
        var k: nat :| PartsAt(a[1..], b[1..], k);
        assert a[..k + 1] == [a[0]] + a[1..][..k] && b[..k + 1] == [b[0]] + b[1..][..k];
        assert PartsAt(a, b, k + 1);
      }
      if k: nat :| PartsAt(a, b, k) {
        assert k > 0;
        assert a[1..][..k - 1] == a[..k][1..] && b[1..][..k - 1] == b[..k][1..];
        assert PartsAt(a[1..], b[1..], k - 1);
      }
    } else if b != "" && (a == "" || a[0] < b[0]) {
      assert PartsAt(a, b, 0);
    }
  }

  /** On the columns themselves: times do not fall when ascending and do not rise when
      descending, and rows of one time are ordered by id in the same direction. */
  ghost predicate InOrder(asc: bool, rows: seq<Row>) {
    forall i, j :: 0 <= i < j < |rows| ==>
      if asc then
        rows[i].rec.created < rows[j].rec.created ||
        (rows[i].rec.created == rows[j].rec.created && TextLess(rows[i].id, rows[j].id))
      else
        rows[i].rec.created > rows[j].rec.created ||
        (rows[i].rec.created == rows[j].rec.created && TextLess(rows[j].id, rows[i].id))
  }

  lemma SortedIsInOrder(asc: bool, rows: seq<Row>)
    requires Sorted(asc, rows)
    ensures InOrder(asc, rows)
  {
    forall i, j | 0 <= i < j < |rows|
      ensures Before(asc, KeyOf(rows[i]), KeyOf(rows[j]))
    {
    }
  }

  // ---- Sorted selections ----

  predicate Sorted(asc: bool, xs: seq<Row>) {
    forall i, j :: 0 <= i < j < |xs| ==> Before(asc, KeyOf(xs[i]), KeyOf(xs[j]))
  }

  /** No two rows of a table share an id. */
  ghost predicate Keyed(table: seq<Row>) {
    forall i, j :: 0 <= i < j < |table| ==> table[i].id != table[j].id
  }

  function Inserted(asc: bool, xs: seq<Row>, r: Row): seq<Row> {
    if xs == [] then [r]
    else if Before(asc, KeyOf(r), KeyOf(xs[0])) then [r] + xs
    else [xs[0]] + Inserted(asc, xs[1..], r)
  }

  function SortRows(asc: bool, xs: seq<Row>): seq<Row> {
    if xs == [] then [] else Inserted(asc, SortRows(asc, xs[1..]), xs[0])
  }

  lemma {:induction false} InsertedKeeps(asc: bool, xs: seq<Row>, r: Row, x: Row)
    ensures x in Inserted(asc, xs, r) <==> x in xs || x == r
  {
    if xs != [] && !Before(asc, KeyOf(r), KeyOf(xs[0])) {
      InsertedKeeps(asc, xs[1..], r, x);
      assert xs == [xs[0]] + xs[1..];
    }
  }

  lemma {:induction false} InsertedSorted(asc: bool, xs: seq<Row>, r: Row)
    requires Sorted(asc, xs) && forall x :: x in xs ==> x.id != r.id
    ensures Sorted(asc, Inserted(asc, xs, r))
  {
    if xs == [] {
    } else if Before(asc, KeyOf(r), KeyOf(xs[0])) {
      forall i | 0 < i < |xs|
        ensures Before(asc, KeyOf(r), KeyOf(xs[i]))
      {
        BeforeTransitive(asc, KeyOf(r), KeyOf(xs[0]), KeyOf(xs[i]));
      }
    } else {
      InsertedSorted(asc, xs[1..], r);
      BeforeTotal(asc, KeyOf(r), KeyOf(xs[0]));
      var rest := Inserted(asc, xs[1..], r);
      forall i | 0 <= i < |rest|
        ensures Before(asc, KeyOf(xs[0]), KeyOf(rest[i]))
      {
        InsertedKeeps(asc, xs[1..], r, rest[i]);
      }
    }
  }

  lemma {:induction false} SortKeeps(asc: bool, xs: seq<Row>, x: Row)
    ensures x in SortRows(asc, xs) <==> x in xs
  {
    if xs != [] {
      SortKeeps(asc, xs[1..], x);
      InsertedKeeps(asc, SortRows(asc, xs[1..]), xs[0], x);
    }
  }

  lemma {:induction false} SortSorts(asc: bool, xs: seq<Row>)
    requires Keyed(xs)
    ensures Sorted(asc, SortRows(asc, xs))
  {
    if xs != [] {
      SortSorts(asc, xs[1..]);
      forall x | x in SortRows(asc, xs[1..])
        ensures x.id != xs[0].id
      {
        SortKeeps(asc, xs[1..], x);
      }
      InsertedSorted(asc, SortRows(asc, xs[1..]), xs[0]);
    }
  }

  /** The plain meaning of a list request: the selected rows of the table, in order. */
  ghost predicate Selection(out: seq<Row>, table: seq<Row>, sel: Row -> bool, asc: bool) {
    Sorted(asc, out) && forall r :: r in out <==> r in table && sel(r)
  }

  /** There is only one such list. */
  lemma {:induction false} SelectionUnique(xs: seq<Row>, ys: seq<Row>, asc: bool)
    requires Sorted(asc, xs) && Sorted(asc, ys) && forall r :: r in xs <==> r in ys
    ensures xs == ys
  {
    assert forall i :: 0 <= i < |xs| ==> xs[i] in ys;
    assert forall i :: 0 <= i < |ys| ==> ys[i] in xs;
    if xs != [] && ys != [] {
      FirstIsFirst(xs, ys, asc);
      forall r
        ensures r in xs[1..] <==> r in ys[1..]
      {
        RestOf(xs, asc, r);
        RestOf(ys, asc, r);
      }
      SelectionUnique(xs[1..], ys[1..], asc);
      assert xs == [xs[0]] + xs[1..] && ys == [ys[0]] + ys[1..];
    }
  }

  lemma FirstIsFirst(xs: seq<Row>, ys: seq<Row>, asc: bool)
    requires Sorted(asc, xs) && Sorted(asc, ys) && xs != [] && ys != [] && xs[0] in ys && ys[0] in xs
    ensures xs[0] == ys[0]
  {
    BeforeTotal(asc, KeyOf(xs[0]), KeyOf(ys[0]));
  }

  lemma RestOf(xs: seq<Row>, asc: bool, r: Row)
    requires Sorted(asc, xs) && xs != []
    ensures r in xs[1..] <==> r in xs && r != xs[0]
  {
    BeforeTotal(asc, KeyOf(r), KeyOf(r));
    assert xs == [xs[0]] + xs[1..];
  }
}

module Pagination {
  import opened Basics
  import opened Ordering

  predicate Beyond(asc: bool, after: Option<Key>, r: Row) {
    after.Some? ==> Before(asc, after.value, KeyOf(r))
  }

  /** One page: the first `limit` selected rows beyond the cursor, and a next cursor,
      the key of the last of them, exactly when there are more. */
  ghost predicate IsPage(page: seq<Row>, next: Option<Key>, table: seq<Row>, sel: Row -> bool, asc: bool, after: Option<Key>, limit: nat)
    requires limit > 0
  {
    exists all :: PageOf(all, page, next, table, sel, asc, after, limit)
  }

  ghost predicate PageOf(all: seq<Row>, page: seq<Row>, next: Option<Key>,
                         table: seq<Row>, sel: Row -> bool, asc: bool, after: Option<Key>, limit: nat)
    requires limit > 0
  {
    && Selection(all, table, r => sel(r) && Beyond(asc, after, r), asc)
    && page == all[..Min(limit, |all|)]
    && next == if |all| > limit then Some(KeyOf(all[limit - 1])) else None
  }

  // ---- A table that stands still ----

  /** The cursor after the first `k` rows of a list. */
  function CursorAt(all: seq<Row>, k: nat): Option<Key>
    requires k <= |all|
  {
    if k == 0 then None else Some(KeyOf(all[k - 1]))
  }

  /** The rows beyond the `k`-th are the rest of the list. */
  lemma BeyondIsRest(all: seq<Row>, table: seq<Row>, sel: Row -> bool, asc: bool, k: nat)
    requires Selection(all, table, sel, asc) && k <= |all|
    ensures Selection(all[k..], table, r => sel(r) && Beyond(asc, CursorAt(all, k), r), asc)
  {
    forall r
      ensures r in all[k..] <==> r in all && Beyond(asc, CursorAt(all, k), r)
    {
      if r in all && k > 0 {
        var i :| 0 <= i < |all| && all[i] == r;
        BeforeTotal(asc, KeyOf(all[k - 1]), KeyOf(r));
        if i >= k {
          assert all[k..][i - k] == r;
        }
      }
    }
  }

  /** So a page that starts there is the next slice of the list. */
  lemma PageIsSlice(all: seq<Row>, page: seq<Row>, next: Option<Key>, table: seq<Row>, sel: Row -> bool, asc: bool, k: nat, limit: nat)
    requires limit > 0 && Selection(all, table, sel, asc) && k <= |all|
    requires IsPage(page, next, table, sel, asc, CursorAt(all, k), limit)
    ensures page == all[k..Min(k + limit, |all|)]
    ensures next == if k + limit < |all| then CursorAt(all, k + limit) else None
  {
    var rest :| PageOf(rest, page, next, table, sel, asc, CursorAt(all, k), limit);
    BeyondIsRest(all, table, sel, asc, k);
    SelectionUnique(rest, all[k..], asc);
  }

  function Concat(pages: seq<seq<Row>>, n: nat): seq<Row>
    requires n <= |pages|
  {
    if n == 0 then [] else Concat(pages, n - 1) + pages[n - 1]
  }

  /** Pages that follow every next cursor from the first on; `tables[i]` is what the
      request for page `i` finds. */
  ghost predicate Follows(tables: seq<seq<Row>>, pages: seq<seq<Row>>, cursors: seq<Option<Key>>, sel: Row -> bool, asc: bool, limit: nat) {
    && limit > 0 && |tables| == |pages| > 0 && |cursors| == |pages| + 1 && cursors[0] == None
    && (forall i :: 0 <= i < |pages| ==> IsPage(pages[i], cursors[i + 1], tables[i], sel, asc, cursors[i], limit))
    && (forall i :: 0 < i < |pages| ==> cursors[i].Some?)
  }

  /** A walk that has come to a page without a next cursor. */
  ghost predicate Walk(tables: seq<seq<Row>>, pages: seq<seq<Row>>, cursors: seq<Option<Key>>, sel: Row -> bool, asc: bool, limit: nat) {
    Follows(tables, pages, cursors, sel, asc, limit) && cursors[|pages|] == None
  }

  /** Over a table that stands still the pages so far are the list so far. */
  lemma {:induction false} WalkPrefix(table: seq<Row>, all: seq<Row>, tables: seq<seq<Row>>, pages: seq<seq<Row>>,
                                      cursors: seq<Option<Key>>, sel: Row -> bool, asc: bool, limit: nat, n: nat)
    requires Follows(tables, pages, cursors, sel, asc, limit) && forall i :: 0 <= i < |tables| ==> tables[i] == table
    requires Selection(all, table, sel, asc) && n <= |pages|
    ensures 0 < n && cursors[n].None? ==> Concat(pages, n) == all && (n - 1) * limit <= |all| <= n * limit
    ensures 0 < n && cursors[n].None? ==> n == 1 || (n - 1) * limit < |all|
    ensures n == 0 || cursors[n].Some? ==> n * limit <= |all| && (n > 0 ==> n * limit < |all|)
    ensures n == 0 || cursors[n].Some? ==> Concat(pages, n) == all[..n * limit] && cursors[n] == CursorAt(all, n * limit)
  {
    if n > 0 {
      WalkPrefix(table, all, tables, pages, cursors, sel, asc, limit, n - 1);
      assert IsPage(pages[n - 1], cursors[n - 1 + 1], tables[n - 1], sel, asc, cursors[n - 1], limit);
      PageExtends(table, all, pages[n - 1], cursors[n], sel, asc, limit, n - 1, Concat(pages, n - 1), cursors[n - 1]);
    }
  }

  lemma SlicesJoin(all: seq<Row>, k: nat, m: nat)
    requires k <= m <= |all|
    ensures all[..k] + all[k..m] == all[..m]
  {
  }

  lemma PageExtendsAt(table: seq<Row>, all: seq<Row>, page: seq<Row>, next: Option<Key>, sel: Row -> bool, asc: bool, limit: nat, k: nat)
    requires limit > 0 && Selection(all, table, sel, asc) && k <= |all|
    requires IsPage(page, next, table, sel, asc, CursorAt(all, k), limit)
    ensures next.None? ==> all[..k] + page == all && |all| <= k + limit
    ensures next.Some? ==> k + limit < |all|
    ensures next.Some? ==> all[..k] + page == all[..k + limit] && next == CursorAt(all, k + limit)
  {
    PageIsSlice(all, page, next, table, sel, asc, k, limit);
    SlicesJoin(all, k, Min(k + limit, |all|));
    assert all[..|all|] == all;
  }

  lemma PageExtends(table: seq<Row>, all: seq<Row>, page: seq<Row>, next: Option<Key>, sel: Row -> bool, asc: bool, limit: nat,
                    n: nat, before: seq<Row>, after: Option<Key>)
    requires limit > 0 && Selection(all, table, sel, asc) && n * limit <= |all|
    requires before == all[..n * limit] && after == CursorAt(all, n * limit)
    requires IsPage(page, next, table, sel, asc, after, limit)
    ensures n * limit + limit == (n + 1) * limit
    ensures next.None? ==> before + page == all && n * limit <= |all| <= (n + 1) * limit
    ensures next.Some? ==> (n + 1) * limit < |all|
    ensures next.Some? ==> before + page == all[..(n + 1) * limit] && next == CursorAt(all, (n + 1) * limit)
  {
    var k, m := n * limit, (n + 1) * limit;
    assert k + limit == m;
    PageExtendsAt(table, all, page, next, sel, asc, limit, k);
  }

  /** max(1, ceil(rows / limit)) */
  function PageCount(rows: nat, limit: nat): nat
    requires limit > 0
  {
    if rows == 0 then 1 else CeilDiv(rows, limit)
  }

  lemma PagesNeeded(rows: nat, limit: nat, n: nat)
    requires limit > 0 && n > 0 && (n - 1) * limit <= rows <= n * limit && (n == 1 || (n - 1) * limit < rows)
    ensures n == PageCount(rows, limit)
  {
    assert n * limit == (n - 1) * limit + limit;
    if rows > 0 {
      CeilDivUnique(rows, limit, n);
    } else {
      assert n > 1 ==> (n - 1) * limit >= limit;
    }
  }

  /** Over a table that stands still, whoever follows the cursors comes to the last page
      with page max(1, ceil(rows / limit)) and not before. */
  lemma WalkEnds(table: seq<Row>, all: seq<Row>, tables: seq<seq<Row>>, pages: seq<seq<Row>>,
                 cursors: seq<Option<Key>>, sel: Row -> bool, asc: bool, limit: nat)
    requires Follows(tables, pages, cursors, sel, asc, limit) && forall i :: 0 <= i < |tables| ==> tables[i] == table
    requires Selection(all, table, sel, asc)
    ensures |pages| <= PageCount(|all|, limit)
    ensures Walk(tables, pages, cursors, sel, asc, limit) <==> |pages| == PageCount(|all|, limit)
  {
    var n := |pages|;
    WalkPrefix(table, all, tables, pages, cursors, sel, asc, limit, n);
    if cursors[n].None? {
      PagesNeeded(|all|, limit, n);
    } else {
      CeilDivAbove(|all|, limit, n);
    }
  }

  lemma PageInOrder(page: seq<Row>, next: Option<Key>, table: seq<Row>, sel: Row -> bool, asc: bool, after: Option<Key>, limit: nat)
    requires limit > 0 && IsPage(page, next, table, sel, asc, after, limit)
    ensures InOrder(asc, page)
  {
    var all :| PageOf(all, page, next, table, sel, asc, after, limit);
    SortedIsInOrder(asc, page);
  }

  /** The pages of such a walk, put together, are the whole selection, in order, each row
      once. */
  lemma WalkListsAll(table: seq<Row>, all: seq<Row>, tables: seq<seq<Row>>, pages: seq<seq<Row>>,
                     cursors: seq<Option<Key>>, sel: Row -> bool, asc: bool, limit: nat)
    requires Walk(tables, pages, cursors, sel, asc, limit) && forall i :: 0 <= i < |tables| ==> tables[i] == table
    requires Selection(all, table, sel, asc)
    ensures Concat(pages, |pages|) == all && InOrder(asc, Concat(pages, |pages|))
    ensures |pages| == PageCount(|all|, limit)
  {
    SortedIsInOrder(asc, all);
    WalkPrefix(table, all, tables, pages, cursors, sel, asc, limit, |pages|);
    WalkEnds(table, all, tables, pages, cursors, sel, asc, limit);
  }

  // ---- A table that grows between requests ----

  /** Every row of `t` is still there in `u` under its key, and is selected in `u` if
      and only if it was in `t`; other rows may have come. */
  ghost predicate Grows(t: seq<Row>, u: seq<Row>, sel: Row -> bool) {
    forall r :: r in t ==> StillIn(r, u, sel)
  }

  ghost predicate StillIn(r: Row, u: seq<Row>, sel: Row -> bool) {
    exists q :: q in u && KeyOf(q) == KeyOf(r) && sel(q) == sel(r)
  }

  /** Where page `i` lies: beyond its cursor, up to the next one. */
  lemma PageBounds(page: seq<Row>, next: Option<Key>, table: seq<Row>, sel: Row -> bool, asc: bool, after: Option<Key>, limit: nat, r: Row)
    requires limit > 0 && IsPage(page, next, table, sel, asc, after, limit)
    ensures r in page ==> r in table && sel(r) && Beyond(asc, after, r)
    ensures next.Some? && r in page ==> KeyOf(r) == next.value || Before(asc, KeyOf(r), next.value)
    ensures r in table && sel(r) && Beyond(asc, after, r) && !(next.Some? && Before(asc, next.value, KeyOf(r))) ==> r in page
    ensures Sorted(asc, page)
  {
    var all :| PageOf(all, page, next, table, sel, asc, after, limit);
    if r in all {
      var i :| 0 <= i < |all| && all[i] == r;
      if i < |page| {
        assert page[i] == r;
      }
    }
  }

  /** Cursors only move forward. */
  lemma {:induction false} CursorsAdvance(tables: seq<seq<Row>>, pages: seq<seq<Row>>, cursors: seq<Option<Key>>,
                                          sel: Row -> bool, asc: bool, limit: nat, i: nat, j: nat)
    requires Walk(tables, pages, cursors, sel, asc, limit) && 0 < i <= j < |pages|
    ensures cursors[i] == cursors[j] || Before(asc, cursors[i].value, cursors[j].value)
  {
    if i < j {
      CursorsAdvance(tables, pages, cursors, sel, asc, limit, i, j - 1);
      var all :| PageOf(all, pages[j - 1], cursors[j], tables[j - 1], sel, asc, cursors[j - 1], limit);
      assert all[limit - 1] in all;
      if cursors[i] != cursors[j - 1] {
        BeforeTransitive(asc, cursors[i].value, cursors[j - 1].value, cursors[j].value);
      }
    }
  }

  /** No row repeats: a row on a later page comes after every row on an earlier one. */
  lemma NoRepeats(tables: seq<seq<Row>>, pages: seq<seq<Row>>, cursors: seq<Option<Key>>,
                  sel: Row -> bool, asc: bool, limit: nat, i: nat, j: nat, q: Row, r: Row)
    requires Walk(tables, pages, cursors, sel, asc, limit)
    requires i < j < |pages| && q in pages[i] && r in pages[j]
    ensures Before(asc, KeyOf(q), KeyOf(r)) && KeyOf(q) != KeyOf(r)
  {
    PageBounds(pages[i], cursors[i + 1], tables[i], sel, asc, cursors[i], limit, q);
    PageBounds(pages[j], cursors[j + 1], tables[j], sel, asc, cursors[j], limit, r);
    CursorsAdvance(tables, pages, cursors, sel, asc, limit, i + 1, j);
    var c, d := cursors[i + 1].value, cursors[j].value;
    if c != d {
      BeforeTransitive(asc, c, d, KeyOf(r));
    }
    if KeyOf(q) != c {
      BeforeTransitive(asc, KeyOf(q), c, KeyOf(r));
    }
    BeforeTotal(asc, KeyOf(q), KeyOf(r));
  }

  lemma {:induction false} GrowsTo(tables: seq<seq<Row>>, sel: Row -> bool, r: Row, n: nat) returns (q: Row)
    requires n < |tables| && forall i :: 0 <= i < |tables| - 1 ==> Grows(tables[i], tables[i + 1], sel)
    requires r in tables[0]
    ensures q in tables[n] && KeyOf(q) == KeyOf(r) && sel(q) == sel(r)
  {
    if n == 0 {
      q := r;
    } else {
      var p := GrowsTo(tables, sel, r, n - 1);
      assert StillIn(p, tables[n], sel);
      q :| q in tables[n] && KeyOf(q) == KeyOf(p) && sel(q) == sel(p);
    }
  }

  /** No row is skipped: whatever was there, and selected, when the walk began is on
      some page, no matter which rows come in between. */
  lemma {:induction false} NoSkips(tables: seq<seq<Row>>, pages: seq<seq<Row>>, cursors: seq<Option<Key>>,
                                   sel: Row -> bool, asc: bool, limit: nat, r: Row, n: nat) returns (i: nat, q: Row)
    requires Walk(tables, pages, cursors, sel, asc, limit) && n < |pages|
    requires forall k :: 0 <= k < |tables| - 1 ==> Grows(tables[k], tables[k + 1], sel)
    requires r in tables[0] && sel(r)
    requires cursors[n].Some? ==> Before(asc, cursors[n].value, KeyOf(r))
    ensures i < |pages| && q in pages[i] && KeyOf(q) == KeyOf(r)
    decreases |pages| - n
  {
    q := GrowsTo(tables, sel, r, n);
    PageBounds(pages[n], cursors[n + 1], tables[n], sel, asc, cursors[n], limit, q);
    if q in pages[n] {
      i := n;
    } else {
      i, q := NoSkips(tables, pages, cursors, sel, asc, limit, r, n + 1);
    }
  }

  /** The two together, for a whole walk over a growing table. */
  lemma GrowingWalk(tables: seq<seq<Row>>, pages: seq<seq<Row>>, cursors: seq<Option<Key>>,
                    sel: Row -> bool, asc: bool, limit: nat, r: Row)
    requires Walk(tables, pages, cursors, sel, asc, limit)
    requires forall k :: 0 <= k < |tables| - 1 ==> Grows(tables[k], tables[k + 1], sel)
    requires r in tables[0] && sel(r)
    ensures exists i, q :: 0 <= i < |pages| && q in pages[i] && KeyOf(q) == KeyOf(r)
    ensures forall i, j, p, q | 0 <= i < |pages| && 0 <= j < |pages| && p in pages[i] && q in pages[j] &&
                                KeyOf(p) == KeyOf(r) == KeyOf(q) :: i == j
  {
    var i0, q0 := NoSkips(tables, pages, cursors, sel, asc, limit, r, 0);
    forall i, j, p, q | 0 <= i < |pages| && 0 <= j < |pages| && p in pages[i] && q in pages[j] && KeyOf(p) == KeyOf(r) == KeyOf(q)
      ensures i == j
    {
      if i < j {
        NoRepeats(tables, pages, cursors, sel, asc, limit, i, j, p, q);
      } else if j < i {
        NoRepeats(tables, pages, cursors, sel, asc, limit, j, i, q, p);
      }
    }
  }
}
