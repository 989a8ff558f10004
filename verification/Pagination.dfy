/**
 Keyset pagination of a user's likes: the query, the page built from it, the slice of the
 cached 100-row first page, and what a client sees that follows the cursors.
 */
module Pagination {
  import opened Basics

  datatype Cursor = Cursor(timestamp: int, id: int)

  /** The rows of a response; `nextCursor` names the last of them. */
  datatype Page = Page(rows: seq<LikeRow>, nextCursor: Option<Cursor>, hasMore: bool)

  /** The first page as it is cached: up to 100 rows. */
  datatype CachedUserLikePage = CachedUserLikePage(rows: seq<LikeRow>, hasMore: bool)

  const MAX_LIMIT := 100

  /** (created_at, id) < (ts, id) */
  predicate Below(r: LikeRow, c: Option<Cursor>) {
    c.Some? ==> r.createdAt < c.value.timestamp || (r.createdAt == c.value.timestamp && r.id < c.value.id)
  }

  predicate Matches(r: LikeRow, filter: Option<string>) {
    filter.Some? ==> r.item.contentType == filter.value
  }

  function CursorOf(r: LikeRow): Cursor {
    Cursor(r.createdAt, r.id)
  }

  /** ORDER BY created_at DESC, id DESC lists `a` before `b`. */
  predicate Before(a: LikeRow, b: LikeRow) {
    a.createdAt > b.createdAt || (a.createdAt == b.createdAt && a.id > b.id)
  }

  ghost predicate Descending(rows: seq<LikeRow>) {
    forall i, j :: 0 <= i < j < |rows| ==> Before(rows[i], rows[j])
  }

  /** `id` is the primary key of the table. */
  ghost predicate UniqueIds(table: set<LikeRow>) {
    forall a, b :: a in table && b in table && a.id == b.id ==> a == b
  }

  ghost predicate IsNewest(newest: LikeRow, rows: set<LikeRow>) {
    newest in rows && forall r :: r in rows ==> r == newest || Before(newest, r)
  }

  lemma {:induction false} NewestExists(rows: set<LikeRow>)
    requires rows != {} && UniqueIds(rows)
    ensures exists newest :: IsNewest(newest, rows)
  {
    var row :| row in rows;
    if rows == {row} {
      assert IsNewest(row, rows);
    } else {
      NewestExists(rows - {row});
      var other :| IsNewest(other, rows - {row});
      assert other.id != row.id;
      assert IsNewest(if Before(other, row) then other else row, rows) by {
        assert forall r :: r in rows ==> r == row || r in rows - {row};
      }
    }
  }

  /** The rows in the order of the query. */
  ghost function Ordered(rows: set<LikeRow>): (s: seq<LikeRow>)
    requires UniqueIds(rows)
    ensures |s| == |rows|
    ensures Descending(s)
    ensures forall r :: r in s <==> r in rows
  {
    if rows == {} then []
    else
      NewestExists(rows);
      var newest :| IsNewest(newest, rows);
      [newest] + Ordered(rows - {newest})
  }

  /** WHERE user, content type, (created_at, id) < (ts, id) */
  function Selected(table: set<LikeRow>, filter: Option<string>, cursor: Option<Cursor>): set<LikeRow> {
    set r | r in table && Matches(r, filter) && Below(r, cursor)
  }

  /** `get_user_likes`: at most limit + 1 rows, newest first. */
  ghost function Query(table: set<LikeRow>, filter: Option<string>, cursor: Option<Cursor>, limit: nat): seq<LikeRow>
    requires UniqueIds(table)
  {
    var rows := Ordered(Selected(table, filter, cursor));
    rows[..Min(limit + 1, |rows|)]
  }

  lemma OrderedHead(rows: set<LikeRow>, newest: LikeRow)
    requires UniqueIds(rows) && IsNewest(newest, rows)
    ensures Ordered(rows) == [newest] + Ordered(rows - {newest})
  {
    assert Ordered(rows)[0] in rows && newest in Ordered(rows);
    assert Ordered(rows)[0] == newest;
  }

  /** `rows` have been taken from `all`, and `rest` remain. */
  ghost predicate Taken(rows: seq<LikeRow>, rest: set<LikeRow>, all: set<LikeRow>) {
    UniqueIds(rest) && UniqueIds(all) && rows + Ordered(rest) == Ordered(all)
  }

  lemma TakeNext(rows: seq<LikeRow>, rest: set<LikeRow>, all: set<LikeRow>, newest: LikeRow)
    requires Taken(rows, rest, all) && IsNewest(newest, rest)
    ensures Taken(rows + [newest], rest - {newest}, all)
  {
    OrderedHead(rest, newest);
    assert rows + Ordered(rest) == rows + [newest] + Ordered(rest - {newest});
  }

  lemma TakeNone(all: set<LikeRow>)
    requires UniqueIds(all)
    ensures Taken([], all, all)
  {
    assert [] + Ordered(all) == Ordered(all);
  }

  lemma TakenUpTo(rows: seq<LikeRow>, rest: set<LikeRow>, all: set<LikeRow>, limit: nat)
    requires Taken(rows, rest, all) && |rows| <= limit && (|rows| < limit ==> rest == {})
    ensures rows == Ordered(all)[..Min(limit, |Ordered(all)|)]
  {
    assert |Ordered(all)| == |rows| + |rest|;
    assert rows == (rows + Ordered(rest))[..|rows|];
  }

  method NewestOf(rest: set<LikeRow>) returns (newest: LikeRow)
    requires rest != {} && UniqueIds(rest)
    ensures IsNewest(newest, rest)
  {
    NewestExists(rest);
    newest :| newest in rest && forall r :: r in rest ==> r == newest || Before(newest, r);
  }

  /** ORDER BY and LIMIT as they are executed: rows are taken newest first. */
  method TakeNewest(all: set<LikeRow>, limit: nat) returns (rows: seq<LikeRow>)
    requires UniqueIds(all)
    ensures rows == Ordered(all)[..Min(limit, |Ordered(all)|)]
  {
    rows := [];
    var rest := all;
    TakeNone(all);
    while |rows| < limit && rest != {}
      invariant Taken(rows, rest, all) && |rows| <= limit
      decreases |rest|
    {
      var newest := NewestOf(rest);
      TakeNext(rows, rest, all, newest);
      rows := rows + [newest];
      rest := rest - {newest};
    }
    TakenUpTo(rows, rest, all, limit);
  }

  method GetUserLikes(table: set<LikeRow>, filter: Option<string>, cursor: Option<Cursor>, limit: nat)
      returns (rows: seq<LikeRow>)
    requires UniqueIds(table)
    ensures rows == Query(table, filter, cursor, limit)
  {
    rows := TakeNewest(Selected(table, filter, cursor), limit + 1);
  }

  function PageOf(rows: seq<LikeRow>, hasMore: bool): Page {
    Page(rows, if hasMore && rows != [] then Some(CursorOf(rows[|rows| - 1])) else None, hasMore)
  }

  /** A page fetched from the database, as for every request with a cursor. */
  ghost function DirectPage(table: set<LikeRow>, filter: Option<string>, cursor: Option<Cursor>, limit: int): Page
    requires UniqueIds(table)
  {
    var limit := Clamp(limit, 1, MAX_LIMIT);
    var rows := Query(table, filter, cursor, limit);
    PageOf(rows[..Min(limit, |rows|)], |rows| > limit)
  }

  /** What a first-page miss stores: the query is made with the maximal limit. */
  ghost function FullFirstPage(table: set<LikeRow>, filter: Option<string>): CachedUserLikePage
    requires UniqueIds(table)
  {
    var rows := Query(table, filter, None, MAX_LIMIT);
    CachedUserLikePage(rows[..Min(MAX_LIMIT, |rows|)], |rows| > MAX_LIMIT)
  }

  method FetchFullFirstPage(table: set<LikeRow>, filter: Option<string>) returns (page: CachedUserLikePage)
    requires UniqueIds(table)
    ensures page == FullFirstPage(table, filter)
  {
    var rows := GetUserLikes(table, filter, None, MAX_LIMIT);
    page := CachedUserLikePage(rows[..Min(MAX_LIMIT, |rows|)], |rows| > MAX_LIMIT);
  }

  method FetchPage(table: set<LikeRow>, filter: Option<string>, cursor: Option<Cursor>, limit: int)
      returns (page: Page)
    requires UniqueIds(table)
    ensures page == DirectPage(table, filter, cursor, limit)
  {
    var limit := Clamp(limit, 1, MAX_LIMIT);
    var rows := GetUserLikes(table, filter, cursor, limit);
    page := PageOf(rows[..Min(limit, |rows|)], |rows| > limit);
  }

  function BuildPaginatedResponse(page: CachedUserLikePage, limit: int): Page
    requires 1 <= limit
  {
    var hasMore :=
      if |page.rows| > limit then true
      else if |page.rows| == limit then page.hasMore
      else false;
    PageOf(page.rows[..Min(limit, |page.rows|)], hasMore)
  }

  /** The first rows of a list, and whether there are more. */
  function FirstOf(rows: seq<LikeRow>, limit: nat): Page {
    PageOf(rows[..Min(limit, |rows|)], |rows| > limit)
  }

  lemma SliceOfList(rows: seq<LikeRow>, limit: nat)
    requires 1 <= limit <= MAX_LIMIT
    ensures BuildPaginatedResponse(CachedUserLikePage(rows[..Min(MAX_LIMIT, |rows|)], |rows| > MAX_LIMIT), limit)
         == FirstOf(rows, limit)
  {
    var full := rows[..Min(MAX_LIMIT, |rows|)];
    assert full[..Min(limit, |full|)] == rows[..Min(limit, |rows|)];
  }

  /** One row more than the limit is enough to know. */
  lemma FirstOfFetched(rows: seq<LikeRow>, limit: nat)
    ensures FirstOf(rows[..Min(limit + 1, |rows|)], limit) == FirstOf(rows, limit)
  {
    var fetched := rows[..Min(limit + 1, |rows|)];
    assert fetched[..Min(limit, |fetched|)] == rows[..Min(limit, |rows|)];
  }

  lemma FullPageOfList(table: set<LikeRow>, filter: Option<string>)
    requires UniqueIds(table)
    ensures var rows := Ordered(Selected(table, filter, None));
      FullFirstPage(table, filter) == CachedUserLikePage(rows[..Min(MAX_LIMIT, |rows|)], |rows| > MAX_LIMIT)
  {
    var rows := Ordered(Selected(table, filter, None));
    var fetched := Query(table, filter, None, MAX_LIMIT);
    assert fetched[..Min(MAX_LIMIT, |fetched|)] == rows[..Min(MAX_LIMIT, |rows|)];
  }

  /** Slicing the cached 100-row page answers exactly like the direct query. */
  lemma SliceIsDirect(table: set<LikeRow>, filter: Option<string>, limit: int)
    requires UniqueIds(table)
    ensures BuildPaginatedResponse(FullFirstPage(table, filter), Clamp(limit, 1, MAX_LIMIT))
         == DirectPage(table, filter, None, limit)
  {
    var rows := Ordered(Selected(table, filter, None));
    FullPageOfList(table, filter);
    SliceOfList(rows, Clamp(limit, 1, MAX_LIMIT));
    FirstOfFetched(rows, Clamp(limit, 1, MAX_LIMIT));
  }

  // ---------------------------------------------------------------- following cursors

  ghost predicate AllUnique(tables: seq<set<LikeRow>>) {
    forall i :: 0 <= i < |tables| ==> UniqueIds(tables[i])
  }

  /** `pages` are the answers to a client that follows `nextCursor` from `cursor` until
      `hasMore` is false. `tables[i]` is the table when page i was read: anything may have
      been inserted and deleted in between. */
  ghost predicate IsTraversal(tables: seq<set<LikeRow>>, limits: seq<int>, filter: Option<string>,
                              cursor: Option<Cursor>, pages: seq<Page>)
    requires AllUnique(tables)
  {
    && |tables| == |limits| == |pages| > 0
    && pages[0] == DirectPage(tables[0], filter, cursor, limits[0])
    && (if pages[0].hasMore
        then IsTraversal(tables[1..], limits[1..], filter, pages[0].nextCursor, pages[1..])
        else |pages| == 1)
  }

  function AllRows(pages: seq<Page>): seq<LikeRow> {
    if pages == [] then [] else pages[0].rows + AllRows(pages[1..])
  }

  /** One page is a prefix of the ordered selection. */
  lemma PageIsPrefix(table: set<LikeRow>, filter: Option<string>, cursor: Option<Cursor>, limit: int)
      returns (rows: seq<LikeRow>, n: nat)
    requires UniqueIds(table)
    ensures rows == Ordered(Selected(table, filter, cursor))
    ensures n == Min(Clamp(limit, 1, MAX_LIMIT), |rows|)
    ensures DirectPage(table, filter, cursor, limit) == PageOf(rows[..n], n < |rows|)
    ensures n < |rows| ==> n > 0
  {
    rows := Ordered(Selected(table, filter, cursor));
    n := Min(Clamp(limit, 1, MAX_LIMIT), |rows|);
    var fetched := Query(table, filter, cursor, Clamp(limit, 1, MAX_LIMIT));
    assert fetched[..n] == rows[..n];
  }

  /** The rows a request asks for: the user's, of the type, older than the cursor. */
  ghost function Requested(table: set<LikeRow>, filter: Option<string>, cursor: Option<Cursor>): set<LikeRow> {
    set r | r in table
            && (filter.None? || filter == Some(r.item.contentType))
            && (cursor.None? || Before(LikeRow(cursor.value.id, r.item, cursor.value.timestamp), r))
  }

  /** The newest of these rows, as many as the limit allows, and the position of the last of
      them if there are others. */
  ghost predicate PageMeans(wanted: set<LikeRow>, limit: int, page: Page) {
    var size := if limit < 1 then 1 else if limit > 100 then 100 else limit;
    && |page.rows| == Min(size, |wanted|)
    && Descending(page.rows)
    && (forall r :: r in page.rows ==> r in wanted)
    && (forall r, x :: r in wanted && r !in page.rows && x in page.rows ==> Before(x, r))
    && (page.hasMore <==> |wanted| > size)
    && (!page.hasMore ==> page.nextCursor.None?)
    && (page.hasMore ==>
          var last := page.rows[|page.rows| - 1];
          page.nextCursor == Some(Cursor(last.createdAt, last.id)))
  }

  lemma RequestedIsSelected(table: set<LikeRow>, filter: Option<string>, cursor: Option<Cursor>)
    ensures Requested(table, filter, cursor) == Selected(table, filter, cursor)
  {
  }

  /** A prefix of a descending list is descending, and comes before the rest. */
  lemma PrefixComesFirst(rows: seq<LikeRow>, n: nat)
    requires Descending(rows) && n <= |rows|
    ensures Descending(rows[..n])
    ensures forall r, x :: r in rows && r !in rows[..n] && x in rows[..n] ==> Before(x, r)
  {
    var page := rows[..n];
    forall i | 0 <= i < n ensures rows[i] in page {
      assert page[i] == rows[i];
    }
    forall r, x | r in rows && r !in page && x in page ensures Before(x, r) {
      var i :| 0 <= i < |rows| && rows[i] == r;
      var j :| 0 <= j < n && page[j] == x;
    }
  }

  lemma PrefixMeans(wanted: set<LikeRow>, rows: seq<LikeRow>, limit: int, n: nat)
    requires |rows| == |wanted| && Descending(rows) && forall r :: r in rows <==> r in wanted
    requires n == Min(Clamp(limit, 1, 100), |rows|)
    ensures PageMeans(wanted, limit, PageOf(rows[..n], n < |rows|))
  {
    PrefixComesFirst(rows, n);
    var taken := rows[..n];
    assert forall r :: r in taken ==> r in rows;
  }

  /** What the page of a request is, for every table, filter, cursor and limit. */
  lemma DirectPageMeans(table: set<LikeRow>, filter: Option<string>, cursor: Option<Cursor>, limit: int)
    requires UniqueIds(table)
    ensures PageMeans(Requested(table, filter, cursor), limit, DirectPage(table, filter, cursor, limit))
  {
    RequestedIsSelected(table, filter, cursor);
    var rows, n := PageIsPrefix(table, filter, cursor, limit);
    PrefixMeans(Requested(table, filter, cursor), rows, limit, n);
  }

  /** Every selected row is on the page or below its cursor. */
  lemma PageSplits(table: set<LikeRow>, filter: Option<string>, cursor: Option<Cursor>, limit: int, r: LikeRow)
    requires UniqueIds(table) && r in Selected(table, filter, cursor)
    ensures var page := DirectPage(table, filter, cursor, limit);
      r in page.rows || (page.hasMore && Below(r, page.nextCursor))
  {
    var rows, n := PageIsPrefix(table, filter, cursor, limit);
    assert r in rows;
    var i :| 0 <= i < |rows| && rows[i] == r;
    if i < n {
      assert rows[..n][i] == r;
    } else {
      assert Before(rows[n - 1], rows[i]);
    }
  }

  /** Below the cursor of a page is below the cursor it was asked for. */
  lemma NextIsLower(table: set<LikeRow>, filter: Option<string>, cursor: Option<Cursor>, limit: int, r: LikeRow)
    requires UniqueIds(table)
    requires var page := DirectPage(table, filter, cursor, limit); page.hasMore && Below(r, page.nextCursor)
    ensures Below(r, cursor)
  {
    var rows, n := PageIsPrefix(table, filter, cursor, limit);
    assert rows[n - 1] in rows;
  }

  lemma PageIsSelected(table: set<LikeRow>, filter: Option<string>, cursor: Option<Cursor>, limit: int, r: LikeRow)
    requires UniqueIds(table) && r in DirectPage(table, filter, cursor, limit).rows
    ensures r in Selected(table, filter, cursor)
  {
    var rows, n := PageIsPrefix(table, filter, cursor, limit);
    assert r in rows;
  }

  /** Each listed row was in the table, and matched, when its page was read. */
  lemma {:induction false} TraversalSound(tables: seq<set<LikeRow>>, limits: seq<int>, filter: Option<string>,
                                          cursor: Option<Cursor>, pages: seq<Page>, r: LikeRow) returns (i: nat)
    requires AllUnique(tables) && IsTraversal(tables, limits, filter, cursor, pages) && r in AllRows(pages)
    ensures i < |tables| && r in tables[i] && r in Selected(tables[i], filter, cursor)
    ensures filter.Some? ==> r.item.contentType == filter.value
  {
    var page := pages[0];
    if r in page.rows {
      PageIsSelected(tables[0], filter, cursor, limits[0], r);
      i := 0;
    } else {
      i := TraversalSound(tables[1..], limits[1..], filter, page.nextCursor, pages[1..], r);
      NextIsLower(tables[0], filter, cursor, limits[0], r);
      i := i + 1;
    }
  }

  lemma DescendingConcat(a: seq<LikeRow>, b: seq<LikeRow>)
    requires Descending(a) && Descending(b)
    requires forall x, y :: x in a && y in b ==> Before(x, y)
    ensures Descending(a + b)
  {
  }

  /** What is below the cursor of a page comes after each of its rows. */
  lemma PageAboveCursor(table: set<LikeRow>, filter: Option<string>, cursor: Option<Cursor>, limit: int,
                        x: LikeRow, y: LikeRow)
    requires UniqueIds(table)
    requires var page := DirectPage(table, filter, cursor, limit);
      page.hasMore && x in page.rows && Below(y, page.nextCursor)
    ensures Before(x, y)
  {
    var rows, n := PageIsPrefix(table, filter, cursor, limit);
    var i :| 0 <= i < n && rows[i] == x;
    assert i == n - 1 || Before(rows[i], rows[n - 1]);
  }

  lemma RestBelowCursor(tables: seq<set<LikeRow>>, limits: seq<int>, filter: Option<string>,
                        cursor: Option<Cursor>, pages: seq<Page>, y: LikeRow)
    requires AllUnique(tables) && IsTraversal(tables, limits, filter, cursor, pages) && y in AllRows(pages[1..])
    ensures pages[0].hasMore && Below(y, pages[0].nextCursor)
  {
    var k := TraversalSound(tables[1..], limits[1..], filter, pages[0].nextCursor, pages[1..], y);
  }

  lemma PageBeforeRest(tables: seq<set<LikeRow>>, limits: seq<int>, filter: Option<string>,
                       cursor: Option<Cursor>, pages: seq<Page>, x: LikeRow, y: LikeRow)
    requires AllUnique(tables) && IsTraversal(tables, limits, filter, cursor, pages)
    requires x in pages[0].rows && y in AllRows(pages[1..])
    ensures Before(x, y)
  {
    RestBelowCursor(tables, limits, filter, cursor, pages, y);
    PageAboveCursor(tables[0], filter, cursor, limits[0], x, y);
  }

  /** Rows come strictly newest first across all pages, so no row is listed twice. */
  lemma {:induction false} TraversalDescends(tables: seq<set<LikeRow>>, limits: seq<int>, filter: Option<string>,
                                             cursor: Option<Cursor>, pages: seq<Page>)
    requires AllUnique(tables) && IsTraversal(tables, limits, filter, cursor, pages)
    ensures Descending(AllRows(pages))
  {
    var page, rest := pages[0], AllRows(pages[1..]);
    var rows, n := PageIsPrefix(tables[0], filter, cursor, limits[0]);
    if page.hasMore {
      TraversalDescends(tables[1..], limits[1..], filter, page.nextCursor, pages[1..]);
    }
    forall x, y | x in page.rows && y in rest ensures Before(x, y) {
      PageBeforeRest(tables, limits, filter, cursor, pages, x, y);
    }
    DescendingConcat(page.rows, rest);
  }

  /** A matching row that is there at every read, from the snapshot of the first page to
      the last page, is listed. */
  lemma {:induction false} TraversalComplete(tables: seq<set<LikeRow>>, limits: seq<int>, filter: Option<string>,
                                             cursor: Option<Cursor>, pages: seq<Page>, r: LikeRow)
    requires AllUnique(tables) && IsTraversal(tables, limits, filter, cursor, pages)
    requires forall i :: 0 <= i < |tables| ==> r in Selected(tables[i], filter, cursor)
    ensures r in AllRows(pages)
  {
    PageSplits(tables[0], filter, cursor, limits[0], r);
    if r !in pages[0].rows {
      TraversalComplete(tables[1..], limits[1..], filter, pages[0].nextCursor, pages[1..], r);
    }
  }

  /** Together: a row that stays is listed exactly once. */
  lemma StayingRowListedOnce(tables: seq<set<LikeRow>>, limits: seq<int>, filter: Option<string>,
                             pages: seq<Page>, r: LikeRow) returns (i: nat)
    requires AllUnique(tables) && IsTraversal(tables, limits, filter, None, pages)
    requires filter.Some? ==> r.item.contentType == filter.value
    requires forall k :: 0 <= k < |tables| ==> r in tables[k]
    ensures i < |AllRows(pages)| && AllRows(pages)[i] == r
    ensures forall j :: 0 <= j < |AllRows(pages)| && j != i ==> AllRows(pages)[j] != r
  {
    TraversalComplete(tables, limits, filter, None, pages, r);
    TraversalDescends(tables, limits, filter, None, pages);
    i :| 0 <= i < |AllRows(pages)| && AllRows(pages)[i] == r;
  }

  lemma SameRowsBothEmpty(a: seq<LikeRow>, b: seq<LikeRow>)
    requires forall r :: r in a <==> r in b
    ensures a == [] <==> b == []
  {
    if a != [] {
      assert a[0] in a;
    }
    if b != [] {
      assert b[0] in b;
    }
  }

  lemma {:induction false} SameRowsSameOrder(a: seq<LikeRow>, b: seq<LikeRow>)
    requires Descending(a) && Descending(b)
    requires forall r :: r in a <==> r in b
    ensures a == b
  {
    SameRowsBothEmpty(a, b);
    if a != [] {
      assert a[0] in a && b[0] in b;
      assert a[0] == b[0];
      forall r ensures r in a[1..] <==> r in b[1..] {
        if r in a[1..] {
          assert r in a && Before(a[0], r);
        }
        if r in b[1..] {
          assert r in b && Before(b[0], r);
        }
      }
      SameRowsSameOrder(a[1..], b[1..]);
    }
  }

  ghost predicate AllEqual(tables: seq<set<LikeRow>>, table: set<LikeRow>) {
    forall i :: 0 <= i < |tables| ==> tables[i] == table
  }

  lemma StaticTraversalRows(table: set<LikeRow>, tables: seq<set<LikeRow>>, limits: seq<int>,
                            filter: Option<string>, cursor: Option<Cursor>, pages: seq<Page>, r: LikeRow)
    requires AllUnique(tables) && IsTraversal(tables, limits, filter, cursor, pages) && AllEqual(tables, table)
    ensures r in AllRows(pages) <==> r in Selected(table, filter, cursor)
  {
    if r in AllRows(pages) {
      var i := TraversalSound(tables, limits, filter, cursor, pages, r);
    } else if r in Selected(table, filter, cursor) {
      TraversalComplete(tables, limits, filter, cursor, pages, r);
    }
  }

  /** On a table that does not change, the pages concatenate to the whole sorted list,
      whatever limit each request asks for. */
  lemma StaticTraversalListsAll(table: set<LikeRow>, tables: seq<set<LikeRow>>, limits: seq<int>,
                                filter: Option<string>, cursor: Option<Cursor>, pages: seq<Page>)
    requires UniqueIds(table) && AllEqual(tables, table)
    requires AllUnique(tables) && IsTraversal(tables, limits, filter, cursor, pages)
    ensures AllRows(pages) == Ordered(Selected(table, filter, cursor))
  {
    var all, ordered := AllRows(pages), Ordered(Selected(table, filter, cursor));
    TraversalDescends(tables, limits, filter, cursor, pages);
    forall r ensures r in all <==> r in ordered {
      StaticTraversalRows(table, tables, limits, filter, cursor, pages, r);
    }
    SameRowsSameOrder(all, ordered);
  }

  lemma NextCursorIsLastRow(table: set<LikeRow>, filter: Option<string>, cursor: Option<Cursor>, limit: int)
      returns (last: LikeRow)
    requires UniqueIds(table) && DirectPage(table, filter, cursor, limit).hasMore
    ensures last in Selected(table, filter, cursor)
    ensures DirectPage(table, filter, cursor, limit).nextCursor == Some(CursorOf(last))
  {
    var rows, n := PageIsPrefix(table, filter, cursor, limit);
    last := rows[n - 1];
    assert last in rows;
  }

  lemma FewerRowsBelow(table: set<LikeRow>, filter: Option<string>, cursor: Option<Cursor>, last: LikeRow)
    requires last in Selected(table, filter, cursor)
    ensures |Selected(table, filter, Some(CursorOf(last)))| < |Selected(table, filter, cursor)|
  {
    var here, below := Selected(table, filter, cursor), Selected(table, filter, Some(CursorOf(last)));
    assert below <= here && last !in below;
    assert here == (here - below) + below;
    assert |here| == |here - below| + |below|;
  }

  lemma OneMorePage(table: set<LikeRow>, tables: seq<set<LikeRow>>, limit: int, limits: seq<int>,
                    filter: Option<string>, cursor: Option<Cursor>, pages: seq<Page>)
    requires UniqueIds(table) && DirectPage(table, filter, cursor, limit).hasMore
    requires AllUnique(tables)
    requires IsTraversal(tables, limits, filter, DirectPage(table, filter, cursor, limit).nextCursor, pages)
    ensures AllUnique([table] + tables)
    ensures IsTraversal([table] + tables, [limit] + limits, filter, cursor,
                        [DirectPage(table, filter, cursor, limit)] + pages)
  {
    assert ([table] + tables)[1..] == tables;
    assert ([limit] + limits)[1..] == limits;
    assert ([DirectPage(table, filter, cursor, limit)] + pages)[1..] == pages;
  }

  /** A client that keeps following cursors over a table that does not change gets to the
      last page, after at most one request per row. */
  lemma {:induction false} CursorsRunOut(table: set<LikeRow>, filter: Option<string>, cursor: Option<Cursor>,
                                         limits: seq<int>)
      returns (tables: seq<set<LikeRow>>, used: seq<int>, pages: seq<Page>)
    requires UniqueIds(table) && |limits| > |Selected(table, filter, cursor)|
    ensures used <= limits && AllEqual(tables, table) && AllUnique(tables)
    ensures IsTraversal(tables, used, filter, cursor, pages)
    decreases |limits|
  {
    var page := DirectPage(table, filter, cursor, limits[0]);
    tables, used, pages := [table], limits[..1], [page];
    if page.hasMore {
      var last := NextCursorIsLastRow(table, filter, cursor, limits[0]);
      FewerRowsBelow(table, filter, cursor, last);
      tables, used, pages := CursorsRunOut(table, filter, page.nextCursor, limits[1..]);
      OneMorePage(table, tables, limits[0], used, filter, cursor, pages);
      tables, used, pages := [table] + tables, [limits[0]] + used, [page] + pages;
    }
  }
}
