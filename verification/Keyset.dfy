/** Keyset pagination: walking a table page by page with a cursor, against the sorted list
    of the table. A row is represented by its sort key, which is unique in the table. */
module Keyset {
  import opened ByteOrder
  import opened Wrappers

  /** Creation time and tie-breaker: the username, or the row id in the exports. */
  datatype Key = Key(createdAt: int, tie: Bytes)

  datatype Direction = Ascending | Descending

  // ---------- query parameters ----------

  function Max(a: int, b: int): int {
    if a >= b then a else b
  }

  function Min(a: int, b: int): int {
    if a <= b then a else b
  }

  /** A parsed number, where NaN and zero fall back to a default. */
  function OrDefault(parsed: Option<int>, default: int): int {
    if parsed == None || parsed.value == 0 then default else parsed.value
  }

  datatype Pagination = Pagination(page: int, limit: int, skip: int)

  function ParseLimit(limit: Option<int>, defaultLimit: int, maxLimit: int): int {
    Min(maxLimit, Max(1, OrDefault(limit, defaultLimit)))
  }

  function ParsePagination(page: Option<int>, limit: Option<int>, defaultLimit: int, maxLimit: int): (p: Pagination)
    ensures p.page >= 1
    ensures maxLimit >= 1 ==> 1 <= p.limit <= maxLimit && p.skip >= 0
    ensures maxLimit >= 1 ==> (p.skip == 0 <==> p.page == 1)
  {
    var page := Max(1, OrDefault(page, 1));
    var limit := ParseLimit(limit, defaultLimit, maxLimit);
    SkipIsZero(page - 1, limit);
    Pagination(page, limit, (page - 1) * limit)
  }

  lemma SkipIsZero(n: nat, limit: int)
    ensures limit >= 1 ==> n * limit >= 0 && (n * limit == 0 <==> n == 0)
  {
  }

  /** A missing, zero or negative page counts as the first. The limit is what is asked for,
      within bounds; the default applies where none or zero is asked for, and a negative one
      counts as one. */
  lemma ParsesExactly(page: Option<int>, limit: Option<int>, defaultLimit: int, maxLimit: int)
    requires 1 <= defaultLimit <= maxLimit
    ensures var p := ParsePagination(page, limit, defaultLimit, maxLimit);
            && p.page == (if page.Some? && page.value >= 1 then page.value else 1)
            && (limit == None || limit.value == 0 ==> p.limit == defaultLimit)
            && (limit.Some? && limit.value < 0 ==> p.limit == 1)
            && (limit.Some? && 1 <= limit.value <= maxLimit ==> p.limit == limit.value)
            && (limit.Some? && limit.value > maxLimit ==> p.limit == maxLimit)
            && p.skip == (p.page - 1) * p.limit
  {
  }

  // ---------- order ----------

  predicate Less(a: Key, b: Key) {
    a.createdAt < b.createdAt || (a.createdAt == b.createdAt && Compare(a.tie, b.tie) == ByteOrder.Less)
  }

  /** Whether `a` is listed before `b`. */
  predicate Before(d: Direction, a: Key, b: Key) {
    if d.Ascending? then Less(a, b) else Less(b, a)
  }

  /** The filter of the next query: rows strictly past the cursor row. */
  predicate KeysetWhere(d: Direction, point: Key, row: Key) {
    match d
    case Descending =>
      row.createdAt < point.createdAt
      || (row.createdAt == point.createdAt && Compare(row.tie, point.tie) == ByteOrder.Less)
    case Ascending =>
      row.createdAt > point.createdAt
      || (row.createdAt == point.createdAt && Compare(row.tie, point.tie) == Greater)
  }

  lemma WhereIsPastCursor(d: Direction, point: Key, row: Key)
    ensures KeysetWhere(d, point, row) <==> Before(d, point, row)
  {
    CompareFlip(point.tie, row.tie);
  }

  lemma CompareLessTransitive(a: Bytes, b: Bytes, c: Bytes)
    requires Compare(a, b) == ByteOrder.Less && Compare(b, c) == ByteOrder.Less
    ensures Compare(a, c) == ByteOrder.Less
  {
    LeqTransitive(a, b, c);
    if Compare(a, c) == Equal {
      CompareEqual(a, c);
      CompareFlip(a, b);
    }
  }

  lemma BeforeTransitive(d: Direction, a: Key, b: Key, c: Key)
    requires Before(d, a, b) && Before(d, b, c)
    ensures Before(d, a, c)
  {
    if a.createdAt == b.createdAt == c.createdAt {
      if d.Ascending? {
        CompareLessTransitive(a.tie, b.tie, c.tie);
      } else {
        CompareLessTransitive(c.tie, b.tie, a.tie);
      }
    }
  }

  lemma BeforeTotal(d: Direction, a: Key, b: Key)
    ensures a != b ==> Before(d, a, b) || Before(d, b, a)
    ensures !(Before(d, a, b) && Before(d, b, a))
    ensures !Before(d, a, a)
  {
    CompareFlip(a.tie, b.tie);
    CompareEqual(a.tie, b.tie);
    CompareEqual(a.tie, a.tie);
  }

  ghost predicate Ordered(d: Direction, s: seq<Key>) {
    forall i, j :: 0 <= i < j < |s| ==> Before(d, s[i], s[j])
  }

  function Elements(s: seq<Key>): set<Key> {
    set x | x in s
  }

  lemma {:induction false} FirstExists(d: Direction, table: set<Key>)
    requires table != {}
    ensures exists m :: IsFirst(d, m, table)
  {
    var k :| k in table;
    if table == {k} {
      assert IsFirst(d, k, table);
    } else {
      var rest := table - {k};
      assert rest != {};
      FirstExists(d, rest);
      var m :| IsFirst(d, m, rest);
      BeforeTotal(d, k, m);
      if Before(d, k, m) {
        forall x | x in table && x != k ensures Before(d, k, x) {
          if x != m {
            BeforeTransitive(d, k, m, x);
          }
        }
        assert IsFirst(d, k, table);
      } else {
        assert IsFirst(d, m, table);
      }
    }
  }

  ghost predicate IsFirst(d: Direction, m: Key, table: set<Key>) {
    m in table && forall x :: x in table && x != m ==> Before(d, m, x)
  }

  /** The table in listing order. */
  ghost function Listing(d: Direction, table: set<Key>): (s: seq<Key>)
    ensures Elements(s) == table
  {
    if table == {} then []
    else
      FirstExists(d, table);
      var m :| IsFirst(d, m, table);
      var rest := Listing(d, table - {m});
      ElementsOfPrepend(m, rest);
      [m] + rest
  }

  lemma ElementsOfPrepend(m: Key, rest: seq<Key>)
    ensures Elements([m] + rest) == {m} + Elements(rest)
  {
    forall x ensures x in Elements([m] + rest) <==> x in {m} + Elements(rest) {
      assert x in [m] + rest <==> x == m || x in rest;
    }
  }

  lemma {:induction false} ListingOrdered(d: Direction, table: set<Key>)
    ensures Ordered(d, Listing(d, table))
  {
    if table != {} {
      FirstExists(d, table);
      var m :| IsFirst(d, m, table) && Listing(d, table) == [m] + Listing(d, table - {m});
      var rest := Listing(d, table - {m});
      ListingOrdered(d, table - {m});
      forall j | 0 <= j < |rest| ensures Before(d, m, rest[j]) {
        assert rest[j] in Elements(rest);
      }
    }
  }

  lemma ElementsEmpty(s: seq<Key>)
    ensures Elements(s) == {} <==> s == []
  {
    if s != [] {
      assert s[0] in Elements(s);
    }
  }

  /** An ordered list is determined by its elements. */
  lemma {:induction false} OrderedUnique(d: Direction, a: seq<Key>, b: seq<Key>)
    requires Ordered(d, a) && Ordered(d, b) && Elements(a) == Elements(b)
    ensures a == b
  {
    ElementsEmpty(a);
    ElementsEmpty(b);
    if a == [] {
    } else {
      assert a[0] in Elements(b);
      assert b[0] in Elements(a);
      var i :| 0 <= i < |b| && b[i] == a[0];
      var j :| 0 <= j < |a| && a[j] == b[0];
      BeforeTotal(d, a[0], b[0]);
      assert a[0] == b[0];
      TailElements(d, a);
      TailElements(d, b);
      OrderedUnique(d, a[1..], b[1..]);
      assert a == [a[0]] + a[1..] && b == [b[0]] + b[1..];
    }
  }

  lemma TailElements(d: Direction, a: seq<Key>)
    requires Ordered(d, a) && a != []
    ensures Ordered(d, a[1..]) && Elements(a[1..]) == Elements(a) - {a[0]}
  {
    assert a == [a[0]] + a[1..];
    BeforeTotal(d, a[0], a[0]);
  }

  /** A descending listing goes from the newest row to the oldest, an ascending one the other
      way, and rows of the same time stand in descending or ascending byte order of their ties. */
  lemma ListingIsByTime(d: Direction, table: set<Key>, i: nat, j: nat)
    requires i < j < |Listing(d, table)|
    ensures var (a, b) := (Listing(d, table)[i], Listing(d, table)[j]);
            match d
            case Descending =>
              a.createdAt > b.createdAt || (a.createdAt == b.createdAt && ByteOrder.Before(b.tie, a.tie))
            case Ascending =>
              a.createdAt < b.createdAt || (a.createdAt == b.createdAt && ByteOrder.Before(a.tie, b.tie))
  {
    ListingOrdered(d, table);
    var (a, b) := (Listing(d, table)[i], Listing(d, table)[j]);
    assert Before(d, a, b);
    CompareIsLexicographic(a.tie, b.tie);
    CompareIsLexicographic(b.tie, a.tie);
  }

  // ---------- pages ----------

  /** The rows of a table that a query with this cursor may return. */
  function Past(d: Direction, table: set<Key>, cursor: Option<Key>): set<Key> {
    set x | x in table && (cursor.Some? ==> KeysetWhere(d, cursor.value, x))
  }

  function Take(s: seq<Key>, n: nat): seq<Key> {
    if |s| <= n then s else s[..n]
  }

  /** One query: the first `limit + 1` rows past the cursor, in listing order. */
  ghost function Fetch(d: Direction, table: set<Key>, cursor: Option<Key>, limit: nat): seq<Key> {
    Take(Listing(d, Past(d, table, cursor)), limit + 1)
  }

  datatype Page = Page(rows: seq<Key>, hasMore: bool, nextCursor: Option<Key>)

  function PaginateByKeyset(rows: seq<Key>, limit: nat): Page {
    var hasMore := |rows| > limit;
    var page := if hasMore then rows[..limit] else rows;
    Page(page, hasMore, if hasMore && page != [] then Some(page[|page| - 1]) else None)
  }

  /** The pages a client gets that follows `nextCursor` until `hasMore` is false; the table
      may be a different one at every fetch. */
  ghost function Walk(d: Direction, tables: seq<set<Key>>, cursor: Option<Key>, limit: nat): seq<Page>
    decreases |tables|
  {
    if tables == [] then []
    else
      var page := PaginateByKeyset(Fetch(d, tables[0], cursor, limit), limit);
      [page] + if page.hasMore then Walk(d, tables[1..], page.nextCursor, limit) else []
  }

  function Rows(pages: seq<Page>): seq<Key> {
    if pages == [] then [] else pages[0].rows + Rows(pages[1..])
  }

  predicate Completed(pages: seq<Page>) {
    pages != [] && !pages[|pages| - 1].hasMore
  }

  // ---------- walking a table that changes ----------

  /** The rows of a page of an ordered list, and what follows them. */
  lemma SplitFacts(d: Direction, listing: seq<Key>, limit: nat, page: Page)
    requires limit >= 1 && Ordered(d, listing)
    requires page == PaginateByKeyset(Take(listing, limit + 1), limit)
    ensures page.rows == Take(listing, limit) && Ordered(d, page.rows)
    ensures page.hasMore ==> |page.rows| == limit && page.nextCursor == Some(page.rows[limit - 1])
    ensures forall x :: x in page.rows ==> x in listing
    ensures forall i :: 0 <= i < |listing| && listing[i] !in page.rows ==>
              page.hasMore && Before(d, page.nextCursor.value, listing[i])
  {
    assert page.rows == Take(listing, limit);
    forall i | 0 <= i < |page.rows| ensures listing[i] in page.rows {
      assert page.rows[i] == listing[i];
    }
  }

  /** One page: in order, past the cursor, taken from the table, and followed by everything
      in the table that it does not contain. */
  lemma PageFacts(d: Direction, table: set<Key>, cursor: Option<Key>, limit: nat)
    requires limit >= 1
    ensures var page := PaginateByKeyset(Fetch(d, table, cursor, limit), limit);
            && Ordered(d, page.rows)
            && (forall x :: x in page.rows ==> x in table && (cursor.Some? ==> Before(d, cursor.value, x)))
            && (page.hasMore ==> |page.rows| == limit && page.nextCursor == Some(page.rows[limit - 1]))
            && (forall x :: x in Past(d, table, cursor) && x !in page.rows ==>
                  page.hasMore && Before(d, page.nextCursor.value, x))
  {
    var listing := Listing(d, Past(d, table, cursor));
    ListingOrdered(d, Past(d, table, cursor));
    var page := PaginateByKeyset(Fetch(d, table, cursor, limit), limit);
    SplitFacts(d, listing, limit, page);
    forall x | x in page.rows ensures x in table && (cursor.Some? ==> Before(d, cursor.value, x)) {
      assert x in Elements(listing);
      if cursor.Some? {
        WhereIsPastCursor(d, cursor.value, x);
      }
    }
    forall x | x in Past(d, table, cursor) && x !in page.rows
      ensures page.hasMore && Before(d, page.nextCursor.value, x)
    {
      assert x in Elements(listing);
      var i :| 0 <= i < |listing| && listing[i] == x;
    }
  }

  lemma {:induction false} RowsMembers(pages: seq<Page>, x: Key)
    ensures x in Rows(pages) <==> exists i :: 0 <= i < |pages| && x in pages[i].rows
  {
    if pages != [] {
      RowsMembers(pages[1..], x);
      if x in Rows(pages[1..]) {
        var i :| 0 <= i < |pages[1..]| && x in pages[1..][i].rows;
        assert x in pages[i + 1].rows;
      }
      if i :| 0 <= i < |pages| && x in pages[i].rows {
        if i > 0 {
          assert x in pages[1..][i - 1].rows;
        }
      }
    }
  }

  lemma OrderedJoin(d: Direction, a: seq<Key>, b: seq<Key>)
    requires Ordered(d, a) && Ordered(d, b)
    requires a != [] ==> forall x :: x in b ==> Before(d, a[|a| - 1], x)
    ensures Ordered(d, a + b)
  {
    var ab := a + b;
    forall i, j | 0 <= i < j < |ab| ensures Before(d, ab[i], ab[j]) {
      if i < |a| <= j {
        assert ab[j] in b;
        if i < |a| - 1 {
          BeforeTransitive(d, a[i], a[|a| - 1], ab[j]);
        }
      }
    }
  }

  /** A row that was there, past the cursor, whenever one of the first `n` pages was fetched. */
  ghost predicate AlwaysPast(d: Direction, tables: seq<set<Key>>, n: nat, cursor: Option<Key>, x: Key) {
    n <= |tables| && forall i :: 0 <= i < n ==> x in Past(d, tables[i], cursor)
  }

  /** Whatever happens to the table between fetches, the walk lists rows in order and past
      its cursor. */
  lemma {:induction false} WalkIsOrdered(d: Direction, tables: seq<set<Key>>, cursor: Option<Key>, limit: nat)
    requires limit >= 1
    ensures var rows := Rows(Walk(d, tables, cursor, limit));
            Ordered(d, rows) && forall x :: x in rows ==> cursor.Some? ==> Before(d, cursor.value, x)
    decreases |tables|
  {
    if tables != [] {
      var page := PaginateByKeyset(Fetch(d, tables[0], cursor, limit), limit);
      PageFacts(d, tables[0], cursor, limit);
      var pages := Walk(d, tables, cursor, limit);
      var rest := Rows(pages[1..]);
      assert Rows(pages) == page.rows + rest;
      if page.hasMore {
        assert pages[1..] == Walk(d, tables[1..], page.nextCursor, limit);
        WalkIsOrdered(d, tables[1..], page.nextCursor, limit);
        OrderedJoin(d, page.rows, rest);
        assert page.nextCursor.value in page.rows;
        forall x | x in rest ensures cursor.Some? ==> Before(d, cursor.value, x) {
          if cursor.Some? {
            BeforeTransitive(d, cursor.value, page.nextCursor.value, x);
          }
        }
      }
    }
  }

  /** Each row of a page comes from the table the page was fetched from. */
  lemma {:induction false} WalkFollowsTables(d: Direction, tables: seq<set<Key>>, cursor: Option<Key>, limit: nat)
    requires limit >= 1
    ensures var pages := Walk(d, tables, cursor, limit);
            |pages| <= |tables| && forall i, x :: 0 <= i < |pages| && x in pages[i].rows ==> x in tables[i]
    decreases |tables|
  {
    if tables != [] {
      var page := PaginateByKeyset(Fetch(d, tables[0], cursor, limit), limit);
      PageFacts(d, tables[0], cursor, limit);
      WalkFollowsTables(d, tables[1..], page.nextCursor, limit);
      var pages := Walk(d, tables, cursor, limit);
      forall i, x | 0 <= i < |pages| && x in pages[i].rows ensures x in tables[i] {
        if i > 0 {
          assert pages[1..][i - 1] == pages[i] && tables[1..][i - 1] == tables[i];
        }
      }
    }
  }

  /** A completed walk contains every row past the cursor that was there at each fetch. */
  lemma {:induction false} WalkMissesNothing(
      d: Direction, tables: seq<set<Key>>, cursor: Option<Key>, limit: nat, x: Key)
    requires limit >= 1
    requires var pages := Walk(d, tables, cursor, limit);
             Completed(pages) && AlwaysPast(d, tables, |pages|, cursor, x)
    ensures x in Rows(Walk(d, tables, cursor, limit))
    decreases |tables|
  {
    var page := PaginateByKeyset(Fetch(d, tables[0], cursor, limit), limit);
    PageFacts(d, tables[0], cursor, limit);
    var pages := Walk(d, tables, cursor, limit);
    var rest := pages[1..];
    assert pages == [page] + rest;
    assert x in Past(d, tables[0], cursor);
    if x !in page.rows {
      WhereIsPastCursor(d, page.nextCursor.value, x);
      assert rest == Walk(d, tables[1..], page.nextCursor, limit);
      forall i | 0 <= i < |rest| ensures x in Past(d, tables[1..][i], page.nextCursor) {
        assert x in Past(d, tables[i + 1], cursor);
      }
      CompletedRest(page, rest);
      WalkMissesNothing(d, tables[1..], page.nextCursor, limit, x);
    }
  }

  lemma CompletedRest(page: Page, rest: seq<Page>)
    requires Completed([page] + rest) && page.hasMore
    ensures Completed(rest)
  {
    var pages := [page] + rest;
    assert rest != [] ==> pages[|pages| - 1] == rest[|rest| - 1];
  }

  /** Rows may come and go between fetches: no row is returned twice, and a completed walk
      returns every row that was in the table at each of its fetches. */
  lemma ChangingTableWalk(d: Direction, tables: seq<set<Key>>, limit: nat)
    requires limit >= 1
    ensures var pages := Walk(d, tables, None, limit);
            var rows := Rows(pages);
            && |pages| <= |tables|
            && (forall i, j :: 0 <= i < j < |rows| ==> rows[i] != rows[j])
            && (forall x :: x in rows ==> exists i :: 0 <= i < |pages| && x in tables[i])
            && (Completed(pages) ==>
                  forall x :: (forall i :: 0 <= i < |pages| ==> x in tables[i]) ==> x in rows)
  {
    var pages := Walk(d, tables, None, limit);
    var rows := Rows(pages);
    WalkIsOrdered(d, tables, None, limit);
    WalkFollowsTables(d, tables, None, limit);
    if Completed(pages) {
      forall x | forall i :: 0 <= i < |pages| ==> x in tables[i] ensures x in rows {
        assert AlwaysPast(d, tables, |pages|, None, x);
        WalkMissesNothing(d, tables, None, limit, x);
      }
    }
    forall i, j | 0 <= i < j < |rows| ensures rows[i] != rows[j] {
      BeforeTotal(d, rows[i], rows[j]);
      BeforeTotal(d, rows[i], rows[i]);
    }
    forall x | x in rows ensures exists i :: 0 <= i < |pages| && x in tables[i] {
      RowsMembers(pages, x);
    }
  }

  // ---------- walking a fixed table ----------

  /** Seeking past the last row of a prefix of the listing leaves exactly the rest of it. */
  lemma SeekIsDrop(d: Direction, table: set<Key>, cursor: Option<Key>, k: nat)
    requires var listing := Listing(d, Past(d, table, cursor)); 1 <= k <= |listing|
    ensures var listing := Listing(d, Past(d, table, cursor));
            Listing(d, Past(d, table, Some(listing[k - 1]))) == listing[k..]
  {
    hide Listing, KeysetWhere, Less, Before;
    var listing := Listing(d, Past(d, table, cursor));
    var last := listing[k - 1];
    ListingOrdered(d, Past(d, table, cursor));
    ListingOrdered(d, Past(d, table, Some(last)));
    assert last in Elements(listing);
    forall x ensures x in Elements(listing[k..]) <==> x in Past(d, table, Some(last)) {
      WhereIsPastCursor(d, last, x);
      if x in Past(d, table, Some(last)) {
        PastChains(d, table, cursor, last, x);
        assert x in Elements(listing);
        var i :| 0 <= i < |listing| && listing[i] == x;
        BeforeTotal(d, last, x);
        assert listing[k..][i - k] == x;
      }
      if x in Elements(listing[k..]) {
        var i :| 0 <= i < |listing[k..]| && listing[k..][i] == x;
        assert listing[k + i] == x && x in Elements(listing);
      }
    }
    OrderedUnique(d, Listing(d, Past(d, table, Some(last))), listing[k..]);
  }

  lemma PastChains(d: Direction, table: set<Key>, cursor: Option<Key>, last: Key, x: Key)
    requires last in Past(d, table, cursor) && x in Past(d, table, Some(last))
    ensures x in Past(d, table, cursor)
  {
    WhereIsPastCursor(d, last, x);
    if cursor.Some? {
      WhereIsPastCursor(d, cursor.value, last);
      BeforeTransitive(d, cursor.value, last, x);
      WhereIsPastCursor(d, cursor.value, x);
    }
  }

  function Slice(s: seq<Key>, from: nat, count: nat): seq<Key> {
    if from >= |s| then [] else Take(s[from..], count)
  }

  /** The rows an offset query returns: skip, then take. */
  ghost function OffsetPage(d: Direction, table: set<Key>, p: Pagination): seq<Key>
    requires p.skip >= 0 && p.limit >= 0
  {
    Slice(Listing(d, table), p.skip, p.limit)
  }

  /** `n` pages, all but the last one full, hold `length` rows; only an empty list has an
      empty page. */
  predicate PageCount(n: nat, limit: nat, length: nat) {
    n >= 1 && (n - 1) * limit <= length <= n * limit && (n > 1 ==> (n - 1) * limit < length)
  }

  lemma PageCountNext(n: nat, limit: nat, length: nat)
    requires PageCount(n, limit, length) && length > 0
    ensures PageCount(n + 1, limit, length + limit)
  {
    assert (n + 1) * limit == n * limit + limit;
    assert n * limit == (n - 1) * limit + limit;
  }

  /** The pages of a list: consecutive slices of it, as few as it takes. */
  ghost predicate PagesOf(pages: seq<Page>, listing: seq<Key>, limit: nat) {
    && Completed(pages)
    && Rows(pages) == listing
    && (forall k :: 0 <= k < |pages| ==> pages[k].rows == PageSlice(listing, k, limit))
    && PageCount(|pages|, limit, |listing|)
  }

  function PageSlice(listing: seq<Key>, k: nat, limit: nat): seq<Key> {
    Slice(listing, k * limit, limit)
  }

  lemma SliceOfRest(listing: seq<Key>, limit: nat, k: nat)
    requires limit >= 1 && k >= 1 && |listing| > limit
    ensures PageSlice(listing[limit..], k - 1, limit) == PageSlice(listing, k, limit)
  {
    assert k * limit == (k - 1) * limit + limit;
    DropTwice(listing, limit, (k - 1) * limit);
  }

  lemma DropTwice(s: seq<Key>, a: nat, b: nat)
    requires a <= |s|
    ensures forall count: nat :: Slice(s[a..], b, count) == Slice(s, a + b, count)
  {
    if a + b < |s| {
      assert s[a..][b..] == s[a + b..];
    }
  }

  lemma PrependPage(page: Page, rest: seq<Page>, listing: seq<Key>, limit: nat)
    requires limit >= 1 && |listing| > limit && page.rows == listing[..limit] && page.hasMore
    requires PagesOf(rest, listing[limit..], limit)
    ensures PagesOf([page] + rest, listing, limit)
  {
    var pages := [page] + rest;
    assert pages[1..] == rest && listing == listing[..limit] + listing[limit..];
    FirstSlice(listing, limit);
    forall k | 0 <= k < |pages| ensures pages[k].rows == PageSlice(listing, k, limit) {
      if k > 0 {
        SliceOfRest(listing, limit, k);
        assert pages[k] == rest[k - 1];
      }
    }
    PageCountNext(|rest|, limit, |listing| - limit);
  }

  lemma FirstSlice(listing: seq<Key>, limit: nat)
    requires limit >= 1
    ensures PageSlice(listing, 0, limit) == Take(listing, limit)
  {
    assert 0 * limit == 0;
    assert listing[0..] == listing;
  }

  /** The table stays the same for `fetches` fetches. */
  function Unchanged(table: set<Key>, fetches: nat): (tables: seq<set<Key>>)
    ensures |tables| == fetches
    ensures forall i :: 0 <= i < fetches ==> tables[i] == table
  {
    if fetches == 0 then [] else [table] + Unchanged(table, fetches - 1)
  }

  lemma LastPage(page: Page, listing: seq<Key>, limit: nat)
    requires limit >= 1 && |listing| <= limit && page.rows == listing && !page.hasMore
    ensures PagesOf([page], listing, limit)
  {
    FirstSlice(listing, limit);
    assert [page][1..] == [] && Rows([page]) == page.rows + [];
    assert 1 * limit == limit && 0 * limit == 0;
  }

  predicate Enough(fetches: nat, limit: nat, length: nat) {
    length <= fetches * limit
  }

  lemma EnoughFetches(fetches: nat, limit: nat, length: nat)
    requires limit < length && fetches >= 1 && Enough(fetches, limit, length)
    ensures fetches > 1 && Enough(fetches - 1, limit, length - limit)
  {
    assert (fetches - 1) * limit == fetches * limit - limit;
  }

  lemma {:induction false} FixedWalk(d: Direction, table: set<Key>, cursor: Option<Key>, limit: nat, fetches: nat)
    requires limit >= 1 && fetches >= 1
    requires Enough(fetches, limit, |Listing(d, Past(d, table, cursor))|)
    ensures PagesOf(Walk(d, Unchanged(table, fetches), cursor, limit), Listing(d, Past(d, table, cursor)), limit)
    decreases fetches
  {
    var listing := Listing(d, Past(d, table, cursor));
    if |listing| <= limit {
      WalkOnePage(d, table, cursor, limit, fetches);
      LastPage(Page(listing, false, None), listing, limit);
    } else {
      var last := Some(listing[limit - 1]);
      SeekIsDrop(d, table, cursor, limit);
      EnoughFetches(fetches, limit, |listing|);
      FixedWalk(d, table, last, limit, fetches - 1);
      WalkMorePages(d, table, cursor, limit, fetches);
      PrependPage(Page(listing[..limit], true, last), Walk(d, Unchanged(table, fetches - 1), last, limit), listing,
          limit);
    }
  }

  lemma WalkOnePage(d: Direction, table: set<Key>, cursor: Option<Key>, limit: nat, fetches: nat)
    requires fetches >= 1 && |Listing(d, Past(d, table, cursor))| <= limit
    ensures Walk(d, Unchanged(table, fetches), cursor, limit) == [Page(Listing(d, Past(d, table, cursor)), false, None)]
  {
    UnfoldWalk(d, table, cursor, limit, fetches);
    OnlyPage(d, table, cursor, limit);
  }

  lemma WalkMorePages(d: Direction, table: set<Key>, cursor: Option<Key>, limit: nat, fetches: nat)
    requires fetches >= 1 && 1 <= limit < |Listing(d, Past(d, table, cursor))|
    ensures var listing := Listing(d, Past(d, table, cursor));
            var last := Some(listing[limit - 1]);
            Walk(d, Unchanged(table, fetches), cursor, limit)
            == [Page(listing[..limit], true, last)] + Walk(d, Unchanged(table, fetches - 1), last, limit)
  {
    UnfoldWalk(d, table, cursor, limit, fetches);
    FirstPage(d, table, cursor, limit);
  }

  lemma OnlyPage(d: Direction, table: set<Key>, cursor: Option<Key>, limit: nat)
    requires |Listing(d, Past(d, table, cursor))| <= limit
    ensures PaginateByKeyset(Fetch(d, table, cursor, limit), limit) ==
        Page(Listing(d, Past(d, table, cursor)), false, None)
  {
  }

  lemma FirstPage(d: Direction, table: set<Key>, cursor: Option<Key>, limit: nat)
    requires 1 <= limit < |Listing(d, Past(d, table, cursor))|
    ensures var listing := Listing(d, Past(d, table, cursor));
            PaginateByKeyset(Fetch(d, table, cursor, limit), limit) ==
                Page(listing[..limit], true, Some(listing[limit - 1]))
  {
    var listing := Listing(d, Past(d, table, cursor));
    assert Fetch(d, table, cursor, limit) == listing[..limit + 1];
    assert listing[..limit + 1][..limit] == listing[..limit];
  }

  lemma UnfoldWalk(d: Direction, table: set<Key>, cursor: Option<Key>, limit: nat, fetches: nat)
    requires fetches >= 1
    ensures var page := PaginateByKeyset(Fetch(d, table, cursor, limit), limit);
            Walk(d, Unchanged(table, fetches), cursor, limit)
            == [page] + if page.hasMore then Walk(d, Unchanged(table, fetches - 1), page.nextCursor, limit) else []
  {
    assert Unchanged(table, fetches)[1..] == Unchanged(table, fetches - 1);
  }

  /** On a fixed table the walk ends, its pages together are the sorted table, and each page
      is the offset page of the same number. */
  lemma FixedTableWalk(
      d: Direction, table: set<Key>, limitParam: Option<int>, defaultLimit: int, maxLimit: int, fetches: nat)
    requires maxLimit >= 1 && fetches >= 1
    requires Enough(fetches, ParseLimit(limitParam, defaultLimit, maxLimit), |Listing(d, table)|)
    ensures var limit := ParseLimit(limitParam, defaultLimit, maxLimit);
            var pages := Walk(d, Unchanged(table, fetches), None, limit);
            && Completed(pages)
            && Rows(pages) == Listing(d, table)
            && PageCount(|pages|, limit, |Listing(d, table)|)
            && forall k :: 0 <= k < |pages| ==>
                 pages[k].rows == OffsetPage(d, table, ParsePagination(Some(k + 1), limitParam, defaultLimit, maxLimit))
  {
    var limit := ParseLimit(limitParam, defaultLimit, maxLimit);
    assert Past(d, table, None) == table;
    FixedWalk(d, table, None, limit, fetches);
    forall k: nat
      ensures PageSlice(Listing(d, table), k, limit)
              == OffsetPage(d, table, ParsePagination(Some(k + 1), limitParam, defaultLimit, maxLimit))
    {
      OffsetOfPage(k, limitParam, defaultLimit, maxLimit);
    }
  }

  lemma OffsetOfPage(k: nat, limitParam: Option<int>, defaultLimit: int, maxLimit: int)
    requires maxLimit >= 1
    ensures var limit := ParseLimit(limitParam, defaultLimit, maxLimit);
            ParsePagination(Some(k + 1), limitParam, defaultLimit, maxLimit) == Pagination(k + 1, limit, k * limit)
  {
  }
}
