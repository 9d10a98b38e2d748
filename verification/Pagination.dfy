/**
 * Keyset paging of a brand's conversions: `seekForBrand` of
 * apps/api/src/services/conversion.service.ts, `seekForBrandReview` of
 * apps/api/src/repositories/conversion.repository.ts and packages/shared/src/pagination.ts.
 *
 * The filter by brand and status is any predicate. Ids stand in the order the database compares
 * them in.
 */
module Pagination {
  import opened Prelude

  type Id = nat
  type Time = int

  datatype Row = Row(id: Id, occurredAt: Time, status: string)

  type Table = seq<Row>

  // ----- cursors

  datatype Cursor = Cursor(at: Time, id: Id)

  /**
   * What is left of a cursor text once it has been parsed: not base64 of JSON, or an object. A field is
   * missing when it is absent, not a string, empty or (for `v`) not a date. Many texts come to one
   * `Raw`: further fields, white space and other spellings of the date are gone.
   */
  datatype Raw = Garbage | Fields(v: Option<Time>, i: Option<Id>)

  datatype SeekError = InvalidCursor

  function EncodeCursor(at: Time, id: Id): Raw {
    Fields(Some(at), Some(id))
  }

  function DecodeCursor(raw: Raw): Result<Cursor, SeekError> {
    if raw.Fields? && raw.v.Some? && raw.i.Some? then Ok(Cursor(raw.v.value, raw.i.value)) else Err(InvalidCursor)
  }

  /** A cursor that was given out decodes to the row it was made from. */
  lemma CursorRoundTrip(at: Time, id: Id)
    ensures DecodeCursor(EncodeCursor(at, id)) == Ok(Cursor(at, id))
  {
  }

  // ----- the query

  /** `(occurredAt, id) < (after.occurredAt, after.id)` */
  predicate Below(row: Row, after: Cursor) {
    row.occurredAt < after.at || (row.occurredAt == after.at && row.id < after.id)
  }

  function CursorOf(row: Row): Cursor {
    Cursor(row.occurredAt, row.id)
  }

  predicate Seekable(after: Option<Cursor>, row: Row) {
    after.Some? ==> Below(row, after.value)
  }

  function Insert(row: Row, sorted: seq<Row>): seq<Row> {
    if sorted == [] then [row]
    else if Below(row, CursorOf(sorted[0])) then [sorted[0]] + Insert(row, sorted[1..])
    else [row] + sorted
  }

  /** ORDER BY occurredAt DESC, id DESC */
  function Descending(rows: seq<Row>): seq<Row> {
    if rows == [] then [] else Insert(rows[0], Descending(rows[1..]))
  }

  function Matching(filter: Row -> bool, after: Option<Cursor>): Row -> bool {
    (row: Row) => filter(row) && Seekable(after, row)
  }

  /** `seekForBrandReview`: one row more than the page. */
  function SeekForBrandReview(table: Table, filter: Row -> bool, take: nat, after: Option<Cursor>): seq<Row> {
    var rows := Descending(Filter(Matching(filter, after), table));
    if |rows| > take + 1 then rows[..take + 1] else rows
  }

  datatype Page = Page(data: seq<Row>, hasMore: bool, nextCursor: Option<Raw>)

  function ToCursorPage(rows: seq<Row>, pageSize: nat): Page {
    var hasMore := |rows| > pageSize;
    var data := if hasMore then rows[..pageSize] else rows;
    Page(data, hasMore,
         if hasMore && data != [] then Some(EncodeCursor(data[|data| - 1].occurredAt, data[|data| - 1].id)) else None)
  }

  function SeekForBrand(table: Table, filter: Row -> bool, pageSize: nat, cursor: Option<Raw>)
    : Result<Page, SeekError>
  {
    match cursor
    case None => Ok(ToCursorPage(SeekForBrandReview(table, filter, pageSize, None), pageSize))
    case Some(raw) =>
      match DecodeCursor(raw)
      case Err(e) => Err(e)
      case Ok(after) => Ok(ToCursorPage(SeekForBrandReview(table, filter, pageSize, Some(after)), pageSize))
  }

  // ----- a client follows the cursors

  /** `tables[k]` is the table when the k-th page is asked for; the walk stops when there is no next cursor. */
  function Walk(tables: seq<Table>, filter: Row -> bool, pageSize: nat, cursor: Option<Raw>): seq<seq<Row>>
    decreases |tables|
  {
    if tables == [] then []
    else
      match SeekForBrand(tables[0], filter, pageSize, cursor)
      case Err(_) => []
      case Ok(page) =>
        if page.nextCursor == None then [page.data]
        else [page.data] + Walk(tables[1..], filter, pageSize, page.nextCursor)
  }

  /** The walk got to a page without a next cursor. */
  predicate Ends(tables: seq<Table>, filter: Row -> bool, pageSize: nat, cursor: Option<Raw>)
    decreases |tables|
  {
    tables != [] &&
    match SeekForBrand(tables[0], filter, pageSize, cursor)
    case Err(_) => false
    case Ok(page) => page.nextCursor == None || Ends(tables[1..], filter, pageSize, page.nextCursor)
  }

  predicate UniqueIds(table: Table) {
    forall i, j :: 0 <= i < j < |table| ==> table[i].id != table[j].id
  }

  /** Each row comes strictly before the later ones in the order of the list. */
  predicate StrictlyDescending(rows: seq<Row>) {
    forall i, j :: 0 <= i < j < |rows| ==> Below(rows[j], CursorOf(rows[i]))
  }

  // ----- sorting and filtering

  lemma {:induction false} FilterMembers(p: Row -> bool, rows: seq<Row>, row: Row)
    ensures row in Filter(p, rows) <==> row in rows && p(row)
  {
    if rows != [] {
      FilterMembers(p, rows[1..], row);
      assert row in rows <==> row == rows[0] || row in rows[1..];
    }
  }

  lemma {:induction false} FilterUnique(p: Row -> bool, rows: seq<Row>)
    requires UniqueIds(rows)
    ensures UniqueIds(Filter(p, rows))
  {
    if rows != [] {
      FilterUnique(p, rows[1..]);
      var rest := Filter(p, rows[1..]);
      forall k | 0 <= k < |rest| ensures rest[k].id != rows[0].id {
        FilterMembers(p, rows[1..], rest[k]);
        var j :| 0 <= j < |rows| - 1 && rows[1..][j] == rest[k];
        assert rows[j + 1] == rest[k];
      }
    }
  }

  lemma {:induction false} InsertMembers(row: Row, sorted: seq<Row>, other: Row)
    ensures other in Insert(row, sorted) <==> other == row || other in sorted
  {
    if sorted != [] {
      InsertMembers(row, sorted[1..], other);
      assert other in sorted <==> other == sorted[0] || other in sorted[1..];
    }
  }

  lemma {:induction false} InsertKeepsOrder(row: Row, sorted: seq<Row>)
    requires StrictlyDescending(sorted) && forall k :: 0 <= k < |sorted| ==> sorted[k].id != row.id
    ensures StrictlyDescending(Insert(row, sorted))
  {
    if sorted != [] && Below(row, CursorOf(sorted[0])) {
      InsertKeepsOrder(row, sorted[1..]);
      var rest := Insert(row, sorted[1..]);
      forall k | 0 <= k < |rest| ensures Below(rest[k], CursorOf(sorted[0])) {
        InsertMembers(row, sorted[1..], rest[k]);
        if rest[k] != row {
          var j :| 0 <= j < |sorted| - 1 && sorted[1..][j] == rest[k];
          assert sorted[j + 1] == rest[k];
        }
      }
    }
  }

  lemma {:induction false} DescendingMembers(rows: seq<Row>, row: Row)
    ensures row in Descending(rows) <==> row in rows
  {
    if rows != [] {
      DescendingMembers(rows[1..], row);
      InsertMembers(rows[0], Descending(rows[1..]), row);
      assert row in rows <==> row == rows[0] || row in rows[1..];
    }
  }

  lemma {:induction false} DescendingIsOrdered(rows: seq<Row>)
    requires UniqueIds(rows)
    ensures StrictlyDescending(Descending(rows))
  {
    if rows != [] {
      var sorted := Descending(rows[1..]);
      DescendingIsOrdered(rows[1..]);
      forall k | 0 <= k < |sorted| ensures sorted[k].id != rows[0].id {
        DescendingMembers(rows[1..], sorted[k]);
        var j :| 0 <= j < |rows| - 1 && rows[1..][j] == sorted[k];
        assert rows[j + 1] == sorted[k];
      }
      InsertKeepsOrder(rows[0], sorted);
    }
  }

  // ----- one page

  function Found(table: Table, filter: Row -> bool, after: Option<Cursor>): seq<Row> {
    Descending(Filter(Matching(filter, after), table))
  }

  predicate AllMatch(rows: seq<Row>, filter: Row -> bool, after: Option<Cursor>) {
    forall k :: 0 <= k < |rows| ==> filter(rows[k]) && Seekable(after, rows[k])
  }

  lemma FoundIsRight(table: Table, filter: Row -> bool, after: Option<Cursor>)
    requires UniqueIds(table)
    ensures StrictlyDescending(Found(table, filter, after))
    ensures forall row :: row in Found(table, filter, after) <==> row in table && filter(row) && Seekable(after, row)
    ensures AllMatch(Found(table, filter, after), filter, after)
  {
    var p := Matching(filter, after);
    FilterUnique(p, table);
    DescendingIsOrdered(Filter(p, table));
    forall row ensures row in Found(table, filter, after) <==> row in table && filter(row) && Seekable(after, row) {
      FilterMembers(p, table, row);
      DescendingMembers(Filter(p, table), row);
    }
    var found := Found(table, filter, after);
    assert forall k :: 0 <= k < |found| ==> found[k] in found;
  }

  /** The cursor of a walk that is under way, decoded. */
  predicate Meant(cursor: Option<Raw>, after: Option<Cursor>) {
    match cursor
    case None => after == None
    case Some(raw) => after.Some? && DecodeCursor(raw) == Ok(after.value)
  }

  /** The first rows found, and where the next page goes on if there are more. */
  predicate IsPage(found: seq<Row>, pageSize: nat, page: Page, next: Option<Cursor>)
    requires pageSize >= 1
  {
    if |found| <= pageSize then page.data == found && page.nextCursor == None && !page.hasMore
    else
      && page.hasMore
      && page.data == found[..pageSize] && page.nextCursor.Some?
      && next == Some(CursorOf(found[pageSize - 1])) && Meant(page.nextCursor, next)
  }

  /** What a page of at least one row holds, and where the next one goes on. */
  lemma PageIsRight(table: Table, filter: Row -> bool, pageSize: nat, cursor: Option<Raw>, after: Option<Cursor>)
    returns (page: Page, next: Option<Cursor>)
    requires pageSize >= 1 && Meant(cursor, after)
    ensures SeekForBrand(table, filter, pageSize, cursor) == Ok(page)
    ensures IsPage(Found(table, filter, after), pageSize, page, next)
  {
    var found := Found(table, filter, after);
    page := SeekForBrand(table, filter, pageSize, cursor).value;
    next := if |found| > pageSize then Some(CursorOf(found[pageSize - 1])) else None;
    if |found| > pageSize + 1 { assert found[..pageSize + 1][..pageSize] == found[..pageSize]; }
  }

  /** A query for a page reads one row more than the page, if there is one, and no more. */
  lemma OneRowMore(table: Table, filter: Row -> bool, take: nat, after: Option<Cursor>)
    ensures var found, rows := Found(table, filter, after), SeekForBrandReview(table, filter, take, after);
            rows == found[..Min(|found|, take + 1)]
  {
    var found := Found(table, filter, after);
    assert found[..|found|] == found;
  }

  /** A cursor with a field missing is refused, and nothing else is. */
  lemma BadCursorIsRefused(table: Table, filter: Row -> bool, pageSize: nat, cursor: Option<Raw>)
    ensures SeekForBrand(table, filter, pageSize, cursor) == Err(InvalidCursor) <==>
            cursor.Some? && (cursor.value == Garbage || cursor.value.v == None || cursor.value.i == None)
  {
  }

  // ----- whole walks

  /** The rows of a walk are those of its first page and those of the walk from its next cursor. */
  lemma WalkStep(tables: seq<Table>, filter: Row -> bool, pageSize: nat, cursor: Option<Raw>, page: Page)
    requires tables != [] && SeekForBrand(tables[0], filter, pageSize, cursor) == Ok(page)
    ensures Concat(Walk(tables, filter, pageSize, cursor)) ==
            page.data + if page.nextCursor == None then []
                        else Concat(Walk(tables[1..], filter, pageSize, page.nextCursor))
  {
    if page.nextCursor == None {
      ConcatOne(page.data);
    } else {
      var later := Walk(tables[1..], filter, pageSize, page.nextCursor);
      assert ([page.data] + later)[1..] == later;
    }
  }

  lemma JoinDescending(a: seq<Row>, b: seq<Row>)
    requires StrictlyDescending(a) && StrictlyDescending(b)
    requires a != [] ==> forall k :: 0 <= k < |b| ==> Below(b[k], CursorOf(a[|a| - 1]))
    ensures StrictlyDescending(a + b)
  {
    forall i, j | 0 <= i < j < |a + b| ensures Below((a + b)[j], CursorOf((a + b)[i])) {
      if i < |a| <= j { assert i < |a| - 1 ==> Below(a[|a| - 1], CursorOf(a[i])); }
    }
  }

  /** The rows of a page and those found below its last one. */
  lemma JoinPages(data: seq<Row>, later: seq<Row>, filter: Row -> bool, after: Option<Cursor>)
    requires StrictlyDescending(data) && data != [] && AllMatch(data, filter, after)
    requires StrictlyDescending(later) && AllMatch(later, filter, Some(CursorOf(data[|data| - 1])))
    ensures StrictlyDescending(data + later) && AllMatch(data + later, filter, after)
  {
    JoinDescending(data, later);
    assert Seekable(after, data[|data| - 1]);
  }

  ghost predicate AllUnique(tables: seq<Table>) {
    forall k :: 0 <= k < |tables| ==> UniqueIds(tables[k])
  }

  /** A page holds matching rows in order; if there is a next cursor it stands for the last of them. */
  lemma PageDescends(found: seq<Row>, filter: Row -> bool, pageSize: nat, after: Option<Cursor>, page: Page,
                     next: Option<Cursor>)
    requires pageSize >= 1 && IsPage(found, pageSize, page, next)
    requires StrictlyDescending(found) && AllMatch(found, filter, after)
    ensures StrictlyDescending(page.data) && AllMatch(page.data, filter, after)
    ensures page.nextCursor.Some? ==>
              page.data != [] && next == Some(CursorOf(page.data[|page.data| - 1])) && Meant(page.nextCursor, next)
  {
  }

  /** Whatever is inserted, changed or deleted between pages, the walk goes strictly down and repeats nothing. */
  lemma {:induction false} WalkDescends(tables: seq<Table>, filter: Row -> bool, pageSize: nat, cursor: Option<Raw>,
                                        after: Option<Cursor>)
    requires pageSize >= 1 && AllUnique(tables) && Meant(cursor, after)
    ensures var rows := Concat(Walk(tables, filter, pageSize, cursor));
            StrictlyDescending(rows) && AllMatch(rows, filter, after)
    decreases |tables|
  {
    if tables != [] {
      var page, next := PageIsRight(tables[0], filter, pageSize, cursor, after);
      FoundIsRight(tables[0], filter, after);
      PageDescends(Found(tables[0], filter, after), filter, pageSize, after, page, next);
      WalkStep(tables, filter, pageSize, cursor, page);
      if page.nextCursor.Some? {
        WalkDescends(tables[1..], filter, pageSize, page.nextCursor, next);
        JoinPages(page.data, Concat(Walk(tables[1..], filter, pageSize, page.nextCursor)), filter, after);
      }
    }
  }

  /** A row that is there, and matches, every time a page is asked for is on one of the pages. */
  lemma {:induction false} SteadyRowsAppear(tables: seq<Table>, filter: Row -> bool, pageSize: nat, cursor: Option<Raw>,
                                            after: Option<Cursor>, row: Row)
    requires pageSize >= 1 && AllUnique(tables) && Meant(cursor, after)
    requires Ends(tables, filter, pageSize, cursor)
    requires (forall k :: 0 <= k < |tables| ==> row in tables[k]) && filter(row) && Seekable(after, row)
    ensures row in Concat(Walk(tables, filter, pageSize, cursor))
    decreases |tables|
  {
    var page, next := PageIsRight(tables[0], filter, pageSize, cursor, after);
    var found := Found(tables[0], filter, after);
    FoundIsRight(tables[0], filter, after);
    assert row in tables[0] && row in found;
    var at :| 0 <= at < |found| && found[at] == row;
    WalkStep(tables, filter, pageSize, cursor, page);
    if at < |page.data| {
      assert page.data[at] == row;
    } else {
      SteadyRowsAppear(tables[1..], filter, pageSize, page.nextCursor, next, row);
    }
  }

  lemma OnlyOnce(rows: seq<Row>, i: nat, j: nat)
    requires StrictlyDescending(rows) && i < j < |rows|
    ensures rows[i] != rows[j]
  {
    assert Below(rows[j], CursorOf(rows[i]));
  }

  /** Exactly once, from the first page on. */
  lemma EverySteadyRowOnce(tables: seq<Table>, filter: Row -> bool, pageSize: nat, row: Row) returns (at: nat)
    requires pageSize >= 1 && AllUnique(tables) && Ends(tables, filter, pageSize, None)
    requires (forall k :: 0 <= k < |tables| ==> row in tables[k]) && filter(row)
    ensures var rows := Concat(Walk(tables, filter, pageSize, None));
            && at < |rows| && rows[at] == row && StrictlyDescending(rows)
            && forall j :: 0 <= j < |rows| && j != at ==> rows[j] != row
  {
    WalkDescends(tables, filter, pageSize, None, None);
    SteadyRowsAppear(tables, filter, pageSize, None, None, row);
    var rows := Concat(Walk(tables, filter, pageSize, None));
    at :| 0 <= at < |rows| && rows[at] == row;
    forall j | 0 <= j < |rows| && j != at ensures rows[j] != row {
      if j < at { OnlyOnce(rows, j, at); } else { OnlyOnce(rows, at, j); }
    }
  }

  // ----- an unchanged table

  lemma EmptyOrFirst(rows: seq<Row>)
    ensures rows == [] || rows[0] in rows
  {
  }

  /** A descending list is determined by its rows. */
  lemma {:induction false} SameRowsSameList(a: seq<Row>, b: seq<Row>)
    requires StrictlyDescending(a) && StrictlyDescending(b)
    requires forall row :: row in a <==> row in b
    ensures a == b
  {
    if a == [] {
      EmptyOrFirst(b);
    } else {
      assert a[0] in b && (b != [] ==> b[0] in a);
      var j :| 0 <= j < |b| && b[j] == a[0];
      var i :| 0 <= i < |a| && a[i] == b[0];
      assert a[0] == b[0];
      forall row ensures row in a[1..] <==> row in b[1..] {
        if row in a[1..] { TailOfDescending(a, row); }
        if row in b[1..] { TailOfDescending(b, row); }
        assert row in a <==> row == a[0] || row in a[1..];
        assert row in b <==> row == b[0] || row in b[1..];
      }
      SameRowsSameList(a[1..], b[1..]);
    }
  }

  lemma TailOfDescending(rows: seq<Row>, row: Row)
    requires StrictlyDescending(rows) && rows != [] && row in rows[1..]
    ensures row != rows[0]
  {
    var k :| 0 <= k < |rows| - 1 && rows[1..][k] == row;
    assert rows[k + 1] == row;
  }

  lemma BelowIsLater(rows: seq<Row>, i: nat, j: nat)
    requires StrictlyDescending(rows) && i < |rows| && j < |rows| && Below(rows[j], CursorOf(rows[i]))
    ensures j > i
  {
    assert forall k :: 0 <= k < i ==> Below(rows[i], CursorOf(rows[k]));
  }

  /** What is left to find after the first `k` rows are the others. */
  lemma NextFound(table: Table, filter: Row -> bool, after: Option<Cursor>, k: nat)
    requires UniqueIds(table) && 1 <= k <= |Found(table, filter, after)|
    ensures var found := Found(table, filter, after);
            Found(table, filter, Some(CursorOf(found[k - 1]))) == found[k..]
  {
    var found := Found(table, filter, after);
    var next := Some(CursorOf(found[k - 1]));
    FoundIsRight(table, filter, after);
    FoundIsRight(table, filter, next);
    assert found[k - 1] in found;
    forall row ensures row in Found(table, filter, next) <==> row in found[k..] {
      if row in found[k..] {
        var j :| 0 <= j < |found| - k && found[k..][j] == row;
        assert found[k + j] == row && row in found;
      }
      if row in Found(table, filter, next) {
        assert row in found;
        var j :| 0 <= j < |found| && found[j] == row;
        BelowIsLater(found, k - 1, j);
        assert found[k..][j - k] == row;
      }
    }
    SameRowsSameList(Found(table, filter, next), found[k..]);
  }

  /** From `cursor` on, the walk ends and lists exactly `rows`. */
  predicate Lists(tables: seq<Table>, filter: Row -> bool, pageSize: nat, cursor: Option<Raw>, rows: seq<Row>) {
    Ends(tables, filter, pageSize, cursor) && Concat(Walk(tables, filter, pageSize, cursor)) == rows
  }

  lemma LastPageLists(tables: seq<Table>, filter: Row -> bool, pageSize: nat, cursor: Option<Raw>, page: Page)
    requires tables != [] && SeekForBrand(tables[0], filter, pageSize, cursor) == Ok(page) && page.nextCursor == None
    ensures Lists(tables, filter, pageSize, cursor, page.data)
  {
    WalkStep(tables, filter, pageSize, cursor, page);
  }

  lemma PageThenLists(tables: seq<Table>, filter: Row -> bool, pageSize: nat, cursor: Option<Raw>, page: Page,
                      later: seq<Row>)
    requires tables != [] && SeekForBrand(tables[0], filter, pageSize, cursor) == Ok(page) && page.nextCursor.Some?
    requires Lists(tables[1..], filter, pageSize, page.nextCursor, later)
    ensures Lists(tables, filter, pageSize, cursor, page.data + later)
  {
    WalkStep(tables, filter, pageSize, cursor, page);
  }

  lemma {:induction false} UnchangedFrom(tables: seq<Table>, table: Table, filter: Row -> bool, pageSize: nat,
                                         cursor: Option<Raw>, after: Option<Cursor>)
    returns (found: seq<Row>)
    requires pageSize >= 1 && UniqueIds(table) && Meant(cursor, after)
    requires |tables| > |Found(table, filter, after)| && forall k :: 0 <= k < |tables| ==> tables[k] == table
    ensures found == Found(table, filter, after) && Lists(tables, filter, pageSize, cursor, found)
    decreases |tables|
  {
    found := Found(table, filter, after);
    var page, next := PageIsRight(table, filter, pageSize, cursor, after);
    assert tables[0] == table;
    if |found| > pageSize {
      NextFound(table, filter, after, pageSize);
      var later := UnchangedFrom(tables[1..], table, filter, pageSize, page.nextCursor, next);
      PageThenLists(tables, filter, pageSize, cursor, page, later);
      PageAndRest(found, pageSize, page, next, later);
    } else {
      LastPageLists(tables, filter, pageSize, cursor, page);
    }
  }

  lemma PageAndRest(found: seq<Row>, pageSize: nat, page: Page, next: Option<Cursor>, later: seq<Row>)
    requires pageSize >= 1 && |found| > pageSize && IsPage(found, pageSize, page, next) && later == found[pageSize..]
    ensures page.data + later == found
  {
  }

  lemma {:induction false} SameFilter(p: Row -> bool, q: Row -> bool, rows: seq<Row>)
    requires forall row :: p(row) == q(row)
    ensures Filter(p, rows) == Filter(q, rows)
  {
    if rows != [] { SameFilter(p, q, rows[1..]); }
  }

  /** On a table that does not change the walk ends, and its pages are the whole sorted list. */
  lemma UnchangedTableIsListed(n: nat, table: Table, filter: Row -> bool, pageSize: nat)
    requires pageSize >= 1 && UniqueIds(table) && n > |table|
    ensures var tables := seq(n, _ => table);
            && Ends(tables, filter, pageSize, None)
            && Concat(Walk(tables, filter, pageSize, None)) == Descending(Filter(filter, table))
  {
    SameFilter(Matching(filter, None), filter, table);
    DescendingLength(Filter(filter, table));
    var found := UnchangedFrom(seq(n, _ => table), table, filter, pageSize, None, None);
  }

  lemma {:induction false} InsertLength(row: Row, sorted: seq<Row>)
    ensures |Insert(row, sorted)| == |sorted| + 1
  {
    if sorted != [] { InsertLength(row, sorted[1..]); }
  }

  lemma {:induction false} DescendingLength(rows: seq<Row>)
    ensures |Descending(rows)| == |rows|
  {
    if rows != [] {
      DescendingLength(rows[1..]);
      InsertLength(rows[0], Descending(rows[1..]));
    }
  }

  // ----- why not by offset

  function Slice(rows: seq<Row>, skip: nat, take: nat): seq<Row> {
    if skip >= |rows| then [] else rows[skip..Min(skip + take, |rows|)]
  }

  /** `listForBrandReview`: the rows after the first `skip`. */
  function OffsetPage(table: Table, filter: Row -> bool, skip: nat, take: nat): seq<Row> {
    Slice(Descending(Filter(filter, table)), skip, take)
  }

  lemma InsertNewest(newer: Row, sorted: seq<Row>)
    requires sorted != [] ==> Below(sorted[0], CursorOf(newer))
    ensures Insert(newer, sorted) == [newer] + sorted
  {
  }

  lemma FilterCons(filter: Row -> bool, row: Row, rows: seq<Row>)
    requires filter(row)
    ensures Filter(filter, [row] + rows) == [row] + Filter(filter, rows)
  {
    assert ([row] + rows)[1..] == rows;
  }

  lemma DescendingCons(row: Row, rows: seq<Row>)
    ensures Descending([row] + rows) == Insert(row, Descending(rows))
  {
    assert ([row] + rows)[1..] == rows;
  }

  lemma FirstFound(table: Table, filter: Row -> bool) returns (k: nat)
    requires Descending(Filter(filter, table)) != []
    ensures k < |table| && table[k] == Descending(Filter(filter, table))[0]
  {
    var first := Descending(Filter(filter, table))[0];
    DescendingMembers(Filter(filter, table), first);
    FilterMembers(filter, table, first);
    k :| 0 <= k < |table| && table[k] == first;
  }

  lemma NewestComesFirst(table: Table, filter: Row -> bool, newer: Row)
    requires filter(newer) && forall k :: 0 <= k < |table| ==> Below(table[k], CursorOf(newer))
    ensures Descending(Filter(filter, [newer] + table)) == [newer] + Descending(Filter(filter, table))
  {
    var rows := Filter(filter, table);
    FilterCons(filter, newer, table);
    DescendingCons(newer, rows);
    if Descending(rows) != [] {
      var k := FirstFound(table, filter);
      assert Below(table[k], CursorOf(newer));
    }
    InsertNewest(newer, Descending(rows));
  }

  /** One newer row arriving between two offset pages shows the last row of the first page again. */
  lemma OffsetPagesRepeat(table: Table, filter: Row -> bool, pageSize: nat, newer: Row)
    requires 1 <= pageSize <= |Filter(filter, table)|
    requires filter(newer) && forall k :: 0 <= k < |table| ==> Below(table[k], CursorOf(newer))
    ensures var first := OffsetPage(table, filter, 0, pageSize);
            var second := OffsetPage([newer] + table, filter, pageSize, pageSize);
            |first| == pageSize && second != [] && second[0] == first[pageSize - 1]
  {
    DescendingLength(Filter(filter, table));
    NewestComesFirst(table, filter, newer);
    SlicesOverlap(newer, Descending(Filter(filter, table)), pageSize);
  }

  lemma SlicesOverlap(newer: Row, rows: seq<Row>, n: nat)
    requires 1 <= n <= |rows|
    ensures |Slice(rows, 0, n)| == n && Slice([newer] + rows, n, n) != []
    ensures Slice([newer] + rows, n, n)[0] == Slice(rows, 0, n)[n - 1]
  {
  }
}
