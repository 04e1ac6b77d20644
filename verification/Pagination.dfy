/** Keyset paging: newest first by (createdAt, id), one row more than the page holds, and a cursor
    with the sort key of the last row shown.

    Every page of a walk reads its own snapshot, so rows come and go between pages. Ids stand for
    their place in the database's collation order. */
module Pagination {
  import opened Prelude

  datatype Key = Key(createdAt: int, id: int)

  datatype Row<T> = Row(key: Key, value: T)

  datatype Cell<T> = Cell(createdAt: int, value: T)

  /** One snapshot of a table, by primary key. */
  type Table<T> = map<int, Cell<T>>

  datatype Page<T> = Page(data: seq<Row<T>>, hasMore: bool, nextCursor: Option<Key>)

  /** `orderBy: [{ createdAt: 'desc' }, { id: 'desc' }]`: `a` comes before `b`. */
  predicate Before(a: Key, b: Key) {
    a.createdAt > b.createdAt || (a.createdAt == b.createdAt && a.id > b.id)
  }

  /** `cursorWhere`: the two alternatives of its `OR`, or every row without a cursor. */
  predicate CursorWhere(cursor: Option<Key>, key: Key) {
    cursor.None? || key.createdAt < cursor.value.createdAt
    || (key.createdAt == cursor.value.createdAt && key.id < cursor.value.id)
  }

  function BuildPage<T>(rows: seq<Row<T>>, limit: nat): Page<T> {
    var hasMore := |rows| > limit;
    var data := if hasMore then rows[..limit] else rows;
    Page(data, hasMore, if hasMore && |data| > 0 then Some(data[|data| - 1].key) else None)
  }

  predicate Has<T(==)>(table: Table<T>, row: Row<T>) {
    row.key.id in table && table[row.key.id] == Cell(row.key.createdAt, row.value)
  }

  ghost predicate Descending<T>(rows: seq<Row<T>>) {
    forall i, j :: 0 <= i < j < |rows| ==> Before(rows[i].key, rows[j].key)
  }

  /** What the database may answer to the page query: the first `take` matching rows in order. */
  ghost predicate IsAnswer<T(!new)>(table: Table<T>, cursor: Option<Key>, take: nat, rows: seq<Row<T>>) {
    && Descending(rows) && |rows| <= take
    && (forall i :: 0 <= i < |rows| ==> Has(table, rows[i]) && CursorWhere(cursor, rows[i].key))
    && (forall row: Row<T> :: Has(table, row) && CursorWhere(cursor, row.key) && row !in rows ==>
          |rows| == take && forall i :: 0 <= i < |rows| ==> Before(rows[i].key, row.key))
  }

  function CursorAfter<T>(answers: seq<seq<Row<T>>>, limit: nat): Option<Key> {
    if answers == [] then None else BuildPage(answers[|answers| - 1], limit).nextCursor
  }

  /** Every page is asked for with the cursor of the page before it. */
  ghost predicate Walk<T(!new)>(snaps: seq<Table<T>>, answers: seq<seq<Row<T>>>, limit: nat)
    decreases |answers|
  {
    |snaps| == |answers| &&
    (answers == [] ||
      var before := answers[..|answers| - 1];
      && Walk(snaps[..|answers| - 1], before, limit)
      && (before != [] ==> CursorAfter(before, limit).Some?)
      && IsAnswer(snaps[|answers| - 1], CursorAfter(before, limit), limit + 1, answers[|answers| - 1]))
  }

  /** The last page said there is nothing after it. */
  predicate Complete<T>(answers: seq<seq<Row<T>>>, limit: nat) {
    answers != [] && CursorAfter(answers, limit).None?
  }

  /** The rows the reader has been shown. */
  function Shown<T>(answers: seq<seq<Row<T>>>, limit: nat): seq<Row<T>>
    decreases |answers|
  {
    if answers == [] then []
    else Shown(answers[..|answers| - 1], limit) + BuildPage(answers[|answers| - 1], limit).data
  }

  // ------------------------------------------------------------ one page

  /** The filter and the order agree: a row matches the cursor exactly when it comes after it. */
  lemma {:induction false} WhereIsAfter(cursor: Key, key: Key)
    ensures CursorWhere(Some(cursor), key) <==> Before(cursor, key)
    ensures Before(cursor, key) || Before(key, cursor) || key == cursor
    ensures !(Before(cursor, key) && Before(key, cursor))
  {
  }

  /** With a limit of at least 1 there is a next cursor exactly when there is more, and it is the key
      of the last row shown. A limit of 0 says there is more and gives no way to get it. */
  lemma {:induction false} CursorWhenMore<T>(rows: seq<Row<T>>, limit: nat)
    ensures var page := BuildPage(rows, limit);
      && page.data == rows[..Min(|rows|, limit)]
      && (page.nextCursor.Some? <==> page.hasMore && limit > 0)
      && (page.nextCursor.Some? ==> |page.data| == limit && page.nextCursor.value == page.data[limit - 1].key)
  {
    assert |rows| <= limit ==> rows[..|rows|] == rows;
  }

  /** A row that matches the cursor is shown on the page, or matches the page's next cursor. */
  lemma {:induction false} ShownOrAfter<T(!new)>(table: Table<T>, cursor: Option<Key>, rows: seq<Row<T>>, limit: nat, row: Row<T>)
    requires limit >= 1 && IsAnswer(table, cursor, limit + 1, rows) && Has(table, row) && CursorWhere(cursor, row.key)
    ensures var page := BuildPage(rows, limit);
      row in page.data || (page.nextCursor.Some? && CursorWhere(page.nextCursor, row.key))
  {
    CursorWhenMore(rows, limit);
    var page := BuildPage(rows, limit);
    if row in rows {
      var i :| 0 <= i < |rows| && rows[i] == row;
      if i < limit { assert page.data[i] == row; }
      else { assert Before(rows[limit - 1].key, rows[i].key); }
    } else {
      assert Before(rows[limit - 1].key, row.key);
    }
  }

  // ------------------------------------------------------------ a whole walk

  /** A page that starts after the last row shown keeps the order. */
  lemma AppendOlder<T>(shown: seq<Row<T>>, data: seq<Row<T>>)
    requires Descending(shown) && Descending(data) && shown != []
    requires forall i :: 0 <= i < |data| ==> CursorWhere(Some(shown[|shown| - 1].key), data[i].key)
    ensures Descending(shown + data)
  {
    var last := shown[|shown| - 1].key;
    forall i, j | 0 <= i < j < |shown + data| ensures Before((shown + data)[i].key, (shown + data)[j].key) {
      if i < |shown| <= j {
        assert CursorWhere(Some(last), data[j - |shown|].key);
        assert i == |shown| - 1 || Before(shown[i].key, last);
      }
    }
  }

  lemma PageKeepsOrder<T(!new)>(table: Table<T>, shown: seq<Row<T>>, cursor: Option<Key>, rows: seq<Row<T>>, limit: nat)
    requires limit >= 1 && IsAnswer(table, cursor, limit + 1, rows) && Descending(shown)
    requires if cursor.Some? then shown != [] && shown[|shown| - 1].key == cursor.value else shown == []
    ensures var page := BuildPage(rows, limit);
      && Descending(shown + page.data)
      && (page.nextCursor.Some? ==> page.data != [] && page.data[|page.data| - 1].key == page.nextCursor.value)
  {
    CursorWhenMore(rows, limit);
    hide BuildPage;
    var data := rows[..Min(|rows|, limit)];
    PrefixMatches(table, cursor, rows, limit);
    hide IsAnswer, Descending, CursorWhere;
    if cursor.Some? {
      assert cursor == Some(shown[|shown| - 1].key);
      AppendOlder(shown, data);
    } else {
      assert shown + data == data;
    }
  }

  lemma PrefixMatches<T(!new)>(table: Table<T>, cursor: Option<Key>, rows: seq<Row<T>>, limit: nat)
    requires IsAnswer(table, cursor, limit + 1, rows)
    ensures var data := rows[..Min(|rows|, limit)];
      Descending(data) && forall i :: 0 <= i < |data| ==> CursorWhere(cursor, data[i].key)
  {
  }

  /** However the table changes between pages, the reader sees strictly descending keys, and the
      cursor is the key of the last row seen. */
  lemma {:induction false} WalkDescends<T(!new)>(snaps: seq<Table<T>>, answers: seq<seq<Row<T>>>, limit: nat)
    requires limit >= 1 && Walk(snaps, answers, limit)
    ensures Descending(Shown(answers, limit))
    ensures CursorAfter(answers, limit).Some? ==>
      |Shown(answers, limit)| > 0 && Shown(answers, limit)[|Shown(answers, limit)| - 1].key == CursorAfter(answers, limit).value
    decreases |answers|
  {
    if answers != [] {
      var n := |answers| - 1;
      WalkDescends(snaps[..n], answers[..n], limit);
      assert answers[..n] == [] ==> Shown(answers[..n], limit) == [];
      PageKeepsOrder(snaps[n], Shown(answers[..n], limit), CursorAfter(answers[..n], limit), answers[n], limit);
      hide BuildPage, Descending, IsAnswer;
    }
  }

  /** An id keeps its `createdAt` for as long as it is in the table. */
  ghost predicate KeysFixed<T>(snaps: seq<Table<T>>) {
    forall i, j, id :: 0 <= i < |snaps| && 0 <= j < |snaps| && id in snaps[i] && id in snaps[j] ==>
      snaps[i][id].createdAt == snaps[j][id].createdAt
  }

  /** Whatever is shown was in the snapshot of its page. */
  lemma {:induction false} ShownWasThere<T(!new)>(snaps: seq<Table<T>>, answers: seq<seq<Row<T>>>, limit: nat, k: nat)
    requires Walk(snaps, answers, limit) && k < |Shown(answers, limit)|
    ensures exists p :: 0 <= p < |snaps| && Has(snaps[p], Shown(answers, limit)[k])
    decreases |answers|
  {
    var n := |answers| - 1;
    var shown := Shown(answers[..n], limit);
    if k < |shown| {
      ShownWasThere(snaps[..n], answers[..n], limit, k);
      var p :| 0 <= p < |snaps[..n]| && Has(snaps[..n][p], shown[k]);
      assert Has(snaps[p], shown[k]);
    } else {
      CursorWhenMore(answers[n], limit);
      assert Has(snaps[n], answers[n][k - |shown|]);
    }
  }

  /** No row is shown twice, even when it changes between two pages. */
  lemma {:induction false} NoRowTwice<T(!new)>(snaps: seq<Table<T>>, answers: seq<seq<Row<T>>>, limit: nat, i: nat, j: nat)
    requires limit >= 1 && Walk(snaps, answers, limit) && KeysFixed(snaps) && i < j < |Shown(answers, limit)|
    ensures Shown(answers, limit)[i].key.id != Shown(answers, limit)[j].key.id
  {
    WalkDescends(snaps, answers, limit);
    ShownWasThere(snaps, answers, limit, i);
    ShownWasThere(snaps, answers, limit, j);
    var shown := Shown(answers, limit);
    assert Before(shown[i].key, shown[j].key);
  }

  /** The row with this key is in every snapshot; its other columns may change. */
  ghost predicate Survives<T>(snaps: seq<Table<T>>, key: Key) {
    forall p :: 0 <= p < |snaps| ==> key.id in snaps[p] && snaps[p][key.id].createdAt == key.createdAt
  }

  predicate KeyShown<T>(rows: seq<Row<T>>, key: Key) {
    exists k :: 0 <= k < |rows| && rows[k].key == key
  }

  lemma PageShowsOrLeaves<T(!new)>(table: Table<T>, shown: seq<Row<T>>, cursor: Option<Key>, rows: seq<Row<T>>, limit: nat, row: Row<T>)
    requires limit >= 1 && IsAnswer(table, cursor, limit + 1, rows) && Has(table, row)
    requires KeyShown(shown, row.key) || CursorWhere(cursor, row.key)
    ensures var page := BuildPage(rows, limit);
      KeyShown(shown + page.data, row.key) || (page.nextCursor.Some? && CursorWhere(page.nextCursor, row.key))
  {
    var data := BuildPage(rows, limit).data;
    if KeyShown(shown, row.key) {
      var k :| 0 <= k < |shown| && shown[k].key == row.key;
      assert (shown + data)[k] == shown[k];
    } else {
      ShownOrAfter(table, cursor, rows, limit, row);
      if row in data {
        var i :| 0 <= i < |data| && data[i] == row;
        assert (shown + data)[|shown| + i] == row;
      }
    }
  }

  lemma {:induction false} SurvivorShownOrAhead<T(!new)>(snaps: seq<Table<T>>, answers: seq<seq<Row<T>>>, limit: nat, key: Key)
    requires limit >= 1 && Walk(snaps, answers, limit) && Survives(snaps, key)
    ensures KeyShown(Shown(answers, limit), key)
      || ((answers == [] || CursorAfter(answers, limit).Some?) && CursorWhere(CursorAfter(answers, limit), key))
    decreases |answers|
  {
    if answers != [] {
      var n := |answers| - 1;
      SurvivorShownOrAhead(snaps[..n], answers[..n], limit, key);
      var row := Row(key, snaps[n][key.id].value);
      PageShowsOrLeaves(snaps[n], Shown(answers[..n], limit), CursorAfter(answers[..n], limit), answers[n], limit, row);
      hide BuildPage, IsAnswer, KeyShown, CursorWhere;
    }
  }

  /** A completed walk shows every row that was there throughout exactly once, whatever was inserted
      or deleted between its pages. */
  lemma {:induction false} SurvivorsShownOnce<T(!new)>(snaps: seq<Table<T>>, answers: seq<seq<Row<T>>>, limit: nat, key: Key)
    requires limit >= 1 && Walk(snaps, answers, limit) && Complete(answers, limit) && Survives(snaps, key)
    ensures KeyShown(Shown(answers, limit), key)
    ensures forall j, k :: 0 <= j < k < |Shown(answers, limit)| && Shown(answers, limit)[j].key == key ==>
      Shown(answers, limit)[k].key != key
  {
    SurvivorShownOrAhead(snaps, answers, limit, key);
    WalkDescends(snaps, answers, limit);
    var shown := Shown(answers, limit);
    forall j, k | 0 <= j < k < |shown| && shown[j].key == key ensures shown[k].key != key {
      assert Before(shown[j].key, shown[k].key);
    }
  }

  /** The whole table, newest first. */
  ghost predicate IsListing<T(!new)>(table: Table<T>, rows: seq<Row<T>>) {
    Descending(rows) && forall row: Row<T> :: row in rows <==> Has(table, row)
  }

  lemma SameHead<T(!new)>(a: seq<Row<T>>, b: seq<Row<T>>)
    requires Descending(a) && Descending(b) && a != [] && b != [] && a[0] in b && b[0] in a
    ensures a[0] == b[0]
  {
    var i :| 0 <= i < |b| && b[i] == a[0];
    var j :| 0 <= j < |a| && a[j] == b[0];
    FirstIsNewest(b, i);
    FirstIsNewest(a, j);
  }

  lemma FirstIsNewest<T>(rows: seq<Row<T>>, i: nat)
    requires Descending(rows) && i < |rows|
    ensures rows[i] == rows[0] || Before(rows[0].key, rows[i].key)
  {
  }

  /** There is only one such list. */
  lemma {:induction false} ListingUnique<T(!new)>(table: Table<T>, a: seq<Row<T>>, b: seq<Row<T>>)
    requires Descending(a) && Descending(b) && forall row: Row<T> :: row in a <==> row in b
    ensures a == b
    decreases |a|
  {
    assert b != [] ==> b[0] in b;
    if a != [] {
      assert a[0] in b;
      SameHead(a, b);
      forall row: Row<T> ensures row in a[1..] <==> row in b[1..] {
        NotTwice(a, row);
        NotTwice(b, row);
      }
      ListingUnique(table, a[1..], b[1..]);
    }
  }

  lemma NotTwice<T>(a: seq<Row<T>>, row: Row<T>)
    requires Descending(a) && a != []
    ensures row in a[1..] <==> row in a && row != a[0]
  {
    if row in a[1..] {
      var i :| 0 <= i < |a[1..]| && a[1..][i] == row;
      assert Before(a[0].key, a[i + 1].key);
    }
    if row in a && row != a[0] {
      var i :| 0 <= i < |a| && a[i] == row;
      assert a[1..][i - 1] == row;
    }
  }

  /** On a table that does not change, the pages of a completed walk put together are its listing. */
  lemma {:induction false} StaticWalkIsListing<T(!new)>(table: Table<T>, snaps: seq<Table<T>>, answers: seq<seq<Row<T>>>, limit: nat, listing: seq<Row<T>>)
    requires limit >= 1 && Walk(snaps, answers, limit) && Complete(answers, limit)
    requires (forall p :: 0 <= p < |snaps| ==> snaps[p] == table) && IsListing(table, listing)
    ensures Shown(answers, limit) == listing
  {
    WalkDescends(snaps, answers, limit);
    var shown := Shown(answers, limit);
    forall row: Row<T> ensures row in shown <==> row in listing {
      if row in shown {
        var k :| 0 <= k < |shown| && shown[k] == row;
        ShownWasThere(snaps, answers, limit, k);
      }
      if row in listing {
        assert Survives(snaps, row.key);
        SurvivorsShownOnce(snaps, answers, limit, row.key);
        var k :| 0 <= k < |shown| && shown[k].key == row.key;
        ShownWasThere(snaps, answers, limit, k);
        assert shown[k] == row;
      }
    }
    ListingUnique(table, shown, listing);
  }

  // ------------------------------------------------------------ when a walk ends

  /** Every page but a last one is full. */
  lemma {:induction false} ShownSize<T(!new)>(snaps: seq<Table<T>>, answers: seq<seq<Row<T>>>, limit: nat)
    requires limit >= 1 && Walk(snaps, answers, limit)
    ensures |Shown(answers, limit)| <= |answers| * limit
    ensures CursorAfter(answers, limit).Some? ==> |Shown(answers, limit)| == |answers| * limit
    decreases |answers|
  {
    if answers != [] {
      var n := |answers| - 1;
      ShownSize(snaps[..n], answers[..n], limit);
      CursorWhenMore(answers[n], limit);
      hide BuildPage, IsAnswer;
      assert |answers| * limit == n * limit + limit;
      assert answers[..n] == [] ==> n * limit == 0;
    }
  }

  predicate AllIn<T(==)>(table: Table<T>, rows: seq<Row<T>>) { forall i :: 0 <= i < |rows| ==> Has(table, rows[i]) }

  lemma {:induction false} DescendingFits<T(!new)>(table: Table<T>, rows: seq<Row<T>>)
    requires Descending(rows) && AllIn(table, rows)
    ensures |rows| <= |table|
    decreases |rows|
  {
    if rows != [] {
      var n := |rows| - 1;
      var fewer := table - {rows[n].key.id};
      forall i | 0 <= i < n ensures Has(fewer, rows[i]) { assert Before(rows[i].key, rows[n].key); }
      DescendingFits(fewer, rows[..n]);
      assert |fewer.Keys| == |table.Keys| - 1 by { assert fewer.Keys == table.Keys - {rows[n].key.id}; }
    }
  }

  ghost predicate Covers<T>(table: Table<T>, rows: seq<Row<T>>) {
    forall id :: id in table ==> exists k :: 0 <= k < |rows| && rows[k].key.id == id
  }

  lemma {:induction false} CoveringIsLong<T>(table: Table<T>, rows: seq<Row<T>>)
    requires Covers(table, rows)
    ensures |table| <= |rows|
    decreases |rows|
  {
    if rows == [] {
      assert forall id :: id !in table;
      assert table == map[];
    } else {
      var n := |rows| - 1;
      var id := rows[n].key.id;
      CoversFewer(table, rows);
      hide Covers;
      CoveringIsLong(table - {id}, rows[..n]);
      assert (table - {id}).Keys == table.Keys - {id};
    }
  }

  lemma CoversFewer<T>(table: Table<T>, rows: seq<Row<T>>)
    requires Covers(table, rows) && rows != []
    ensures Covers(table - {rows[|rows| - 1].key.id}, rows[..|rows| - 1])
  {
    var n := |rows| - 1;
    var fewer := table - {rows[n].key.id};
    forall id | id in fewer ensures exists k :: 0 <= k < n && rows[..n][k].key.id == id {
      var k :| 0 <= k < |rows| && rows[k].key.id == id;
      assert rows[..n][k] == rows[k];
    }
  }

  /** Where a next cursor is given there is a row behind the last one shown. */
  lemma OneMoreIsThere<T(!new)>(table: Table<T>, snaps: seq<Table<T>>, answers: seq<seq<Row<T>>>, limit: nat)
    requires limit >= 1 && Walk(snaps, answers, limit) && CursorAfter(answers, limit).Some?
    requires forall p :: 0 <= p < |snaps| ==> snaps[p] == table
    ensures |Shown(answers, limit)| + 1 <= |table|
  {
    var n := |answers| - 1;
    var shown, more := Shown(answers, limit), answers[n][limit];
    CursorWhenMore(answers[n], limit);
    WalkDescends(snaps, answers, limit);
    assert Has(snaps[n], more) && Before(answers[n][limit - 1].key, more.key);
    WhereIsAfter(shown[|shown| - 1].key, more.key);
    AppendOlder(shown, [more]);
    forall k | 0 <= k < |shown| ensures Has(table, shown[k]) { ShownWasThere(snaps, answers, limit, k); }
    assert AllIn(table, shown + [more]);
    DescendingFits(table, shown + [more]);
  }

  /** On a table that does not change, a walk is complete exactly when its pages can hold every row;
      so it has at most one page more than the rows fill, and with that many it is complete. */
  lemma {:induction false} WalkEndsExactlyWhen<T(!new)>(table: Table<T>, snaps: seq<Table<T>>, answers: seq<seq<Row<T>>>, limit: nat)
    requires limit >= 1 && Walk(snaps, answers, limit) && answers != []
    requires forall p :: 0 <= p < |snaps| ==> snaps[p] == table
    ensures Complete(answers, limit) <==> |table| <= |answers| * limit
    ensures |answers| <= |table| / limit + 1
    ensures |answers| == |table| / limit + 1 ==> Complete(answers, limit)
  {
    ShownSize(snaps, answers, limit);
    if Complete(answers, limit) {
      EveryRowIsShown(table, snaps, answers, limit);
    } else {
      OneMoreIsThere(table, snaps, answers, limit);
    }
    FullPagesFit(table, snaps, answers, limit);
    hide Complete, Walk, Shown, CursorAfter;
    Quotient(|table|, limit, |answers|);
  }

  lemma EveryRowIsShown<T(!new)>(table: Table<T>, snaps: seq<Table<T>>, answers: seq<seq<Row<T>>>, limit: nat)
    requires limit >= 1 && Walk(snaps, answers, limit) && Complete(answers, limit)
    requires forall p :: 0 <= p < |snaps| ==> snaps[p] == table
    ensures |table| <= |Shown(answers, limit)|
  {
    var shown := Shown(answers, limit);
    hide Walk, Shown, Complete;
    forall id | id in table ensures exists k :: 0 <= k < |shown| && shown[k].key.id == id {
      var key := Key(table[id].createdAt, id);
      SurvivorsShownOnce(snaps, answers, limit, key);
    }
    CoveringIsLong(table, shown);
  }

  /** The pages before the last one are full, and a row is left for it unless it is the only one. */
  lemma FullPagesFit<T(!new)>(table: Table<T>, snaps: seq<Table<T>>, answers: seq<seq<Row<T>>>, limit: nat)
    requires limit >= 1 && Walk(snaps, answers, limit) && answers != []
    requires forall p :: 0 <= p < |snaps| ==> snaps[p] == table
    ensures (|answers| - 1) * limit <= |table|
  {
    var n := |answers| - 1;
    if n > 0 {
      ShownSize(snaps[..n], answers[..n], limit);
      OneMoreIsThere(table, snaps[..n], answers[..n], limit);
    }
  }

  lemma Quotient(rows: nat, limit: nat, pages: nat)
    requires limit >= 1 && pages >= 1 && (pages - 1) * limit <= rows
    ensures pages <= rows / limit + 1
    ensures pages == rows / limit + 1 ==> rows <= pages * limit
  {
    var q := rows / limit;
    assert rows == q * limit + rows % limit;
    assert (q + 1) * limit == q * limit + limit;
    if pages - 1 >= q + 1 { Times(q + 1, pages - 1, limit); }
  }

  lemma Times(a: nat, b: nat, limit: nat)
    requires a <= b
    ensures a * limit <= b * limit
  {
  }
}
