/** Keyset pagination: the cursor clause, the page rule and the walk over pages
    (apps/api/src/agenticqueue_api/pagination.py, crud.py and app.py). */
module Pagination {
  import opened Base
  import opened Ordering

  /** The values of the order columns of one row: created_at, updated_at and id, as far as the table has them. */
  type Key = seq<int>

  /** Strict lexicographic order on keys of one width. */
  predicate Lex(a: Key, b: Key)
    requires |a| == |b|
  {
    if a == [] then false
    else a[0] < b[0] || (a[0] == b[0] && Lex(a[1..], b[1..]))
  }

  lemma {:induction false} LexTransitive(a: Key, b: Key, c: Key)
    requires |a| == |b| == |c| && Lex(a, b) && Lex(b, c)
    ensures Lex(a, c)
  {
    if a[0] != b[0] || b[0] != c[0] {
    } else {
      LexTransitive(a[1..], b[1..], c[1..]);
    }
  }

  lemma {:induction false} LexTrichotomy(a: Key, b: Key)
    requires |a| == |b|
    ensures if a == b then !Lex(a, b) && !Lex(b, a) else Lex(a, b) != Lex(b, a)
  {
    if a == [] {
    } else {
      LexTrichotomy(a[1..], b[1..]);
      assert a == [a[0]] + a[1..] && b == [b[0]] + b[1..];
    }
  }

  // ----- the cursor clause

  datatype Comparison = Equal(column: nat, value: int) | Greater(column: nat, value: int)

  /** A disjunction of conjunctions over the order columns. */
  type Clause = seq<seq<Comparison>>

  predicate Meets(key: Key, c: Comparison) {
    c.column < |key| && if c.Equal? then key[c.column] == c.value else key[c.column] > c.value
  }

  predicate MeetsAll(key: Key, cs: seq<Comparison>) {
    forall i :: 0 <= i < |cs| ==> Meets(key, cs[i])
  }

  predicate Satisfies(key: Key, clause: Clause) {
    exists i :: 0 <= i < |clause| && MeetsAll(key, clause[i])
  }

  /** Equality on every column before `index`, then greater on `index`. */
  ghost predicate IsConjunction(cs: seq<Comparison>, cursor: Key, index: nat) {
    && index < |cursor| && |cs| == index + 1
    && (forall j :: 0 <= j < index ==> cs[j] == Equal(j, cursor[j]))
    && cs[index] == Greater(index, cursor[index])
  }

  /** Builds the cursor clause; a row satisfies it exactly when its key comes strictly after the cursor. */
  method CursorClause(cursor: Key) returns (clause: Clause)
    ensures forall key :: |key| == |cursor| ==> (Satisfies(key, clause) <==> Lex(cursor, key))
  {
    clause := [];
    for index := 0 to |cursor|
      invariant |clause| == index
      invariant forall i :: 0 <= i < index ==> IsConjunction(clause[i], cursor, i)
    {
      var comparisons: seq<Comparison> := [];
      for offset := 0 to index
        invariant |comparisons| == offset
        invariant forall j :: 0 <= j < offset ==> comparisons[j] == Equal(j, cursor[j])
      {
        comparisons := comparisons + [Equal(offset, cursor[offset])];
      }
      comparisons := comparisons + [Greater(index, cursor[index])];
      clause := clause + [comparisons];
    }
    forall key: Key | |key| == |cursor| ensures Satisfies(key, clause) <==> Lex(cursor, key) {
      LexFirstDifference(cursor, key);
      if Satisfies(key, clause) {
        var i :| 0 <= i < |clause| && MeetsAll(key, clause[i]);
        assert IsConjunction(clause[i], cursor, i);
        assert forall j :: 0 <= j < i ==> Meets(key, clause[i][j]);
        assert Meets(key, clause[i][i]);
        assert GreaterAt(cursor, key, i);
      }
      if Lex(cursor, key) {
        var i: nat :| GreaterAt(cursor, key, i);
        assert IsConjunction(clause[i], cursor, i);
        assert MeetsAll(key, clause[i]);
      }
    }
  }

  /** The keys agree before column `i`, and there `b` is greater. */
  ghost predicate GreaterAt(a: Key, b: Key, i: nat) {
    i < |a| == |b| && a[i] < b[i] && forall j :: 0 <= j < i ==> a[j] == b[j]
  }

  lemma {:induction false} LexFirstDifference(a: Key, b: Key)
    requires |a| == |b|
    ensures Lex(a, b) <==> exists i: nat :: GreaterAt(a, b, i)
  {
    if a == [] {
    } else {
      LexFirstDifference(a[1..], b[1..]);
      if a[0] < b[0] {
        assert GreaterAt(a, b, 0);
      } else if a[0] == b[0] {
        if Lex(a[1..], b[1..]) {
          var i: nat :| GreaterAt(a[1..], b[1..], i);
          assert forall j :: 0 < j < i + 1 ==> a[j] == a[1..][j - 1] && b[j] == b[1..][j - 1];
          assert GreaterAt(a, b, i + 1);
        }
        if exists i: nat :: GreaterAt(a, b, i) {
          var i: nat :| GreaterAt(a, b, i);
          assert forall j :: 0 <= j < i - 1 ==> a[1..][j] == a[j + 1] && b[1..][j] == b[j + 1];
          assert GreaterAt(a[1..], b[1..], i - 1);
        }
      }
    }
  }

  // ----- rows and pages

  datatype Row = Row(key: Key, data: int)

  predicate NotAfter(a: Row, b: Row) {
    if |a.key| == |b.key| then a.key == b.key || Lex(a.key, b.key) else |a.key| < |b.key|
  }

  /** Every row has all `width` order columns, and no two rows share a key: the last column is the id. */
  ghost predicate IsTable(rows: seq<Row>, width: nat) {
    && (forall i :: 0 <= i < |rows| ==> |rows[i].key| == width)
    && (forall i, j :: 0 <= i < j < |rows| ==> rows[i].key != rows[j].key)
  }

  /** A cursor as decoded: absent on the first page. */
  type Cursor = Option<Key>

  predicate Beyond(row: Row, cursor: Cursor) {
    cursor.None? || (|cursor.value| == |row.key| && Lex(cursor.value, row.key))
  }

  function After(rows: seq<Row>, cursor: Cursor): seq<Row> {
    if rows == [] then []
    else if Beyond(rows[0], cursor) then [rows[0]] + After(rows[1..], cursor)
    else After(rows[1..], cursor)
  }

  datatype Page = Page(rows: seq<Row>, next: Cursor)

  /** At most `limit` of the rows fetched; one row more than that leaves a cursor to the next page. */
  function CutPage(fetched: seq<Row>, limit: nat): Page
    requires limit >= 1
  {
    if |fetched| > limit then Page(fetched[..limit], Some(fetched[limit - 1].key)) else Page(fetched, None)
  }

  /** One list request: filter by the cursor, order, fetch `limit + 1`, cut. */
  function ListEntities(table: seq<Row>, limit: nat, cursor: Cursor): Page
    requires limit >= 1
  {
    var matching := Sort(After(table, cursor), NotAfter);
    CutPage(if |matching| > limit + 1 then matching[..limit + 1] else matching, limit)
  }

  /** The in-memory pager skips up to the cursor and stops one row past the limit. */
  method PaginateSequence(values: seq<Row>, limit: nat, cursor: Cursor) returns (page: Page)
    requires limit >= 1
    ensures page == CutPage(Prefix(After(values, cursor), limit + 1), limit)
  {
    var rows: seq<Row> := [];
    assert values[0..] == values;
    for i := 0 to |values|
      invariant |rows| <= limit
      invariant After(values, cursor) == rows + After(values[i..], cursor)
    {
      assert values[i..][1..] == values[i + 1..];
      if Beyond(values[i], cursor) {
        rows := rows + [values[i]];
        if |rows| > limit {
          assert Prefix(After(values, cursor), limit + 1) == rows;
          return CutPage(rows, limit);
        }
      }
    }
    assert values[|values|..] == [] && After(values, cursor) == rows;
    page := CutPage(rows, limit);
  }

  function Prefix(rows: seq<Row>, n: nat): seq<Row> {
    if |rows| > n then rows[..n] else rows
  }

  /** On input in key order the in-memory pager gives the page of the list request. */
  lemma SamePageInMemory(values: seq<Row>, limit: nat, cursor: Cursor)
    requires limit >= 1 && Sorted(values, NotAfter)
    ensures ListEntities(values, limit, cursor) == CutPage(Prefix(After(values, cursor), limit + 1), limit)
  {
    AfterSorted(values, cursor);
    SortedStays(After(values, cursor), NotAfter);
  }

  lemma {:induction false} AfterMembers(rows: seq<Row>, cursor: Cursor)
    ensures forall row :: row in After(rows, cursor) <==> row in rows && Beyond(row, cursor)
  {
    if rows == [] {
    } else {
      AfterMembers(rows[1..], cursor);
      assert rows == [rows[0]] + rows[1..];
    }
  }

  lemma {:induction false} AfterSorted(rows: seq<Row>, cursor: Cursor)
    requires Sorted(rows, NotAfter)
    ensures Sorted(After(rows, cursor), NotAfter)
  {
    if rows == [] {
    } else {
      AfterSorted(rows[1..], cursor);
      AfterMembers(rows[1..], cursor);
      var rest := After(rows[1..], cursor);
      forall j | 0 <= j < |rest| ensures NotAfter(rows[0], rest[j]) {
        assert rest[j] in rest;
      }
    }
  }

  lemma {:induction false} AfterDistinct(rows: seq<Row>, cursor: Cursor, width: nat)
    requires IsTable(rows, width)
    ensures IsTable(After(rows, cursor), width)
  {
    if rows == [] {
    } else {
      AfterDistinct(rows[1..], cursor, width);
      AfterMembers(rows[1..], cursor);
      var rest := After(rows[1..], cursor);
      forall j | 0 <= j < |rest| ensures rest[j].key != rows[0].key && |rest[j].key| == width {
        assert rest[j] in rest;
      }
    }
  }

  lemma NotAfterOrders()
    ensures Transitive(NotAfter) && Total(NotAfter)
  {
    forall a, b ensures NotAfter(a, b) || NotAfter(b, a) {
      if |a.key| == |b.key| { LexTrichotomy(a.key, b.key); }
    }
    forall a, b, c | NotAfter(a, b) && NotAfter(b, c) ensures NotAfter(a, c) {
      if |a.key| == |b.key| == |c.key| && a.key != b.key && b.key != c.key { LexTransitive(a.key, b.key, c.key); }
    }
  }

  /** Rows whose keys climb strictly: in order, none twice. */
  ghost predicate Climbing(rows: seq<Row>, width: nat) {
    && (forall i :: 0 <= i < |rows| ==> |rows[i].key| == width)
    && (forall i, j :: 0 <= i < j < |rows| ==> Lex(rows[i].key, rows[j].key))
  }

  /** What ORDER BY returns for a table: its matching rows, climbing. */
  lemma MatchingRows(table: seq<Row>, cursor: Cursor, width: nat)
    requires IsTable(table, width)
    ensures var matching := Sort(After(table, cursor), NotAfter);
            && Climbing(matching, width)
            && (forall row :: row in matching <==> row in table && Beyond(row, cursor))
            && |matching| == |After(table, cursor)|
  {
    var rows := After(table, cursor);
    var matching := Sort(rows, NotAfter);
    AfterMembers(table, cursor);
    AfterDistinct(table, cursor, width);
    NotAfterOrders();
    SortSorts(rows, NotAfter);
    SameMembers(matching, rows);
    forall i | 0 <= i < |matching| ensures |matching[i].key| == width {
      assert matching[i] in rows;
    }
    forall i, j | 0 <= i < j < |matching| ensures Lex(matching[i].key, matching[j].key) {
      SortedApart(matching, rows, width, i, j);
    }
  }

  lemma SortedApart(matching: seq<Row>, rows: seq<Row>, width: nat, i: nat, j: nat)
    requires multiset(matching) == multiset(rows) && IsTable(rows, width) && Sorted(matching, NotAfter)
    requires i < j < |matching|
    ensures |matching[i].key| == |matching[j].key| && Lex(matching[i].key, matching[j].key)
  {
    SameMembers(matching, rows);
    assert matching[i] in rows && matching[j] in rows;
    assert NotAfter(matching[i], matching[j]);
    if matching[i].key == matching[j].key {
      if matching[i] == matching[j] {
        assert matching == matching[..i] + [matching[i]] + matching[i + 1..j] + [matching[j]] + matching[j + 1..];
        assert multiset(matching)[matching[i]] >= 2;
        TableCountsOnce(rows, width, matching[i]);
      }
    }
  }

  lemma {:induction false} TableCountsOnce(rows: seq<Row>, width: nat, row: Row)
    requires IsTable(rows, width)
    ensures multiset(rows)[row] <= 1
  {
    if rows == [] {
    } else {
      TableCountsOnce(rows[1..], width, row);
      assert rows == [rows[0]] + rows[1..];
      if rows[0] == row {
        assert forall j :: 0 <= j < |rows[1..]| ==> rows[1..][j] != row;
        assert row !in multiset(rows[1..]);
      }
    }
  }

  // ----- walking the pages

  function Flatten(pages: seq<seq<Row>>): seq<Row> {
    if pages == [] then [] else pages[0] + Flatten(pages[1..])
  }

  /** One page request of a walk sees the table of its own moment. The walk ends at the first page without a
      cursor; `tables` holds one table per page. */
  ghost predicate Walk(tables: seq<seq<Row>>, limit: nat, cursor: Cursor, pages: seq<seq<Row>>)
    requires limit >= 1
    decreases |tables|
  {
    && |tables| == |pages| && tables != []
    && var page := ListEntities(tables[0], limit, cursor);
       && pages[0] == page.rows
       && if page.next.None? then |tables| == 1 else Walk(tables[1..], limit, page.next, pages[1..])
  }

  lemma PrefixIsNotBeyond(rows: seq<Row>, k: nat, row: Row, width: nat)
    requires Climbing(rows, width) && k < |rows| && row in rows
    ensures row in rows[..k + 1] <==> !Beyond(row, Some(rows[k].key))
  {
    var i :| 0 <= i < |rows| && rows[i] == row;
    LexTrichotomy(row.key, rows[k].key);
    if i <= k { assert rows[..k + 1][i] == row; }
    if row in rows[..k + 1] {
      var j :| 0 <= j < k + 1 && rows[..k + 1][j] == row;
      assert j == k || Lex(rows[j].key, rows[k].key);
    }
  }

  /** What cutting keeps of rows in key order. */
  lemma CutFacts(matching: seq<Row>, limit: nat, width: nat)
    requires limit >= 1 && Climbing(matching, width)
    ensures var page := CutPage(Prefix(matching, limit + 1), limit);
            && Climbing(page.rows, width)
            && (page.next.Some? ==>
              page.rows != [] && page.next.value == page.rows[|page.rows| - 1].key && |page.next.value| == width)
            && (forall row :: row in page.rows ==> row in matching)
            && (forall row :: row in matching ==>
              if page.next.None? then row in page.rows else row in page.rows <==> !Beyond(row, page.next))
  {
    var page := CutPage(Prefix(matching, limit + 1), limit);
    if |matching| > limit {
      assert page.rows == matching[..limit] && page.next == Some(matching[limit - 1].key);
      forall row | row in matching ensures row in page.rows <==> !Beyond(row, page.next) {
        PrefixIsNotBeyond(matching, limit - 1, row, width);
      }
    }
  }

  /** Facts about one page: it climbs, starts past the cursor, and holds every matching row up to its end. */
  lemma PageFacts(table: seq<Row>, limit: nat, cursor: Cursor, width: nat)
    requires limit >= 1 && IsTable(table, width) && (cursor.Some? ==> |cursor.value| == width)
    ensures var page := ListEntities(table, limit, cursor);
            && Climbing(page.rows, width)
            && (forall row :: row in page.rows ==> row in table && Beyond(row, cursor))
            && (page.next.Some? ==>
              page.rows != [] && page.next.value == page.rows[|page.rows| - 1].key && |page.next.value| == width)
            && (forall row :: row in table && Beyond(row, cursor) ==>
              row in page.rows || (page.next.Some? && Beyond(row, page.next)))
            && (forall row :: row in page.rows ==> page.next.Some? ==> !Beyond(row, page.next))
  {
    MatchingRows(table, cursor, width);
    CutFacts(Sort(After(table, cursor), NotAfter), limit, width);
  }

  /** With rows coming and going between pages, the keys listed still climb, so no key is listed twice. A row whose
      key changes between pages is another matter, see `ListedAgainIff`. */
  lemma {:induction false} WalkClimbs(tables: seq<seq<Row>>, limit: nat, cursor: Cursor, pages: seq<seq<Row>>,
                                      width: nat)
    requires limit >= 1 && Walk(tables, limit, cursor, pages) && (cursor.Some? ==> |cursor.value| == width)
    requires forall i :: 0 <= i < |tables| ==> IsTable(tables[i], width)
    ensures Climbing(Flatten(pages), width)
    ensures forall row :: row in Flatten(pages) ==> Beyond(row, cursor)
    decreases |tables|
  {
    var page := ListEntities(tables[0], limit, cursor);
    PageFacts(tables[0], limit, cursor, width);
    if page.next.Some? {
      WalkClimbs(tables[1..], limit, page.next, pages[1..], width);
      JoinClimbs(page.rows, Flatten(pages[1..]), page.next.value, cursor, width);
    } else {
      assert pages[1..] == [] && Flatten(pages) == page.rows;
    }
  }

  lemma JoinClimbs(first: seq<Row>, rest: seq<Row>, last: Key, cursor: Cursor, width: nat)
    requires Climbing(first, width) && Climbing(rest, width) && first != [] && last == first[|first| - 1].key
    requires forall row :: row in rest ==> Beyond(row, Some(last))
    requires forall row :: row in first ==> Beyond(row, cursor)
    requires cursor.Some? ==> |cursor.value| == width
    ensures Climbing(first + rest, width)
    ensures forall row :: row in first + rest ==> Beyond(row, cursor)
  {
    forall j | 0 <= j < |rest| ensures Lex(last, rest[j].key) { assert rest[j] in rest; }
    forall i, j | 0 <= i < |first| && 0 <= j < |rest| ensures Lex(first[i].key, rest[j].key) {
      assert rest[j] in rest;
      if i < |first| - 1 { LexTransitive(first[i].key, last, rest[j].key); }
    }
    if cursor.Some? {
      assert first[|first| - 1] in first;
      forall row | row in rest ensures Beyond(row, cursor) {
        var j :| 0 <= j < |rest| && rest[j] == row;
        LexTransitive(cursor.value, last, row.key);
      }
    }
  }

  ghost predicate HasKey(rows: seq<Row>, key: Key) {
    exists row :: row in rows && row.key == key
  }

  /** A row whose key is in the table whenever a page is read is listed, however its other fields change. */
  lemma {:induction false} WalkMissesNothing(tables: seq<seq<Row>>, limit: nat, cursor: Cursor, pages: seq<seq<Row>>,
                                             width: nat, key: Key)
    requires limit >= 1 && Walk(tables, limit, cursor, pages) && (cursor.Some? ==> |cursor.value| == width)
    requires forall i :: 0 <= i < |tables| ==> IsTable(tables[i], width) && HasKey(tables[i], key)
    requires Beyond(Row(key, 0), cursor)
    ensures HasKey(Flatten(pages), key)
    decreases |tables|
  {
    var page := ListEntities(tables[0], limit, cursor);
    PageFacts(tables[0], limit, cursor, width);
    assert HasKey(tables[0], key);
    var row :| row in tables[0] && row.key == key;
    if row in page.rows {
      assert row in Flatten(pages);
    } else {
      WalkMissesNothing(tables[1..], limit, page.next, pages[1..], width, key);
    }
  }

  /** Every row present throughout a whole walk, under one key, is listed exactly once, whatever else is
      inserted, changed or deleted between the pages. */
  lemma PresentRowsListedOnce(tables: seq<seq<Row>>, limit: nat, pages: seq<seq<Row>>, width: nat, key: Key)
    requires limit >= 1 && Walk(tables, limit, None, pages)
    requires forall i :: 0 <= i < |tables| ==> IsTable(tables[i], width) && HasKey(tables[i], key)
    ensures exists i :: 0 <= i < |Flatten(pages)| && Flatten(pages)[i].key == key
                     && forall j :: 0 <= j < |Flatten(pages)| && j != i ==> Flatten(pages)[j].key != key
  {
    WalkClimbs(tables, limit, None, pages, width);
    WalkMissesNothing(tables, limit, None, pages, width, key);
    ClimbingIsTable(Flatten(pages), width);
    var row :| row in Flatten(pages) && row.key == key;
    var i :| 0 <= i < |Flatten(pages)| && Flatten(pages)[i] == row;
    assert Flatten(pages)[i].key == key;
  }

  /** A key that a page does not list stays ahead of the walk, however much it grows before the next page. */
  lemma NotListedStaysAhead(table: seq<Row>, limit: nat, cursor: Cursor, width: nat, key: Key, later: Key)
    requires limit >= 1 && IsTable(table, width) && (cursor.Some? ==> |cursor.value| == width)
    requires HasKey(table, key) && Beyond(Row(key, 0), cursor) && |key| == |later| == width
    requires key == later || Lex(key, later)
    ensures var page := ListEntities(table, limit, cursor);
            !HasKey(page.rows, key) ==>
              page.next.Some? && |page.next.value| == width && Beyond(Row(later, 0), page.next)
  {
    var page := ListEntities(table, limit, cursor);
    PageFacts(table, limit, cursor, width);
    var row :| row in table && row.key == key;
    if !HasKey(page.rows, key) {
      assert row !in page.rows;
      if key != later { LexTransitive(page.next.value, key, later); }
    }
  }

  /** A row that is present whenever a page is read, under keys that only grow, is listed under the key of some
      page: none is missed. Creation times and ids never change and update times only climb. */
  lemma {:induction false} GrowingRowNeverMissed(tables: seq<seq<Row>>, limit: nat, cursor: Cursor,
                                                 pages: seq<seq<Row>>, width: nat, keys: seq<Key>) returns (i: nat)
    requires limit >= 1 && Walk(tables, limit, cursor, pages) && (cursor.Some? ==> |cursor.value| == width)
    requires |keys| == |tables|
    requires forall i :: 0 <= i < |tables| ==>
        IsTable(tables[i], width) && |keys[i]| == width && HasKey(tables[i], keys[i])
    requires forall i :: 0 <= i < |keys| - 1 ==> keys[i] == keys[i + 1] || Lex(keys[i], keys[i + 1])
    requires Beyond(Row(keys[0], 0), cursor)
    ensures i < |pages| && HasKey(pages[i], keys[i])
    decreases |tables|
  {
    var page := ListEntities(tables[0], limit, cursor);
    if HasKey(page.rows, keys[0]) {
      i := 0;
    } else {
      NotListedStaysAhead(tables[0], limit, cursor, width, keys[0], keys[0]);
      NotListedStaysAhead(tables[0], limit, cursor, width, keys[0], keys[1]);
      var later := GrowingRowNeverMissed(tables[1..], limit, page.next, pages[1..], width, keys[1..]);
      i := later + 1;
    }
  }

  // ----- rows updated between pages

  /** The order columns of a table with both timestamps. */
  const CREATED := 0
  const UPDATED := 1
  const ID := 2

  lemma LexOfThree(a: Key, b: Key)
    requires |a| == |b| == 3
    ensures Lex(a, b)
       <==> || a[CREATED] < b[CREATED]
            || (a[CREATED] == b[CREATED] && a[UPDATED] < b[UPDATED])
            || (a[CREATED] == b[CREATED] && a[UPDATED] == b[UPDATED] && a[ID] < b[ID])
  {
    assert Lex(a, b) == (a[0] < b[0] || (a[0] == b[0] && Lex(a[1..], b[1..])));
    assert Lex(a[1..], b[1..]) == (a[1] < b[1] || (a[1] == b[1] && Lex(a[1..][1..], b[1..][1..])));
    assert Lex(a[1..][1..], b[1..][1..]) == (a[2] < b[2] || (a[2] == b[2] && Lex(a[1..][1..][1..], b[1..][1..][1..])));
  }

  /** The same row later: its update time may have moved forward. */
  ghost predicate UpdatedTo(r: Row, s: Row) {
    && |r.key| == |s.key| == 3
    && r.key[CREATED] == s.key[CREATED] && r.key[ID] == s.key[ID] && r.key[UPDATED] <= s.key[UPDATED]
  }

  /** A row of a page comes into view again exactly when the page ended among rows created at the same time and the
      update took it past the end. */
  lemma InViewAgainIff(table: seq<Row>, limit: nat, cursor: Cursor, r: Row, s: Row)
    requires limit >= 1 && IsTable(table, 3) && (cursor.Some? ==> |cursor.value| == 3)
    requires var page := ListEntities(table, limit, cursor); r in page.rows && page.next.Some?
    requires UpdatedTo(r, s)
    ensures var last := ListEntities(table, limit, cursor).next.value;
            && |last| == 3
            && (Beyond(s, Some(last))
                <==> && r.key[CREATED] == last[CREATED]
                     && (s.key[UPDATED] > last[UPDATED] || (s.key[UPDATED] == last[UPDATED] && s.key[ID] > last[ID])))
  {
    PageFacts(table, limit, cursor, 3);
    var last := ListEntities(table, limit, cursor).next.value;
    assert !Beyond(r, Some(last));
    LexOfThree(last, r.key);
    LexOfThree(last, s.key);
  }

  ghost predicate DistinctCreation(rows: seq<Row>) {
    && (forall i :: 0 <= i < |rows| ==> |rows[i].key| == 3)
    && forall i, j :: 0 <= i < j < |rows| ==> rows[i].key[CREATED] != rows[j].key[CREATED]
  }

  /** Exactly when a listed row is listed again on the next page, where no two rows were created at the same time:
      it ended its page and was updated before the next one was read. */
  lemma ListedAgainIff(before: seq<Row>, after: seq<Row>, limit: nat, cursor: Cursor, r: Row, s: Row)
    requires limit >= 1 && IsTable(before, 3) && IsTable(after, 3) && (cursor.Some? ==> |cursor.value| == 3)
    requires DistinctCreation(before) && DistinctCreation(after)
    requires var page := ListEntities(before, limit, cursor); r in page.rows && page.next.Some?
    requires s in after && UpdatedTo(r, s)
    ensures var last := ListEntities(before, limit, cursor).next;
            s in ListEntities(after, limit, last).rows <==> r.key == last.value && s.key[UPDATED] > r.key[UPDATED]
  {
    var page := ListEntities(before, limit, cursor);
    PageFacts(before, limit, cursor, 3);
    PageFacts(after, limit, page.next, 3);
    InViewAgainIff(before, limit, cursor, r, s);
    var last := page.rows[|page.rows| - 1];
    assert last in page.rows && last.key == page.next.value;
    OneOfEachCreation(before, r, last);
    if Beyond(s, page.next) { EarliestIsListed(after, limit, page.next, s); }
  }

  lemma OneOfEachCreation(rows: seq<Row>, r: Row, s: Row)
    requires DistinctCreation(rows) && r in rows && s in rows
    ensures r.key[CREATED] == s.key[CREATED] ==> r == s
  {
  }

  /** The one row created at the cursor's time, once beyond the cursor, comes first on the page. */
  lemma EarliestIsListed(table: seq<Row>, limit: nat, cursor: Cursor, s: Row)
    requires limit >= 1 && IsTable(table, 3) && DistinctCreation(table) && s in table
    requires cursor.Some? && |cursor.value| == 3 && Beyond(s, cursor) && s.key[CREATED] == cursor.value[CREATED]
    ensures s in ListEntities(table, limit, cursor).rows
  {
    var matching := Sort(After(table, cursor), NotAfter);
    MatchingRows(table, cursor, 3);
    var j :| 0 <= j < |matching| && matching[j] == s;
    var first := matching[0];
    assert first in matching;
    LexOfThree(cursor.value, first.key);
    if j > 0 {
      LexOfThree(first.key, s.key);
      OneOfEachCreation(table, first, s);
      LexTrichotomy(first.key, s.key);
    }
    assert ListEntities(table, limit, cursor).rows[0] == first;
  }

  const FRESH_TABLE := [Row([0, 0, 1], 0), Row([1, 0, 2], 0)]
  const TOUCHED_TABLE := [Row([0, 5, 1], 0), Row([1, 0, 2], 0)]

  /** Reading one row a page while the first row is updated after the first page lists that row twice. */
  lemma UpdatedRowListedTwice()
    ensures IsTable(FRESH_TABLE, 3) && IsTable(TOUCHED_TABLE, 3)
    ensures Walk([FRESH_TABLE, TOUCHED_TABLE, TOUCHED_TABLE], 1, None,
                 [[FRESH_TABLE[0]], [TOUCHED_TABLE[0]], [TOUCHED_TABLE[1]]])
    ensures FRESH_TABLE[0].key[ID] == TOUCHED_TABLE[0].key[ID]
  {
    LexOfThree([0, 0, 1], [1, 0, 2]);
    LexOfThree([0, 5, 1], [1, 0, 2]);
    LexOfThree([0, 0, 1], [0, 5, 1]);
    LexOfThree([0, 5, 1], [0, 5, 1]);
    PageOfTwo(FRESH_TABLE[0], FRESH_TABLE[1], None);
    PageOfTwo(TOUCHED_TABLE[0], TOUCHED_TABLE[1], Some([0, 0, 1]));
    PageOfTwo(TOUCHED_TABLE[0], TOUCHED_TABLE[1], Some([0, 5, 1]));
  }

  lemma PageOfTwo(a: Row, b: Row, cursor: Cursor)
    requires |a.key| == |b.key| && Lex(a.key, b.key) && Beyond(b, cursor)
    ensures ListEntities([a, b], 1, cursor) == if Beyond(a, cursor) then Page([a], Some(a.key)) else Page([b], None)
  {
    assert [a, b][1..] == [b] && [b][1..] == [];
    assert After([b], cursor) == [b];
    assert Sort([b], NotAfter) == [b];
    if Beyond(a, cursor) {
      assert After([a, b], cursor) == [a, b];
      assert Sort([a, b], NotAfter) == Insert(a, [b], NotAfter) == [a, b];
      assert [a, b][..1] == [a];
    } else {
      assert After([a, b], cursor) == [b];
    }
  }

  lemma ClimbingIsTable(rows: seq<Row>, width: nat)
    requires Climbing(rows, width)
    ensures IsTable(rows, width)
  {
    forall i, j | 0 <= i < j < |rows| ensures rows[i].key != rows[j].key {
      LexTrichotomy(rows[i].key, rows[j].key);
    }
  }

  /** `count` is `n / limit` rounded up, and 1 when there are no rows. */
  ghost predicate IsPageCount(count: nat, n: nat, limit: nat) {
    count >= 1 && n <= count * limit && (count == 1 || (count - 1) * limit < n)
  }

  lemma OneMorePage(count: nat, n: nat, limit: nat)
    requires n >= 1 && IsPageCount(count, n, limit)
    ensures IsPageCount(count + 1, n + limit, limit)
  {
    assert (count + 1) * limit == count * limit + limit;
    assert count * limit == (count - 1) * limit + limit;
    if count == 1 { assert (count - 1) * limit == 0; }
  }

  function Matching(table: seq<Row>, cursor: Cursor): seq<Row> {
    Sort(After(table, cursor), NotAfter)
  }

  /** Over an unchanging table a walk lists what lies beyond its cursor, in order, in as few pages as possible. */
  lemma {:induction false} FixedTableWalk(table: seq<Row>, tables: seq<seq<Row>>, limit: nat, cursor: Cursor,
                                          pages: seq<seq<Row>>, width: nat)
    requires limit >= 1 && Walk(tables, limit, cursor, pages) && (cursor.Some? ==> |cursor.value| == width)
    requires IsTable(table, width) && forall i :: 0 <= i < |tables| ==> tables[i] == table
    ensures Flatten(pages) == Matching(table, cursor)
    ensures IsPageCount(|pages|, |Matching(table, cursor)|, limit)
    decreases |tables|
  {
    var matching := Matching(table, cursor);
    var page := ListEntities(tables[0], limit, cursor);
    assert page.rows == Prefix(matching, limit);
    if page.next.Some? {
      RestOfTable(table, limit, cursor, width);
      FixedTableWalk(table, tables[1..], limit, page.next, pages[1..], width);
      assert matching == matching[..limit] + matching[limit..];
      OneMorePage(|pages[1..]|, |matching| - limit, limit);
    } else {
      assert pages[1..] == [] && Flatten(pages) == page.rows;
    }
  }

  /** Such a walk exists: following the cursors over an unchanging table ends. */
  lemma {:induction false} FixedTableWalkEnds(table: seq<Row>, limit: nat, cursor: Cursor, width: nat)
    returns (tables: seq<seq<Row>>, pages: seq<seq<Row>>)
    requires limit >= 1 && IsTable(table, width) && (cursor.Some? ==> |cursor.value| == width)
    ensures Walk(tables, limit, cursor, pages) && forall i :: 0 <= i < |tables| ==> tables[i] == table
    decreases |Matching(table, cursor)|
  {
    var page := ListEntities(table, limit, cursor);
    tables, pages := [table], [page.rows];
    if page.next.None? {
    } else {
      RestOfTable(table, limit, cursor, width);
      var laterTables, laterPages := FixedTableWalkEnds(table, limit, page.next, width);
      tables, pages := tables + laterTables, pages + laterPages;
      assert tables[1..] == laterTables && pages[1..] == laterPages;
    }
  }

  lemma {:induction false} AfterNothing(table: seq<Row>)
    ensures After(table, None) == table
  {
    if table == [] {
    } else {
      AfterNothing(table[1..]);
    }
  }

  /** Walking an unchanging table from the first page lists every row once, in key order, in
      max(1, ceil(n / limit)) pages. */
  lemma WholeTableWalk(table: seq<Row>, tables: seq<seq<Row>>, limit: nat, pages: seq<seq<Row>>, width: nat)
    requires limit >= 1 && Walk(tables, limit, None, pages)
    requires IsTable(table, width) && forall i :: 0 <= i < |tables| ==> tables[i] == table
    ensures Flatten(pages) == Sort(table, NotAfter) && multiset(Flatten(pages)) == multiset(table)
    ensures Climbing(Flatten(pages), width)
    ensures IsPageCount(|pages|, |table|, limit)
  {
    FixedTableWalk(table, tables, limit, None, pages, width);
    AfterNothing(table);
    MatchingRows(table, None, width);
    NotAfterOrders();
    SortSorts(table, NotAfter);
  }

  /** What lies beyond the last row of a page is what the page left out. */
  lemma RestOfTable(table: seq<Row>, limit: nat, cursor: Cursor, width: nat)
    requires limit >= 1 && IsTable(table, width) && (cursor.Some? ==> |cursor.value| == width)
    requires ListEntities(table, limit, cursor).next.Some?
    ensures var next := ListEntities(table, limit, cursor).next;
            && |next.value| == width
            && |Matching(table, cursor)| > limit && Matching(table, next) == Matching(table, cursor)[limit..]
  {
    var matching := Matching(table, cursor);
    var last := matching[limit - 1];
    MatchingRows(table, cursor, width);
    MatchingRows(table, Some(last.key), width);
    assert last in matching;
    forall row ensures row in Matching(table, Some(last.key)) <==> row in matching[limit..] {
      if row in Matching(table, Some(last.key)) {
        if cursor.Some? { LexTransitive(cursor.value, last.key, row.key); }
        assert row in matching;
      }
      if row in matching { BeyondMeansLater(matching, limit - 1, row, width); }
    }
    ClimbingUnique(Matching(table, Some(last.key)), matching[limit..], width);
  }

  lemma BeyondMeansLater(rows: seq<Row>, k: nat, row: Row, width: nat)
    requires Climbing(rows, width) && k < |rows| && row in rows
    ensures Beyond(row, Some(rows[k].key)) <==> row in rows[k + 1..]
  {
    var i :| 0 <= i < |rows| && rows[i] == row;
    LexTrichotomy(row.key, rows[k].key);
    if i > k { assert rows[k + 1..][i - k - 1] == row; }
    if row in rows[k + 1..] {
      var j :| 0 <= j < |rows[k + 1..]| && rows[k + 1..][j] == row;
      assert rows[k + 1 + j] == row;
    }
  }

  lemma {:induction false} ClimbingUnique(a: seq<Row>, b: seq<Row>, width: nat)
    requires Climbing(a, width) && Climbing(b, width) && forall row :: row in a <==> row in b
    ensures a == b
    decreases |a|
  {
    assert a != [] ==> a[0] in b;
    assert b != [] ==> b[0] in a;
    if a == [] || b == [] {
    } else {
      FirstIsLeast(a, b, width);
      FirstIsLeast(b, a, width);
      assert a[0].key == b[0].key by { LexTrichotomy(a[0].key, b[0].key); }
      SameFirst(a, b, width);
      forall row ensures row in a[1..] <==> row in b[1..] {
        TailMembers(a, width, row);
        TailMembers(b, width, row);
      }
      ClimbingUnique(a[1..], b[1..], width);
      assert a == [a[0]] + a[1..] && b == [b[0]] + b[1..];
    }
  }

  lemma FirstIsLeast(a: seq<Row>, b: seq<Row>, width: nat)
    requires Climbing(a, width) && Climbing(b, width) && a != [] && b != [] && forall row :: row in a <==> row in b
    ensures a[0].key == b[0].key || Lex(a[0].key, b[0].key)
  {
    assert b[0] in a;
    var i :| 0 <= i < |a| && a[i] == b[0];
  }

  lemma SameFirst(a: seq<Row>, b: seq<Row>, width: nat)
    requires Climbing(a, width) && a != [] && b != [] && b[0] in a && a[0].key == b[0].key
    ensures a[0] == b[0]
  {
    var i :| 0 <= i < |a| && a[i] == b[0];
    if i > 0 { LexTrichotomy(a[0].key, a[i].key); }
  }

  lemma TailMembers(a: seq<Row>, width: nat, row: Row)
    requires Climbing(a, width) && a != []
    ensures row in a[1..] <==> row in a && row != a[0]
  {
    if row in a[1..] {
      var i :| 0 <= i < |a[1..]| && a[1..][i] == row;
      assert a[i + 1] == row;
      LexTrichotomy(a[0].key, a[i + 1].key);
    }
    if row in a && row != a[0] {
      var i :| 0 <= i < |a| && a[i] == row;
      assert a[1..][i - 1] == row;
    }
  }
}
