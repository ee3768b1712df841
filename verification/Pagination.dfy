/**
 Keyset pagination: the batch and ledger lists, newest first with ties broken
 by id, and the export readers, by id.
 */
module Pagination {
  import opened Prelude
  import opened Ledger

  /** The columns besides the ones the queries order and filter by. */
  datatype Columns = Other(nat) | Credit(delta: int, reason: Reason)

  datatype Row = Row(id: nat, org: nat, createdAt: nat, columns: Columns)

  datatype Order = NewestFirst | OldestFirst | LowestId

  /** Sort keys compare lexicographically; a cursor is the key of the last row shown. */
  datatype Key = Key(major: int, minor: int)

  function KeyOf(order: Order, r: Row): Key {
    match order
    case NewestFirst => Key(-(r.createdAt as int), -(r.id as int))
    case OldestFirst => Key(r.createdAt, r.id)
    case LowestId => Key(0, r.id)
  }

  predicate Less(a: Key, b: Key) {
    a.major < b.major || (a.major == b.major && a.minor < b.minor)
  }

  // --------------------------------------------------------------- the queries

  /** WHERE org_id = ... AND (created_at, id) beyond the cursor */
  predicate Matches(order: Order, r: Row, org: nat, cursor: Option<Key>) {
    r.org == org && (cursor.Some? ==> Less(cursor.value, KeyOf(order, r)))
  }

  function Where(order: Order, rows: seq<Row>, org: nat, cursor: Option<Key>): seq<Row> {
    if rows == [] then []
    else (if Matches(order, rows[0], org, cursor) then [rows[0]] else []) + Where(order, rows[1..], org, cursor)
  }

  function InsertSorted(order: Order, r: Row, rows: seq<Row>): seq<Row> {
    if rows == [] || Less(KeyOf(order, r), KeyOf(order, rows[0])) then [r] + rows
    else [rows[0]] + InsertSorted(order, r, rows[1..])
  }

  function OrderBy(order: Order, rows: seq<Row>): seq<Row> {
    if rows == [] then [] else InsertSorted(order, rows[0], OrderBy(order, rows[1..]))
  }

  function Limit(rows: seq<Row>, n: nat): seq<Row> {
    if |rows| <= n then rows else rows[..n]
  }

  datatype Page = Page(entries: seq<Row>, next: Option<Key>)

  /** listBatchesForOrg and the usage ledger: one row more than asked for tells whether there is a next page. */
  function ListPage(table: seq<Row>, org: nat, cursor: Option<Key>, limit: nat): Page {
    var rows := Limit(OrderBy(NewestFirst, Where(NewestFirst, table, org, cursor)), limit + 1);
    var entries := Limit(rows, limit);
    Page(entries, if |rows| > limit && entries != [] then Some(KeyOf(NewestFirst, entries[|entries| - 1])) else None)
  }

  /** The export's page: a short page is the last one. */
  function ExportPage(table: seq<Row>, org: nat, cursor: Option<Key>, size: nat): Page {
    var rows := Limit(OrderBy(LowestId, Where(LowestId, table, org, cursor)), size);
    Page(rows, if |rows| < size || rows == [] then None else Some(KeyOf(LowestId, rows[|rows| - 1])))
  }

  // ------------------------------------------------------- sorting and filtering

  ghost predicate Sorted(order: Order, rows: seq<Row>) {
    forall i, j :: 0 <= i < j < |rows| ==> Less(KeyOf(order, rows[i]), KeyOf(order, rows[j]))
  }

  /** Newest first or oldest first with ties by id, or by id alone. */
  ghost predicate ComesBefore(order: Order, a: Row, b: Row) {
    match order
    case NewestFirst => a.createdAt > b.createdAt || (a.createdAt == b.createdAt && a.id > b.id)
    case OldestFirst => a.createdAt < b.createdAt || (a.createdAt == b.createdAt && a.id < b.id)
    case LowestId => a.id < b.id
  }

  lemma SortedMeans(order: Order, rows: seq<Row>)
    requires Sorted(order, rows)
    ensures forall i, j :: 0 <= i < j < |rows| ==> ComesBefore(order, rows[i], rows[j])
  {
  }

  ghost predicate DistinctIds(rows: seq<Row>) {
    forall i, j :: 0 <= i < j < |rows| ==> rows[i].id != rows[j].id
  }

  /** Rows with different ids are never tied. */
  lemma KeysAreOrdered(order: Order, r: Row, x: Row)
    requires r.id != x.id
    ensures Less(KeyOf(order, r), KeyOf(order, x)) != Less(KeyOf(order, x), KeyOf(order, r))
  {}

  lemma {:induction false} InsertAdds(order: Order, r: Row, rows: seq<Row>)
    ensures multiset(InsertSorted(order, r, rows)) == multiset(rows) + multiset{r}
  {
    if rows != [] {
      assert rows == [rows[0]] + rows[1..];
      InsertAdds(order, r, rows[1..]);
    }
  }

  lemma {:induction false} InsertKeeps(order: Order, r: Row, rows: seq<Row>)
    requires Sorted(order, rows) && forall x :: x in rows ==> x.id != r.id
    ensures Sorted(order, InsertSorted(order, r, rows))
  {
    hide KeyOf;
    if rows != [] {
      var first := rows[0];
      KeysAreOrdered(order, r, first);
      if !Less(KeyOf(order, r), KeyOf(order, first)) {
        InsertKeeps(order, r, rows[1..]);
        InsertAdds(order, r, rows[1..]);
        var rest := InsertSorted(order, r, rows[1..]);
        forall j | 0 <= j < |rest|
          ensures Less(KeyOf(order, first), KeyOf(order, rest[j]))
        {
          assert rest[j] in multiset(rest);
          assert rest[j] == r || rest[j] in rows[1..];
        }
      }
    }
  }

  lemma {:induction false} OrderByIsSorted(order: Order, rows: seq<Row>)
    requires DistinctIds(rows)
    ensures Sorted(order, OrderBy(order, rows)) && multiset(OrderBy(order, rows)) == multiset(rows)
  {
    if rows != [] {
      OrderByIsSorted(order, rows[1..]);
      var sorted := OrderBy(order, rows[1..]);
      forall x | x in sorted
        ensures x.id != rows[0].id
      {
        assert x in multiset(sorted);
        assert x in rows[1..];
      }
      InsertKeeps(order, rows[0], sorted);
      InsertAdds(order, rows[0], sorted);
      assert rows == [rows[0]] + rows[1..];
    }
  }

  lemma {:induction false} WhereMembers(order: Order, rows: seq<Row>, org: nat, cursor: Option<Key>)
    ensures forall x :: x in Where(order, rows, org, cursor) <==> x in rows && Matches(order, x, org, cursor)
  {
    if rows != [] {
      WhereMembers(order, rows[1..], org, cursor);
      assert rows == [rows[0]] + rows[1..];
    }
  }

  /** Inserting below everything goes first. */
  lemma InsertFirst(order: Order, r: Row, rows: seq<Row>)
    requires forall x :: x in rows ==> Less(KeyOf(order, r), KeyOf(order, x))
    ensures InsertSorted(order, r, rows) == [r] + rows
  {
    if rows != [] { assert rows[0] in rows; }
  }

  lemma {:induction false} WhereInsert(order: Order, r: Row, rows: seq<Row>, org: nat, cursor: Option<Key>)
    requires Sorted(order, rows)
    ensures Where(order, InsertSorted(order, r, rows), org, cursor) ==
      if Matches(order, r, org, cursor) then InsertSorted(order, r, Where(order, rows, org, cursor)) else Where(order, rows, org, cursor)
  {
    hide KeyOf;
    var inserted := InsertSorted(order, r, rows);
    if rows == [] || Less(KeyOf(order, r), KeyOf(order, rows[0])) {
      assert inserted[1..] == rows;
      WhereMembers(order, rows, org, cursor);
      forall x | x in Where(order, rows, org, cursor)
        ensures Less(KeyOf(order, r), KeyOf(order, x))
      {
        var i :| 0 <= i < |rows| && rows[i] == x;
      }
      InsertFirst(order, r, Where(order, rows, org, cursor));
    } else {
      assert inserted[1..] == InsertSorted(order, r, rows[1..]);
      WhereInsert(order, r, rows[1..], org, cursor);
      var rest := Where(order, rows[1..], org, cursor);
      if Matches(order, rows[0], org, cursor) {
        var kept := [rows[0]] + rest;
        assert kept == Where(order, rows, org, cursor) && kept[0] == rows[0] && kept[1..] == rest;
        assert InsertSorted(order, r, kept) == [rows[0]] + InsertSorted(order, r, rest);
      } else {
        assert [] + rest == rest;
      }
    }
  }

  /** Filtering and sorting commute. */
  lemma {:induction false} WhereOrderBy(order: Order, rows: seq<Row>, org: nat, cursor: Option<Key>)
    requires DistinctIds(rows)
    ensures OrderBy(order, Where(order, rows, org, cursor)) == Where(order, OrderBy(order, rows), org, cursor)
  {
    if rows != [] {
      var kept := Where(order, rows, org, cursor);
      WhereOrderBy(order, rows[1..], org, cursor);
      OrderByIsSorted(order, rows[1..]);
      WhereInsert(order, rows[0], OrderBy(order, rows[1..]), org, cursor);
      if Matches(order, rows[0], org, cursor) {
        assert kept[0] == rows[0] && kept[1..] == Where(order, rows[1..], org, cursor);
      } else {
        assert kept == Where(order, rows[1..], org, cursor);
      }
    }
  }

  /** A cursor only narrows the organisation's rows. */
  lemma {:induction false} WhereTwice(order: Order, rows: seq<Row>, org: nat, cursor: Option<Key>)
    ensures Where(order, rows, org, cursor) == Where(order, Where(order, rows, org, None), org, cursor)
  {
    if rows != [] {
      WhereTwice(order, rows[1..], org, cursor);
      var own := Where(order, rows, org, None);
      var rest := Where(order, rows[1..], org, None);
      if rows[0].org == org {
        assert own[0] == rows[0] && own[1..] == rest;
      } else {
        assert own == rest;
      }
    }
  }

  /** In sorted rows of one organisation, the ones beyond a row are those after it. */
  lemma {:induction false} BeyondIsAfter(order: Order, rows: seq<Row>, org: nat, k: nat)
    requires Sorted(order, rows) && 1 <= k <= |rows| && forall i :: 0 <= i < |rows| ==> rows[i].org == org
    ensures Where(order, rows, org, Some(KeyOf(order, rows[k - 1]))) == rows[k..]
  {
    var c := Some(KeyOf(order, rows[k - 1]));
    NoneUpTo(order, rows[..k], org, c);
    AllBeyond(order, rows[k..], org, c);
    WhereConcat(order, rows[..k], rows[k..], org, c);
    assert rows == rows[..k] + rows[k..];
  }

  lemma {:induction false} WhereConcat(order: Order, xs: seq<Row>, ys: seq<Row>, org: nat, cursor: Option<Key>)
    ensures Where(order, xs + ys, org, cursor) == Where(order, xs, org, cursor) + Where(order, ys, org, cursor)
  {
    hide Matches;
    if xs == [] {
      assert xs + ys == ys;
    } else {
      assert (xs + ys)[1..] == xs[1..] + ys && (xs + ys)[0] == xs[0];
      var kept := if Matches(order, xs[0], org, cursor) then [xs[0]] else [];
      var a, b := Where(order, xs[1..], org, cursor), Where(order, ys, org, cursor);
      WhereConcat(order, xs[1..], ys, org, cursor);
      assert Where(order, xs, org, cursor) == kept + a;
      assert Where(order, xs + ys, org, cursor) == kept + (a + b);
      assert kept + (a + b) == kept + a + b;
    }
  }

  lemma {:induction false} NoneUpTo(order: Order, rows: seq<Row>, org: nat, cursor: Option<Key>)
    requires forall i :: 0 <= i < |rows| ==> !Matches(order, rows[i], org, cursor)
    ensures Where(order, rows, org, cursor) == []
  {
    if rows != [] { NoneUpTo(order, rows[1..], org, cursor); }
  }

  lemma {:induction false} AllBeyond(order: Order, rows: seq<Row>, org: nat, cursor: Option<Key>)
    requires forall i :: 0 <= i < |rows| ==> Matches(order, rows[i], org, cursor)
    ensures Where(order, rows, org, cursor) == rows
  {
    if rows != [] { AllBeyond(order, rows[1..], org, cursor); }
  }

  // -------------------------------------------------------------- walking pages

  /** All rows of the organisation, in order. */
  function Listing(order: Order, table: seq<Row>, org: nat): seq<Row> {
    OrderBy(order, Where(order, table, org, None))
  }

  /** The cursor that stands before position `k` of the listing. */
  ghost predicate Before(order: Order, listing: seq<Row>, cursor: Option<Key>, k: nat) {
    if k == 0 then cursor == None else k <= |listing| && cursor == Some(KeyOf(order, listing[k - 1]))
  }

  lemma ListingSorted(order: Order, table: seq<Row>, org: nat)
    requires DistinctIds(table)
    ensures var all := Listing(order, table, org);
      Sorted(order, all) && (forall x :: x in all <==> x in table && x.org == org)
  {
    WhereMembers(order, table, org, None);
    WhereDistinct(order, table, org, None);
    var own := Where(order, table, org, None);
    OrderByIsSorted(order, own);
    forall x
      ensures x in OrderBy(order, own) <==> x in own
    {
      assert x in OrderBy(order, own) <==> x in multiset(OrderBy(order, own));
      assert x in own <==> x in multiset(own);
    }
  }

  lemma {:induction false} WhereDistinct(order: Order, rows: seq<Row>, org: nat, cursor: Option<Key>)
    requires DistinctIds(rows)
    ensures DistinctIds(Where(order, rows, org, cursor))
  {
    if rows != [] {
      WhereDistinct(order, rows[1..], org, cursor);
      WhereMembers(order, rows[1..], org, cursor);
      var rest := Where(order, rows[1..], org, cursor);
      forall x | x in rest
        ensures x.id != rows[0].id
      {
        assert x in rows[1..];
      }
    }
  }

  /** What a query from a cursor returns is the rest of the listing. */
  lemma RestOfListing(order: Order, table: seq<Row>, org: nat, cursor: Option<Key>, k: nat)
    requires DistinctIds(table) && Before(order, Listing(order, table, org), cursor, k)
    ensures OrderBy(order, Where(order, table, org, cursor)) == Listing(order, table, org)[k..]
  {
    var all := Listing(order, table, org);
    ListingSorted(order, table, org);
    if k > 0 {
      WhereOrderBy(order, table, org, cursor);
      WhereOrderBy(order, table, org, None);
      WhereTwice(order, OrderBy(order, table), org, cursor);
      forall i | 0 <= i < |all|
        ensures all[i].org == org
      {
        assert all[i] in all;
      }
      BeyondIsAfter(order, all, org, k);
    }
  }

  /** A page from position `k` on: up to `limit` rows, and a cursor exactly if more follow. */
  lemma ListPageExactly(table: seq<Row>, org: nat, cursor: Option<Key>, limit: nat, k: nat)
    requires DistinctIds(table) && Before(NewestFirst, Listing(NewestFirst, table, org), cursor, k) && limit >= 1
    ensures var all, page := Listing(NewestFirst, table, org), ListPage(table, org, cursor, limit);
      if k + limit < |all| then page.entries == all[k..k + limit] && Before(NewestFirst, all, page.next, k + limit)
      else page.entries == all[k..] && page.next == None
  {
    hide OrderBy, Where, DistinctIds, Less, KeyOf, Listing;
    RestOfListing(NewestFirst, table, org, cursor, k);
    ListingIs(NewestFirst, table, org);
  }

  /** The export's page: up to `size` rows, and a key exactly if the page is full. */
  lemma ExportPageExactly(table: seq<Row>, org: nat, cursor: Option<Key>, size: nat, k: nat)
    requires DistinctIds(table) && Before(LowestId, Listing(LowestId, table, org), cursor, k) && size >= 1
    ensures var all, page := Listing(LowestId, table, org), ExportPage(table, org, cursor, size);
      if k + size <= |all| then page.entries == all[k..k + size] && Before(LowestId, all, page.next, k + size)
      else page.entries == all[k..] && page.next == None
  {
    hide OrderBy, Where, DistinctIds, Less, KeyOf, Listing;
    RestOfListing(LowestId, table, org, cursor, k);
    ListingIs(LowestId, table, org);
  }

  lemma ListingIs(order: Order, table: seq<Row>, org: nat)
    ensures Listing(order, table, org) == OrderBy(order, Where(order, table, org, None))
  {
  }

  /** Following cursors from the first page visits the whole listing once, in order, and stops. */
  method WalkList(table: seq<Row>, org: nat, limit: nat) returns (visited: seq<Row>)
    requires DistinctIds(table) && limit >= 1
    ensures visited == Listing(NewestFirst, table, org)
    ensures forall i, j :: 0 <= i < j < |visited| ==> ComesBefore(NewestFirst, visited[i], visited[j])
    ensures forall x :: x in visited <==> x in table && x.org == org
  {
    hide OrderBy, Where, Sorted, DistinctIds, Less, KeyOf, ListPage, ExportPage, Listing, ComesBefore;
    ghost var all := Listing(NewestFirst, table, org);
    ListingSorted(NewestFirst, table, org);
    SortedMeans(NewestFirst, all);
    visited := [];
    var cursor: Option<Key> := None;
    while true
      invariant |visited| <= |all| && visited == all[..|visited|]
      invariant Before(NewestFirst, all, cursor, |visited|)
      decreases |all| - |visited|
    {
      ListPageExactly(table, org, cursor, limit, |visited|);
      var page := ListPage(table, org, cursor, limit);
      visited := visited + page.entries;
      if page.next.None? { return; }
      cursor := page.next;
    }
  }

  /** The export reader does the same, with an empty last page when the size divides the count. */
  method WalkExport(table: seq<Row>, org: nat, size: nat) returns (visited: seq<Row>)
    requires DistinctIds(table) && size >= 1
    ensures visited == Listing(LowestId, table, org)
    ensures forall i, j :: 0 <= i < j < |visited| ==> ComesBefore(LowestId, visited[i], visited[j])
    ensures forall x :: x in visited <==> x in table && x.org == org
  {
    hide OrderBy, Where, Sorted, DistinctIds, Less, KeyOf, ListPage, ExportPage, Listing, ComesBefore;
    ghost var all := Listing(LowestId, table, org);
    ListingSorted(LowestId, table, org);
    SortedMeans(LowestId, all);
    visited := [];
    var cursor: Option<Key> := None;
    while true
      invariant |visited| <= |all| && visited == all[..|visited|]
      invariant Before(LowestId, all, cursor, |visited|)
      decreases |all| - |visited|
    {
      ExportPageExactly(table, org, cursor, size, |visited|);
      var page := ExportPage(table, org, cursor, size);
      visited := visited + page.entries;
      if page.next.None? { return; }
      cursor := page.next;
    }
  }
}
