/** Keyset pages: a page of the newest items below a cursor, and the walk that follows
    the cursors to the end. */
module Pagination {
  import opened Common
  import opened Strings

  /** What a list is ordered by: creation time or log date, then the id. */
  datatype Place = Place(time: int, id: string)

  datatype Item<+D> = Item(place: Place, data: D)

  datatype Page<+D> = Page(items: seq<Item<D>>, next: Option<Place>)

  predicate Before(a: Place, b: Place) {
    a.time < b.time || (a.time == b.time && StringLess(a.id, b.id))
  }

  lemma BeforeOrder(a: Place, b: Place, c: Place)
    ensures Before(a, b) || Before(b, a) || a == b
    ensures Before(a, b) && Before(b, c) ==> Before(a, c)
    ensures !(Before(a, b) && Before(b, a)) && !Before(a, a)
  {
    StringOrder(a.id, b.id, c.id);
    StringOrder(a.id, b.id, a.id);
  }

  /** Newest first, no place twice. */
  ghost predicate Descending<D>(items: seq<Item<D>>) {
    forall i, j :: 0 <= i < j < |items| ==> Before(items[j].place, items[i].place)
  }

  /** The primary key: one item for a place. */
  ghost predicate Keyed<D>(rows: set<Item<D>>) {
    forall a, b :: a in rows && b in rows && a.place == b.place ==> a == b
  }

  ghost predicate Newest<D>(m: Item<D>, rows: set<Item<D>>) {
    m in rows && forall x <- rows :: x == m || Before(x.place, m.place)
  }

  lemma {:induction false} NewestExists<D(!new)>(rows: set<Item<D>>) returns (m: Item<D>)
    requires Keyed(rows) && rows != {}
    ensures Newest(m, rows)
    decreases |rows|
  {
    m :| m in rows;
    var rest := rows - {m};
    assert rows == rest + {m};
    if rest != {} {
      var other := NewestExists(rest);
      BeforeOrder(m.place, other.place, m.place);
      if Before(m.place, other.place) {
        m := other;
      } else {
        forall x <- rest ensures Before(x.place, m.place) {
          BeforeOrder(x.place, other.place, m.place);
        }
      }
    }
  }

  /** The rows in the order of the query. */
  ghost function Listed<D(!new)>(rows: set<Item<D>>): (r: seq<Item<D>>)
    requires Keyed(rows)
    ensures |r| == |rows|
    decreases |rows|
  {
    if rows == {} then []
    else
      assert exists m :: Newest(m, rows) by { var m := NewestExists(rows); }
      var m :| Newest(m, rows);
      [m] + Listed(rows - {m})
  }

  lemma ConsListing<D(!new)>(m: Item<D>, rest: seq<Item<D>>, rows: set<Item<D>>)
    requires Newest(m, rows) && Descending(rest) && forall x :: x in rest <==> x in rows - {m}
    ensures Descending([m] + rest) && forall x :: x in [m] + rest <==> x in rows
  {
    var all := [m] + rest;
    forall j | 1 <= j < |all| ensures Before(all[j].place, m.place) {
      assert all[j] == rest[j - 1] && rest[j - 1] in rest;
    }
  }

  lemma ListedHead<D(!new)>(rows: set<Item<D>>)
    requires Keyed(rows) && rows != {}
    ensures var all := Listed(rows); Newest(all[0], rows) && all == [all[0]] + Listed(rows - {all[0]})
  {
    assert exists m :: Newest(m, rows) by { var m := NewestExists(rows); }
  }

  lemma {:induction false} ListedMembers<D(!new)>(rows: set<Item<D>>)
    requires Keyed(rows)
    ensures Descending(Listed(rows)) && forall x :: x in Listed(rows) <==> x in rows
    decreases |rows|
  {
    if rows != {} {
      ListedHead(rows);
      var first := Listed(rows)[0];
      ListedMembers(rows - {first});
      ConsListing(first, Listed(rows - {first}), rows);
    }
  }

  lemma SameFirst<D(!new)>(a: seq<Item<D>>, b: seq<Item<D>>)
    requires Descending(a) && Descending(b) && a != [] && b != []
    requires forall x :: x in a <==> x in b
    ensures a[0] == b[0]
  {
    assert a[0] in b && b[0] in a;
    var i :| 0 <= i < |b| && b[i] == a[0];
    var j :| 0 <= j < |a| && a[j] == b[0];
    BeforeOrder(a[0].place, b[0].place, a[0].place);
  }

  lemma TailMembers<D(!new)>(items: seq<Item<D>>)
    requires Descending(items) && items != []
    ensures Descending(items[1..])
    ensures forall x :: x in items[1..] <==> x in items && x != items[0]
  {
    BeforeOrder(items[0].place, items[0].place, items[0].place);
    assert items == [items[0]] + items[1..];
  }

  lemma {:induction false} SameListing<D(!new)>(a: seq<Item<D>>, b: seq<Item<D>>)
    requires Descending(a) && Descending(b)
    requires forall x :: x in a <==> x in b
    ensures a == b
  {
    assert a != [] ==> a[0] in b;
    assert b != [] ==> b[0] in a;
    if a != [] {
      SameFirst(a, b);
      TailMembers(a);
      TailMembers(b);
      SameListing(a[1..], b[1..]);
      assert a == [a[0]] + a[1..] && b == [b[0]] + b[1..];
    }
  }

  /** There is only one way to list rows. */
  lemma ListedOnce<D(!new)>(items: seq<Item<D>>, rows: set<Item<D>>)
    requires Keyed(rows) && Descending(items) && forall x :: x in items <==> x in rows
    ensures items == Listed(rows)
  {
    ListedMembers(rows);
    SameListing(items, Listed(rows));
  }

  // ----- one page

  ghost function Below<D>(rows: set<Item<D>>, cursor: Option<Place>): set<Item<D>> {
    set x | x in rows && (cursor.None? || Before(x.place, cursor.value))
  }

  ghost function Matching<D>(table: set<Item<D>>, f: Item<D> -> bool): (r: set<Item<D>>)
    ensures Keyed(table) ==> Keyed(r)
  {
    set x | x in table && f(x)
  }

  function Take<T>(s: seq<T>, n: nat): seq<T> {
    if |s| <= n then s else s[..n]
  }

  /** One item more than the limit is fetched, to see whether there is a next page. */
  function CutPage<D>(found: seq<Item<D>>, limit: nat): Page<D>
    requires limit >= 1
  {
    if |found| > limit then Page(found[..limit], Some(found[limit - 1].place)) else Page(found, None)
  }

  ghost function PageOf<D(!new)>(rows: set<Item<D>>, cursor: Option<Place>, limit: nat): Page<D>
    requires Keyed(rows) && limit >= 1
  {
    CutPage(Take(Listed(Below(rows, cursor)), limit + 1), limit)
  }

  lemma RestBelow<D(!new)>(all: seq<Item<D>>, rows: set<Item<D>>, cursor: Option<Place>, limit: nat)
    requires 1 <= limit < |all|
    requires Descending(all) && forall x :: x in all <==> x in Below(rows, cursor)
    ensures Descending(all[limit..])
    ensures forall x :: x in all[limit..] <==> x in Below(rows, Some(all[limit - 1].place))
  {
    var last, rest := all[limit - 1], all[limit..];
    assert last in all;
    forall x ensures x in rest <==> x in Below(rows, Some(last.place)) {
      if x in rest {
        assert x in all;
      }
      if x in Below(rows, Some(last.place)) {
        if cursor.Some? {
          BeforeOrder(x.place, last.place, cursor.value);
        }
        assert x in all;
        var i :| 0 <= i < |all| && all[i] == x;
        BeforeOrder(x.place, last.place, x.place);
        assert i >= limit;
      }
    }
  }

  lemma RestListed<D(!new)>(rows: set<Item<D>>, cursor: Option<Place>, limit: nat)
    requires Keyed(rows) && 1 <= limit < |Listed(Below(rows, cursor))|
    ensures var all := Listed(Below(rows, cursor)); Listed(Below(rows, Some(all[limit - 1].place))) == all[limit..]
  {
    var all := Listed(Below(rows, cursor));
    ListedMembers(Below(rows, cursor));
    RestBelow(all, rows, cursor, limit);
    ListedOnce(all[limit..], Below(rows, Some(all[limit - 1].place)));
  }

  lemma Fetched<D>(all: seq<Item<D>>, limit: nat)
    requires limit >= 1
    ensures CutPage(Take(all, limit + 1), limit)
         == Page(Take(all, limit), if |all| > limit then Some(all[limit - 1].place) else None)
  {
  }

  /** A page is the front of what is below the cursor, and the next cursor leads to
      exactly the rest. */
  lemma PageSplits<D(!new)>(rows: set<Item<D>>, cursor: Option<Place>, limit: nat)
    requires Keyed(rows) && limit >= 1
    ensures var all, page := Listed(Below(rows, cursor)), PageOf(rows, cursor, limit);
      && page.items == Take(all, limit)
      && (page.next.Some? <==> |all| > limit)
      && (page.next.Some? ==> page.next == Some(all[limit - 1].place) && Listed(Below(rows, page.next)) == all[limit..])
  {
    Fetched(Listed(Below(rows, cursor)), limit);
    if |Listed(Below(rows, cursor))| > limit {
      RestListed(rows, cursor, limit);
    }
  }

  // ----- following the cursors

  ghost predicate AllKeyed<D>(tables: seq<set<Item<D>>>) {
    forall i :: 0 <= i < |tables| ==> Keyed(tables[i])
  }

  /** The items of successive pages, each read from the table as it then is. */
  ghost function Walk<D(!new)>(tables: seq<set<Item<D>>>, f: Item<D> -> bool, cursor: Option<Place>, limit: nat): seq<Item<D>>
    requires limit >= 1 && AllKeyed(tables)
  {
    if tables == [] then []
    else
      var page := PageOf(Matching(tables[0], f), cursor, limit);
      page.items + if page.next.None? then [] else Walk(tables[1..], f, page.next, limit)
  }

  /** The walk has reached a page without a next cursor. */
  ghost predicate Finishes<D(!new)>(tables: seq<set<Item<D>>>, f: Item<D> -> bool, cursor: Option<Place>, limit: nat)
    requires limit >= 1 && AllKeyed(tables)
  {
    && tables != []
    && var page := PageOf(Matching(tables[0], f), cursor, limit);
    page.next.None? || Finishes(tables[1..], f, page.next, limit)
  }

  /** When nothing changes between the pages, they are a partition of the filtered list
      in its order, and enough of them reach the end. */
  lemma {:induction false} StaticWalk<D(!new)>(table: set<Item<D>>, f: Item<D> -> bool, cursor: Option<Place>, limit: nat, n: nat)
    requires limit >= 1 && Keyed(table) && n >= 1 && n * limit >= |Below(Matching(table, f), cursor)|
    ensures Walk(Repeat(table, n), f, cursor, limit) == Listed(Below(Matching(table, f), cursor))
    ensures Finishes(Repeat(table, n), f, cursor, limit)
    decreases n
  {
    var rows := Matching(table, f);
    var all, page := Listed(Below(rows, cursor)), PageOf(rows, cursor, limit);
    PageSplits(rows, cursor, limit);
    if page.next.Some? {
      assert |Below(rows, page.next)| == |all[limit..]| == |all| - limit;
      Fewer(n, limit, |all|);
      StaticWalk(table, f, page.next, limit, n - 1);
      assert all == all[..limit] + all[limit..];
    }
  }

  lemma Fewer(n: nat, limit: nat, size: nat)
    requires n * limit >= size > limit >= 1
    ensures n >= 2 && (n - 1) * limit >= size - limit
  {
    assert n <= 1 ==> n * limit <= limit;
  }

  ghost predicate AllBelow<D>(items: seq<Item<D>>, cursor: Option<Place>) {
    forall x <- items :: cursor.None? || Before(x.place, cursor.value)
  }

  lemma FrontFacts<D>(all: seq<Item<D>>, rows: set<Item<D>>, cursor: Option<Place>, limit: nat)
    requires Descending(all) && forall x <- all :: x in Below(rows, cursor)
    ensures Descending(Take(all, limit)) && AllBelow(Take(all, limit), cursor)
    ensures forall x <- Take(all, limit) :: x in rows
  {
    forall x <- Take(all, limit) ensures x in Below(rows, cursor) {
      assert x in all;
    }
  }

  lemma PageFacts<D(!new)>(rows: set<Item<D>>, cursor: Option<Place>, limit: nat)
    requires Keyed(rows) && limit >= 1
    ensures var page := PageOf(rows, cursor, limit);
      && Descending(page.items) && AllBelow(page.items, cursor)
      && (forall x <- page.items :: x in rows)
      && (page.next.Some? ==> page.items != [] && page.next.value == page.items[|page.items| - 1].place && |page.items| == limit)
  {
    PageSplits(rows, cursor, limit);
    ListedMembers(Below(rows, cursor));
    FrontFacts(Listed(Below(rows, cursor)), rows, cursor, limit);
  }

  /** One place is earlier than another: by its time, and at the same time by its id. */
  predicate Earlier(a: Place, b: Place) {
    a.time < b.time || (a.time == b.time && StringLess(a.id, b.id))
  }

  /** The row is earlier than the cursor and not earlier than the next one. */
  predicate Within<D>(x: Item<D>, cursor: Option<Place>, next: Option<Place>) {
    && (cursor.Some? ==> Earlier(x.place, cursor.value))
    && (next.Some? ==> !Earlier(x.place, next.value))
  }

  /** What a page holds, row by row: exactly the rows between the cursors, latest first. */
  lemma PageIs<D(!new)>(rows: set<Item<D>>, cursor: Option<Place>, limit: nat)
    requires Keyed(rows) && limit >= 1
    ensures var page := PageOf(rows, cursor, limit);
      && (forall x :: x in page.items <==> x in rows && Within(x, cursor, page.next))
      && (forall i, j :: 0 <= i < j < |page.items| ==> Earlier(page.items[j].place, page.items[i].place))
      && |page.items| <= limit
      && (page.next.Some? ==> |page.items| == limit && page.next.value == page.items[limit - 1].place)
  {
    var page := PageOf(rows, cursor, limit);
    PageFacts(rows, cursor, limit);
    forall x ensures x in page.items <==> x in rows && Within(x, cursor, page.next) {
      PageHolds(rows, cursor, limit, x);
    }
    PageSplits(rows, cursor, limit);
  }

  lemma PageHolds<D(!new)>(rows: set<Item<D>>, cursor: Option<Place>, limit: nat, x: Item<D>)
    requires Keyed(rows) && limit >= 1
    ensures x in PageOf(rows, cursor, limit).items <==> x in rows && Within(x, cursor, PageOf(rows, cursor, limit).next)
  {
    var all := Listed(Below(rows, cursor));
    PageSplits(rows, cursor, limit);
    ListedMembers(Below(rows, cursor));
    InFront(all, limit, x);
    assert x in all <==> x in rows && Within(x, cursor, None);
  }

  lemma InFront<D(!new)>(all: seq<Item<D>>, limit: nat, x: Item<D>)
    requires Descending(all) && limit >= 1
    ensures var next := if |all| > limit then Some(all[limit - 1].place) else None;
      x in Take(all, limit) <==> x in all && Within(x, None, next)
  {
    if |all| > limit {
      PageEnds(all, limit, x);
    }
  }

  lemma FrontHolds<T>(all: seq<T>, limit: nat, i: nat)
    requires i < |all| && limit <= |all|
    ensures i < limit ==> all[i] in all[..limit]
  {
    if i < limit {
      assert all[..limit][i] == all[i];
    }
  }

  lemma PageEnds<D(!new)>(all: seq<Item<D>>, limit: nat, x: Item<D>)
    requires Descending(all) && 1 <= limit <= |all|
    ensures x in all[..limit] <==> x in all && !Before(x.place, all[limit - 1].place)
  {
    if x in all[..limit] {
      var j :| 0 <= j < limit && all[..limit][j] == x;
      BeforeOrder(x.place, all[limit - 1].place, x.place);
      assert x in all;
    } else if x in all {
      var i :| 0 <= i < |all| && all[i] == x;
      FrontHolds(all, limit, i);
    }
  }

  lemma JoinDescending<D>(a: seq<Item<D>>, b: seq<Item<D>>)
    requires Descending(a) && Descending(b) && a != [] && AllBelow(b, Some(a[|a| - 1].place))
    ensures Descending(a + b)
  {
    var last := a[|a| - 1].place;
    forall i, j | 0 <= i < |a| <= j < |a| + |b| ensures Before((a + b)[j].place, (a + b)[i].place) {
      assert b[j - |a|] in b;
      BeforeOrder(b[j - |a|].place, last, a[i].place);
    }
  }

  lemma AllBelowTransitive<D>(rest: seq<Item<D>>, items: seq<Item<D>>, cursor: Option<Place>)
    requires items != [] && AllBelow(items, cursor) && AllBelow(rest, Some(items[|items| - 1].place))
    ensures AllBelow(items + rest, cursor)
  {
    var last := items[|items| - 1];
    assert last in items;
    forall x <- rest ensures cursor.None? || Before(x.place, cursor.value) {
      BeforeOrder(x.place, last.place, if cursor.Some? then cursor.value else last.place);
    }
  }

  /** Whatever is inserted, edited or deleted between the pages, the walk moves strictly
      down the order, so that no place is returned twice. */
  lemma {:induction false} WalkDescends<D(!new)>(tables: seq<set<Item<D>>>, f: Item<D> -> bool, cursor: Option<Place>, limit: nat)
    requires limit >= 1 && AllKeyed(tables)
    ensures Descending(Walk(tables, f, cursor, limit)) && AllBelow(Walk(tables, f, cursor, limit), cursor)
  {
    if tables != [] {
      var page := PageOf(Matching(tables[0], f), cursor, limit);
      if page.next.Some? {
        WalkDescends(tables[1..], f, page.next, limit);
        JoinPage(Matching(tables[0], f), cursor, limit, Walk(tables[1..], f, page.next, limit));
      } else {
        PageFacts(Matching(tables[0], f), cursor, limit);
      }
    }
  }

  lemma JoinPage<D(!new)>(rows: set<Item<D>>, cursor: Option<Place>, limit: nat, rest: seq<Item<D>>)
    requires Keyed(rows) && limit >= 1 && PageOf(rows, cursor, limit).next.Some?
    requires Descending(rest) && AllBelow(rest, PageOf(rows, cursor, limit).next)
    ensures Descending(PageOf(rows, cursor, limit).items + rest) && AllBelow(PageOf(rows, cursor, limit).items + rest, cursor)
  {
    var items := PageOf(rows, cursor, limit).items;
    PageFacts(rows, cursor, limit);
    JoinDescending(items, rest);
    AllBelowTransitive(rest, items, cursor);
  }

  /** The table holds a matching item at this place. */
  ghost predicate Shows<D(!new)>(table: set<Item<D>>, f: Item<D> -> bool, place: Place) {
    exists x :: x in table && f(x) && x.place == place
  }

  ghost predicate Returned<D>(items: seq<Item<D>>, place: Place) {
    exists i :: 0 <= i < |items| && items[i].place == place
  }

  lemma PageReturns<D(!new)>(table: set<Item<D>>, f: Item<D> -> bool, cursor: Option<Place>, limit: nat, place: Place)
    requires limit >= 1 && Keyed(table) && Shows(table, f, place)
    requires cursor.None? || Before(place, cursor.value)
    ensures var page := PageOf(Matching(table, f), cursor, limit);
      Returned(page.items, place) || (page.next.Some? && Before(place, page.next.value))
  {
    var rows := Matching(table, f);
    var all, page := Listed(Below(rows, cursor)), PageOf(rows, cursor, limit);
    PageSplits(rows, cursor, limit);
    ListedMembers(Below(rows, cursor));
    var x :| x in table && f(x) && x.place == place;
    assert x in all;
    var i :| 0 <= i < |all| && all[i] == x;
    if i < |page.items| {
      assert page.items[i] == x;
    } else {
      assert Before(all[i].place, all[limit - 1].place);
    }
  }

  /** An item that is present and matching in every table that the walk reads is
      returned, exactly once. */
  lemma {:induction false} WalkReturns<D(!new)>(tables: seq<set<Item<D>>>, f: Item<D> -> bool, cursor: Option<Place>, limit: nat, place: Place)
    requires limit >= 1 && AllKeyed(tables)
    requires Finishes(tables, f, cursor, limit)
    requires forall i :: 0 <= i < |tables| ==> Shows(tables[i], f, place)
    requires cursor.None? || Before(place, cursor.value)
    ensures Returned(Walk(tables, f, cursor, limit), place)
  {
    var page := PageOf(Matching(tables[0], f), cursor, limit);
    var rest := if page.next.None? then [] else Walk(tables[1..], f, page.next, limit);
    assert Walk(tables, f, cursor, limit) == page.items + rest;
    PageReturns(tables[0], f, cursor, limit, place);
    if !Returned(page.items, place) {
      WalkReturns(tables[1..], f, page.next, limit, place);
    }
    ReturnedEither(page.items, rest, place);
  }

  lemma ReturnedEither<D>(items: seq<Item<D>>, rest: seq<Item<D>>, place: Place)
    requires Returned(items, place) || Returned(rest, place)
    ensures Returned(items + rest, place)
  {
    if Returned(items, place) {
      var i :| 0 <= i < |items| && items[i].place == place;
      assert (items + rest)[i].place == place;
    } else {
      var i :| 0 <= i < |rest| && rest[i].place == place;
      assert (items + rest)[|items| + i].place == place;
    }
  }

  lemma ReturnedOnce<D(!new)>(tables: seq<set<Item<D>>>, f: Item<D> -> bool, cursor: Option<Place>, limit: nat, i: nat, j: nat)
    requires limit >= 1 && AllKeyed(tables)
    requires i < j < |Walk(tables, f, cursor, limit)|
    ensures Walk(tables, f, cursor, limit)[i].place != Walk(tables, f, cursor, limit)[j].place
  {
    var walk := Walk(tables, f, cursor, limit);
    WalkDescends(tables, f, cursor, limit);
    BeforeOrder(walk[i].place, walk[j].place, walk[i].place);
  }

  /** Nothing is returned that some table did not hold and match. */
  lemma {:induction false} WalkIsReal<D(!new)>(tables: seq<set<Item<D>>>, f: Item<D> -> bool, cursor: Option<Place>, limit: nat)
    requires limit >= 1 && AllKeyed(tables)
    ensures forall x <- Walk(tables, f, cursor, limit) :: f(x) && exists t <- tables :: x in t
  {
    if tables != [] {
      var page := PageOf(Matching(tables[0], f), cursor, limit);
      PageFacts(Matching(tables[0], f), cursor, limit);
      forall x <- page.items ensures f(x) && exists t <- tables :: x in t {
        assert x in tables[0] && tables[0] in tables;
      }
      if page.next.Some? {
        WalkIsReal(tables[1..], f, page.next, limit);
        forall x <- Walk(tables[1..], f, page.next, limit) ensures f(x) && exists t <- tables :: x in t {
          var t :| t in tables[1..] && x in t;
          assert t in tables;
        }
      }
    }
  }
}
