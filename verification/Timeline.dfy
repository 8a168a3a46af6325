/** The list endpoints over keyset pages, and the client's merge of successive pages. */
module Timeline {
  import opened Common
  import opened Pagination

  datatype Text = Text(machine: int, text: string)

  type Message = Item<Text>

  /** A message cursor is bound to its machine and to the hash of its query. */
  datatype Cursor = Cursor(machine: int, place: Place, queryHash: string)

  datatype MessagePage = MessagePage(items: seq<Message>, next: Option<Cursor>)

  datatype Book = Book(machine: int, shift: int)

  type Logbook = Item<Book>

  /** The filter of the logbook list: 0 and None accept everything. */
  datatype Filter = Filter(machine: int, shift: int, from: Option<int>, to: Option<int>)

  // ----- the query

  method NewestOf<D(==)>(rows: set<Item<D>>) returns (m: Item<D>)
    requires Keyed(rows) && rows != {}
    ensures Newest(m, rows)
  {
    m :| m in rows;
    var seen := {m};
    while seen != rows
      invariant seen <= rows && Newest(m, seen)
      decreases |rows - seen|
    {
      var x :| x in rows - seen;
      BeforeOrder(m.place, x.place, m.place);
      if Before(m.place, x.place) {
        forall y <- seen ensures y == x || Before(y.place, x.place) {
          BeforeOrder(y.place, m.place, x.place);
        }
        m := x;
      }
      assert rows - (seen + {x}) < rows - seen;
      seen := seen + {x};
    }
  }

  /** ORDER BY time DESC, id DESC LIMIT n. */
  method Fetch<D(==,!new)>(rows: set<Item<D>>, n: nat) returns (items: seq<Item<D>>)
    requires Keyed(rows)
    ensures items == Take(Listed(rows), n)
  {
    items := [];
    var rest := rows;
    while |items| < n && rest != {}
      invariant |items| <= n && Keyed(rest) && rest <= rows
      invariant Listed(rows) == items + Listed(rest)
      decreases |rest|
    {
      var m := NewestOf(rest);
      NewestIsFirst(m, rest);
      MoveFirst(items, m, Listed(rest - {m}));
      items := items + [m];
      rest := rest - {m};
    }
    TakeFront(items, Listed(rest), n);
  }

  lemma MoveFirst<T>(a: seq<T>, x: T, b: seq<T>)
    ensures a + ([x] + b) == (a + [x]) + b
  {
  }

  lemma TakeFront<T>(a: seq<T>, b: seq<T>, n: nat)
    requires |a| <= n && (|a| == n || b == [])
    ensures Take(a + b, n) == a
  {
  }

  lemma NewestIsFirst<D(!new)>(m: Item<D>, rows: set<Item<D>>)
    requires Keyed(rows) && Newest(m, rows)
    ensures Listed(rows) == [m] + Listed(rows - {m})
  {
    ListedHead(rows);
    var first := Listed(rows)[0];
    BeforeOrder(m.place, first.place, m.place);
    assert m == first;
  }

  // ----- the endpoints

  function EffectiveLimit(limit: int): int {
    if limit == 0 then 20 else limit
  }

  function Reverse<T>(s: seq<T>): (r: seq<T>)
    ensures |r| == |s| && forall i :: 0 <= i < |s| ==> r[i] == s[|s| - 1 - i]
  {
    if s == [] then [] else Reverse(s[1..]) + [s[0]]
  }

  predicate OnMachine(machine: int, query: string, found: (string, string) -> bool, x: Message) {
    x.data.machine == machine && (query == "" || found(x.data.text, query))
  }

  function MessageFilter(machine: int, query: string, found: (string, string) -> bool): Message -> bool {
    x => OnMachine(machine, query, found, x)
  }

  /** A cursor serves only the machine and the query that it came from. */
  predicate CursorFits(cursor: Option<Cursor>, machine: int, hash: string) {
    cursor.Some? ==> cursor.value.machine == machine && cursor.value.queryHash == hash
  }

  function QueryHash(query: string, digest: string -> string): string {
    if query == "" then "" else digest(query)
  }

  predicate RequestValid(machine: int, query: string, digest: string -> string, cursor: Option<Cursor>, limit: int) {
    machine > 0 && |query| <= 200 && '\0' !in query && CursorFits(cursor, machine, QueryHash(query, digest)) && 0 <= limit <= 100
  }

  function PlaceOf(cursor: Option<Cursor>): Option<Place> {
    if cursor.None? then None else Some(cursor.value.place)
  }

  /** The WHERE clause of the query. */
  lemma SelectedBelow(table: set<Message>, machine: int, query: string, found: (string, string) -> bool, cursor: Option<Cursor>,
                      below: set<Message>)
    requires Keyed(table)
    requires below == set x | x in table && OnMachine(machine, query, found, x) &&
      (cursor.None? || Before(x.place, cursor.value.place))
    ensures below == Below(Matching(table, MessageFilter(machine, query, found)), PlaceOf(cursor)) && Keyed(below)
  {
  }

  /** What the answer to a message list holds, row by row: exactly the messages of the
      machine that the query finds and that lie between the cursors, oldest first; at
      most the limit, or 20 where none is given; and with more to come a full page,
      and a cursor at its oldest message for the same machine and query. */
  ghost predicate MessagesListed(table: set<Message>, machine: int, query: string, found: (string, string) -> bool,
                                 hash: string, cursor: Option<Cursor>, limit: int, page: MessagePage) {
    && (forall x :: x in page.items <==>
      && x in table && x.data.machine == machine && (query == "" || found(x.data.text, query))
      && (cursor.Some? ==> Earlier(x.place, cursor.value.place))
      && (page.next.Some? ==> !Earlier(x.place, page.next.value.place)))
    && (forall i, j :: 0 <= i < j < |page.items| ==> Earlier(page.items[i].place, page.items[j].place))
    && |page.items| <= (if limit == 0 then 20 else limit)
    && (page.next.Some? ==>
      && |page.items| == (if limit == 0 then 20 else limit) && page.items != []
      && page.next.value == Cursor(machine, page.items[0].place, hash))
  }

  lemma MessagesAreListed(table: set<Message>, machine: int, query: string, found: (string, string) -> bool, hash: string,
                          cursor: Option<Cursor>, limit: int, page: MessagePage)
    requires Keyed(table) && 0 <= limit && CursorFits(page.next, machine, hash)
    requires var cut := PageOf(Matching(table, MessageFilter(machine, query, found)), PlaceOf(cursor), EffectiveLimit(limit));
      page.items == Reverse(cut.items) && PlaceOf(page.next) == cut.next
    ensures MessagesListed(table, machine, query, found, hash, cursor, limit, page)
  {
    var rows := Matching(table, MessageFilter(machine, query, found));
    var cut := PageOf(rows, PlaceOf(cursor), EffectiveLimit(limit));
    MessageRows(table, machine, query, found);
    LimitGiven(limit);
    PageIs(rows, PlaceOf(cursor), EffectiveLimit(limit));
    forall x ensures x in page.items <==> x in cut.items {
      ReverseHolds(cut.items, x);
    }
    ReverseAscends(cut.items);
  }

  lemma MessageRows(table: set<Message>, machine: int, query: string, found: (string, string) -> bool)
    ensures forall x :: x in Matching(table, MessageFilter(machine, query, found)) <==>
      x in table && x.data.machine == machine && (query == "" || found(x.data.text, query))
  {
  }

  lemma LimitGiven(limit: int)
    ensures EffectiveLimit(0) == 20 && (limit != 0 ==> EffectiveLimit(limit) == limit)
  {
  }

  lemma ReverseHolds<T>(items: seq<T>, x: T)
    ensures x in Reverse(items) <==> x in items
  {
    if x in items {
      var i :| 0 <= i < |items| && items[i] == x;
      assert Reverse(items)[|items| - 1 - i] == x;
    }
  }

  lemma ReverseAscends<D>(items: seq<Item<D>>)
    requires forall i, j :: 0 <= i < j < |items| ==> Earlier(items[j].place, items[i].place)
    ensures forall i, j :: 0 <= i < j < |items| ==> Earlier(Reverse(items)[i].place, Reverse(items)[j].place)
  {
  }

  /** A page of a machine's messages, oldest first. */
  method ListMessages(table: set<Message>, machines: set<int>, machine: int, query: string, found: (string, string) -> bool,
                      digest: string -> string, cursor: Option<Cursor>, limit: int) returns (r: Result<MessagePage>)
    requires Keyed(table)
    ensures RequestValid(machine, query, digest, cursor, limit) <==>
      && machine > 0 && |query| <= 200 && '\0' !in query && 0 <= limit <= 100
      && (cursor.Some? ==>
        cursor.value.machine == machine && cursor.value.queryHash == if query == "" then "" else digest(query))
    ensures r.Ok? <==> RequestValid(machine, query, digest, cursor, limit) && machine in machines
    ensures r.Err? ==> r.error == if RequestValid(machine, query, digest, cursor, limit) then InvalidReference else Validation
    ensures r.Ok? ==>
      MessagesListed(table, machine, query, found, if query == "" then "" else digest(query), cursor, limit, r.value)
    ensures r.Ok? ==>
      var page := PageOf(Matching(table, MessageFilter(machine, query, found)), PlaceOf(cursor), EffectiveLimit(limit));
      && r.value.items == Reverse(page.items)
      && PlaceOf(r.value.next) == page.next
      && CursorFits(r.value.next, machine, QueryHash(query, digest))
  {
    ghost var asked := limit;
    if machine <= 0 || '\0' in query || |query| > 200 {
      return Err(Validation);
    }
    var hash := "";
    if query != "" {
      hash := digest(query);
    }
    if cursor.Some? && (cursor.value.machine != machine || cursor.value.queryHash != hash) {
      return Err(Validation);
    }
    var limit := EffectiveLimit(limit);
    if limit < 1 || limit > 100 {
      return Err(Validation);
    }
    if machine !in machines {
      return Err(InvalidReference);
    }
    var below := set x | x in table && OnMachine(machine, query, found, x) &&
      (cursor.None? || Before(x.place, cursor.value.place));
    SelectedBelow(table, machine, query, found, cursor, below);
    var items := Fetch(below, limit + 1);
    var page := Present(items, limit, machine, hash);
    MessagesAreListed(table, machine, query, found, hash, cursor, asked, page);
    return Ok(page);
  }

  /** Cuts the extra item off, binds the cursor, and turns the page around. */
  method Present(found: seq<Message>, limit: nat, machine: int, hash: string) returns (r: MessagePage)
    requires limit >= 1
    ensures r.items == Reverse(CutPage(found, limit).items)
    ensures PlaceOf(r.next) == CutPage(found, limit).next && CursorFits(r.next, machine, hash)
  {
    var items, next := found, None;
    if |items| > limit {
      next := Some(Cursor(machine, items[limit - 1].place, hash));
      items := items[..limit];
    }
    var page := [];
    for i := 0 to |items|
      invariant page == Reverse(items)[..i]
    {
      page := page + [items[|items| - 1 - i]];
    }
    return MessagePage(page, next);
  }

  predicate Selects(filter: Filter, x: Logbook) {
    && (filter.machine == 0 || x.data.machine == filter.machine)
    && (filter.shift == 0 || x.data.shift == filter.shift)
    && (filter.from.None? || x.place.time >= filter.from.value)
    && (filter.to.None? || x.place.time <= filter.to.value)
  }

  function BookFilter(filter: Filter): Logbook -> bool {
    x => Selects(filter, x)
  }

  /** What the answer to a logbook list holds, row by row: exactly the logbooks of the
      machine, the shift and the dates of the filter that lie between the cursors,
      newest first. */
  ghost predicate BooksListed(table: set<Logbook>, filter: Filter, cursor: Option<Place>, limit: int, page: Page<Book>) {
    && (forall x :: x in page.items <==>
      && x in table
      && (filter.machine == 0 || x.data.machine == filter.machine)
      && (filter.shift == 0 || x.data.shift == filter.shift)
      && (filter.from.Some? ==> filter.from.value <= x.place.time)
      && (filter.to.Some? ==> x.place.time <= filter.to.value)
      && (cursor.Some? ==> Earlier(x.place, cursor.value))
      && (page.next.Some? ==> !Earlier(x.place, page.next.value)))
    && (forall i, j :: 0 <= i < j < |page.items| ==> Earlier(page.items[j].place, page.items[i].place))
    && |page.items| <= (if limit == 0 then 20 else limit)
    && (page.next.Some? ==>
      && |page.items| == (if limit == 0 then 20 else limit) && page.items != []
      && page.next.value == page.items[|page.items| - 1].place)
  }

  lemma BooksAreListed(table: set<Logbook>, filter: Filter, cursor: Option<Place>, limit: int)
    requires Keyed(table) && 0 <= limit
    ensures BooksListed(table, filter, cursor, limit, PageOf(Matching(table, BookFilter(filter)), cursor, EffectiveLimit(limit)))
  {
    var rows := Matching(table, BookFilter(filter));
    BookRows(table, filter, rows);
    LimitGiven(limit);
    PageIs(rows, cursor, EffectiveLimit(limit));
  }

  lemma BookRows(table: set<Logbook>, filter: Filter, rows: set<Logbook>)
    requires rows == Matching(table, BookFilter(filter))
    ensures forall x :: x in rows <==>
      && x in table
      && (filter.machine == 0 || x.data.machine == filter.machine)
      && (filter.shift == 0 || x.data.shift == filter.shift)
      && (filter.from.Some? ==> filter.from.value <= x.place.time)
      && (filter.to.Some? ==> x.place.time <= filter.to.value)
  {
  }

  /** The WHERE clause of the query. */
  lemma SelectedBooks(table: set<Logbook>, filter: Filter, cursor: Option<Place>, below: set<Logbook>)
    requires Keyed(table)
    requires below == set x | x in table && Selects(filter, x) && (cursor.None? || Before(x.place, cursor.value))
    ensures below == Below(Matching(table, BookFilter(filter)), cursor) && Keyed(below)
  {
  }

  /** A page of logbooks, newest first. */
  method ListBooks(table: set<Logbook>, filter: Filter, cursor: Option<Place>, limit: int) returns (r: Result<Page<Book>>)
    requires Keyed(table)
    ensures r.Ok? <==>
      && filter.machine >= 0 && filter.shift >= 0 && 0 <= limit <= 100
      && (filter.from.Some? && filter.to.Some? ==> filter.from.value <= filter.to.value)
    ensures r.Ok? ==> BooksListed(table, filter, cursor, limit, r.value)
    ensures r.Err? ==> r.error == Validation
    ensures r.Ok? ==> r.value == PageOf(Matching(table, BookFilter(filter)), cursor, EffectiveLimit(limit))
  {
    ghost var asked := limit;
    if filter.machine < 0 || filter.shift < 0 {
      return Err(Validation);
    }
    if filter.from.Some? && filter.to.Some? && filter.from.value > filter.to.value {
      return Err(Validation);
    }
    var limit := EffectiveLimit(limit);
    if limit < 1 || limit > 100 {
      return Err(Validation);
    }
    BooksAreListed(table, filter, cursor, asked);
    var below := set x | x in table && Selects(filter, x) && (cursor.None? || Before(x.place, cursor.value));
    SelectedBooks(table, filter, cursor, below);
    var books := Fetch(below, limit + 1);
    var next := None;
    if |books| > limit {
      next := Some(books[limit - 1].place);
      books := books[..limit];
    }
    return Ok(Page(books, next));
  }

  // ----- the photos of a page

  datatype PhotoRow = PhotoRow(message: string, page: int, key: string)

  function PhotosFor(rows: seq<PhotoRow>, id: string): seq<PhotoRow> {
    if rows == [] then []
    else
      var n := |rows| - 1;
      PhotosFor(rows[..n], id) + if rows[n].message == id then [rows[n]] else []
  }

  ghost predicate IndexOf(positions: map<string, nat>, ids: seq<string>, n: nat)
    requires n <= |ids|
  {
    && (forall i :: 0 <= i < n ==> ids[i] in positions && positions[ids[i]] == i)
    && forall id :: id in positions ==> positions[id] < n && ids[positions[id]] == id
  }

  /** The rows come in one query for the whole page; each is appended to the message that
      the index names. */
  method AttachPhotos(ids: seq<string>, rows: seq<PhotoRow>) returns (photos: array<seq<PhotoRow>>)
    requires forall i, j :: 0 <= i < j < |ids| ==> ids[i] != ids[j]
    requires forall r <- rows :: r.message in ids
    ensures photos.Length == |ids|
    ensures forall i :: 0 <= i < |ids| ==> photos[i] == PhotosFor(rows, ids[i])
  {
    var positions: map<string, nat> := map[];
    for i := 0 to |ids|
      invariant IndexOf(positions, ids, i)
    {
      positions := positions[ids[i] := i];
    }
    photos := new seq<PhotoRow>[|ids|](_ => []);
    for n := 0 to |rows|
      invariant forall i :: 0 <= i < |ids| ==> photos[i] == PhotosFor(rows[..n], ids[i])
    {
      assert rows[n] in rows && rows[..n + 1][..n] == rows[..n];
      var index := positions[rows[n].message];
      photos[index] := photos[index] + [rows[n]];
    }
    assert rows[..|rows|] == rows;
  }

  predicate InQueryOrder(rows: seq<PhotoRow>) {
    forall i, j :: 0 <= i < j < |rows| && rows[i].message == rows[j].message ==> rows[i].page < rows[j].page
  }

  /** A message gets every row of its own and no other, in the order of the pages. */
  lemma {:induction false} PhotosInOrder(rows: seq<PhotoRow>, id: string)
    requires InQueryOrder(rows)
    ensures forall r :: r in PhotosFor(rows, id) <==> r in rows && r.message == id
    ensures forall i, j :: 0 <= i < j < |PhotosFor(rows, id)| ==> PhotosFor(rows, id)[i].page < PhotosFor(rows, id)[j].page
  {
    if rows != [] {
      var n := |rows| - 1;
      var before := PhotosFor(rows[..n], id);
      PhotosInOrder(rows[..n], id);
      assert rows == rows[..n] + [rows[n]];
      forall r <- before ensures r.message == rows[n].message ==> r.page < rows[n].page {
        var i :| 0 <= i < n && rows[..n][i] == r;
      }
    }
  }

  // ----- merging pages

  /** The identity of a message on the client. */
  function IdOf<D>(x: Item<D>): string {
    x.place.id
  }

  ghost predicate DistinctIds<D>(items: seq<Item<D>>) {
    forall i, j :: 0 <= i < j < |items| ==> IdOf(items[i]) != IdOf(items[j])
  }

  /** A JavaScript map of messages: the first insertion fixes the order, the last the value. */
  function Put<D>(items: seq<Item<D>>, x: Item<D>): seq<Item<D>> {
    if items == [] then [x]
    else if IdOf(items[0]) == IdOf(x) then [x] + items[1..]
    else [items[0]] + Put(items[1..], x)
  }

  function Merged<D>(items: seq<Item<D>>): seq<Item<D>> {
    if items == [] then [] else Put(Merged(items[..|items| - 1]), items[|items| - 1])
  }

  /** `mergeMessages`, with the map as the order and the values of its keys. */
  method MergeMessages<D>(older: seq<Item<D>>, newer: seq<Item<D>>) returns (r: seq<Item<D>>)
    ensures r == Merged(older + newer)
  {
    var all := older + newer;
    var order: seq<string> := [];
    var values: map<string, Item<D>> := map[];
    for i := 0 to |all|
      invariant Represents(order, values, Merged(all[..i]))
    {
      MergedNext(all, i);
      order, values := SetEntry(order, values, all[i], Merged(all[..i]));
    }
    assert all[..|all|] == all;
    r := Values(order, values, Merged(all));
  }

  lemma MergedNext<D>(all: seq<Item<D>>, i: nat)
    requires i < |all|
    ensures Merged(all[..i + 1]) == Put(Merged(all[..i]), all[i])
  {
    assert all[..i + 1][..i] == all[..i];
  }

  /** One entry set in the map. */
  method SetEntry<D>(order: seq<string>, values: map<string, Item<D>>, x: Item<D>, ghost items: seq<Item<D>>)
    returns (newOrder: seq<string>, newValues: map<string, Item<D>>)
    requires Represents(order, values, items)
    ensures Represents(newOrder, newValues, Put(items, x))
  {
    PutRepresents(order, values, items, x);
    newOrder := order;
    if IdOf(x) !in values {
      newOrder := order + [IdOf(x)];
    }
    newValues := values[IdOf(x) := x];
  }

  /** The values of the map in insertion order. */
  method Values<D>(order: seq<string>, values: map<string, Item<D>>, ghost items: seq<Item<D>>) returns (r: seq<Item<D>>)
    requires Represents(order, values, items)
    ensures r == items
  {
    r := [];
    for i := 0 to |order|
      invariant r == items[..i]
    {
      r := r + [values[order[i]]];
    }
  }

  ghost predicate Represents<D>(order: seq<string>, values: map<string, Item<D>>, items: seq<Item<D>>) {
    && |order| == |items| && DistinctIds(items)
    && (forall k :: k in values <==> k in order)
    && forall i :: 0 <= i < |order| ==> order[i] == IdOf(items[i]) && values[order[i]] == items[i]
  }

  ghost predicate Lacks<D>(items: seq<Item<D>>, id: string) {
    forall i :: 0 <= i < |items| ==> IdOf(items[i]) != id
  }

  lemma {:induction false} PutNew<D>(items: seq<Item<D>>, x: Item<D>)
    requires Lacks(items, IdOf(x))
    ensures Put(items, x) == items + [x]
  {
    if items != [] {
      PutNew(items[1..], x);
      assert items == [items[0]] + items[1..];
    }
  }

  lemma {:induction false} PutOld<D>(items: seq<Item<D>>, x: Item<D>, i: nat)
    requires DistinctIds(items) && i < |items| && IdOf(items[i]) == IdOf(x)
    ensures Put(items, x) == items[i := x]
  {
    if i > 0 {
      assert IdOf(items[0]) != IdOf(items[i]);
      PutOld(items[1..], x, i - 1);
      assert items == [items[0]] + items[1..];
    }
  }

  lemma ReplaceRepresents<D>(order: seq<string>, values: map<string, Item<D>>, items: seq<Item<D>>, x: Item<D>, i: nat)
    requires Represents(order, values, items) && i < |order| && order[i] == IdOf(x)
    ensures Represents(order, values[IdOf(x) := x], items[i := x])
  {
  }

  lemma AddRepresents<D>(order: seq<string>, values: map<string, Item<D>>, items: seq<Item<D>>, x: Item<D>)
    requires Represents(order, values, items) && IdOf(x) !in values
    ensures Represents(order + [IdOf(x)], values[IdOf(x) := x], items + [x])
    ensures Lacks(items, IdOf(x))
  {
    forall i | 0 <= i < |items| ensures order[i] != IdOf(x) {
      assert order[i] in order;
    }
  }

  lemma PutRepresents<D>(order: seq<string>, values: map<string, Item<D>>, items: seq<Item<D>>, x: Item<D>)
    requires Represents(order, values, items)
    ensures Represents(if IdOf(x) !in values then order + [IdOf(x)] else order, values[IdOf(x) := x], Put(items, x))
  {
    if IdOf(x) in values {
      var i :| 0 <= i < |order| && order[i] == IdOf(x);
      PutOld(items, x, i);
      ReplaceRepresents(order, values, items, x, i);
    } else {
      AddRepresents(order, values, items, x);
      PutNew(items, x);
    }
  }

  lemma PutHolds<D>(items: seq<Item<D>>, x: Item<D>)
    requires DistinctIds(items)
    ensures DistinctIds(Put(items, x)) && x in Put(items, x)
    ensures forall y <- items :: IdOf(y) != IdOf(x) ==> y in Put(items, x)
    ensures forall y <- Put(items, x) :: y == x || (y in items && IdOf(y) != IdOf(x))
  {
    if Lacks(items, IdOf(x)) {
      PutNew(items, x);
      assert (items + [x])[|items|] == x;
    } else {
      var i :| 0 <= i < |items| && IdOf(items[i]) == IdOf(x);
      PutOld(items, x, i);
      assert items[i := x][i] == x;
      forall y <- items | IdOf(y) != IdOf(x) ensures y in items[i := x] {
        var j :| 0 <= j < |items| && items[j] == y;
        assert items[i := x][j] == y;
      }
    }
  }

  /** The last message with its id in a list. */
  predicate Final<D(==)>(items: seq<Item<D>>, x: Item<D>) {
    exists i :: 0 <= i < |items| && items[i] == x && LacksAfter(items, i, IdOf(x))
  }

  predicate LacksAfter<D>(items: seq<Item<D>>, i: int, id: string) {
    forall j :: i < j < |items| && 0 <= j ==> IdOf(items[j]) != id
  }

  lemma FinalNext<D>(items: seq<Item<D>>, x: Item<D>, y: Item<D>)
    ensures Final(items + [x], y) <==> y == x || (Final(items, y) && IdOf(y) != IdOf(x))
  {
    var all := items + [x];
    if Final(all, y) && y != x {
      var i :| 0 <= i < |all| && all[i] == y && LacksAfter(all, i, IdOf(y));
      assert all[|items|] == x;
      assert LacksAfter(items, i, IdOf(y)) by {
        forall j | i < j < |items| ensures IdOf(items[j]) != IdOf(y) {
          assert all[j] == items[j];
        }
      }
    }
    if y == x {
      assert all[|items|] == x && LacksAfter(all, |items|, IdOf(x));
    }
    if Final(items, y) && IdOf(y) != IdOf(x) {
      var i :| 0 <= i < |items| && items[i] == y && LacksAfter(items, i, IdOf(y));
      assert all[i] == y && LacksAfter(all, i, IdOf(y));
    }
  }

  /** The merge keeps, for each id of its input, the last message with that id, once. */
  lemma {:induction false} MergedHolds<D>(items: seq<Item<D>>, y: Item<D>)
    ensures DistinctIds(Merged(items))
    ensures y in Merged(items) <==> Final(items, y)
  {
    if items != [] {
      var n := |items| - 1;
      var before, x := items[..n], items[n];
      MergedHolds(before, y);
      PutHolds(Merged(before), x);
      assert items == before + [x];
      FinalNext(before, x, y);
    }
  }

  lemma {:induction false} MergedFresh<D>(items: seq<Item<D>>)
    requires DistinctIds(items)
    ensures Merged(items) == items
  {
    if items != [] {
      var n := |items| - 1;
      MergedFresh(items[..n]);
      PutNew(items[..n], items[n]);
      assert items == items[..n] + [items[n]];
    }
  }

  // ----- loading older pages

  /** What the client shows after following the cursors: each older page is merged in
      front of what it has. */
  ghost function Loaded<D(!new)>(tables: seq<set<Item<D>>>, f: Item<D> -> bool, cursor: Option<Place>, limit: nat, shown: seq<Item<D>>): seq<Item<D>>
    requires limit >= 1 && AllKeyed(tables)
    decreases |tables|
  {
    if tables == [] then shown
    else
      var page := PageOf(Matching(tables[0], f), cursor, limit);
      var merged := Merged(Reverse(page.items) + shown);
      if page.next.None? then merged else Loaded(tables[1..], f, page.next, limit, merged)
  }

  lemma {:induction false} ReverseJoin<T>(a: seq<T>, b: seq<T>)
    ensures Reverse(a + b) == Reverse(b) + Reverse(a)
  {
    if a == [] {
      assert a + b == b;
    } else {
      ReverseJoin(a[1..], b);
      assert (a + b)[1..] == a[1..] + b;
    }
  }

  lemma {:induction false} LoadedIsWalk<D(!new)>(tables: seq<set<Item<D>>>, f: Item<D> -> bool, cursor: Option<Place>, limit: nat, shown: seq<Item<D>>)
    requires limit >= 1 && AllKeyed(tables)
    requires DistinctIds(Reverse(Walk(tables, f, cursor, limit)) + shown)
    ensures Loaded(tables, f, cursor, limit, shown) == Reverse(Walk(tables, f, cursor, limit)) + shown
    decreases |tables|
  {
    if tables != [] {
      var page := PageOf(Matching(tables[0], f), cursor, limit);
      var rest := if page.next.None? then [] else Walk(tables[1..], f, page.next, limit);
      MergePage(page.items, rest, shown);
      if page.next.Some? {
        LoadedIsWalk(tables[1..], f, page.next, limit, Reverse(page.items) + shown);
      }
    }
  }

  lemma MergePage<D>(items: seq<Item<D>>, rest: seq<Item<D>>, shown: seq<Item<D>>)
    requires DistinctIds(Reverse(items + rest) + shown)
    ensures Merged(Reverse(items) + shown) == Reverse(items) + shown
    ensures Reverse(items + rest) + shown == Reverse(rest) + (Reverse(items) + shown)
  {
    var front := Reverse(items) + shown;
    ReverseJoin(items, rest);
    assert Reverse(items + rest) + shown == Reverse(rest) + front;
    Suffix(Reverse(rest), front);
    MergedFresh(front);
  }

  lemma Suffix<D>(a: seq<Item<D>>, b: seq<Item<D>>)
    requires DistinctIds(a + b)
    ensures DistinctIds(b)
  {
    forall i, j | 0 <= i < j < |b| ensures IdOf(b[i]) != IdOf(b[j]) {
      assert (a + b)[|a| + i] == b[i] && (a + b)[|a| + j] == b[j];
    }
  }

  /** Ids are never reused, and a message keeps its creation time. */
  ghost predicate Identified<D(!new)>(tables: seq<set<Item<D>>>) {
    forall i, j, x, y :: 0 <= i < |tables| && 0 <= j < |tables| && x in tables[i] && y in tables[j] && IdOf(x) == IdOf(y)
      ==> x.place == y.place
  }

  ghost predicate Ascending<D>(items: seq<Item<D>>) {
    forall i, j :: 0 <= i < j < |items| ==> Before(items[i].place, items[j].place)
  }

  /** Merging page after page rebuilds the timeline in ascending order, whatever happens
      to the table between the pages. */
  lemma TimelineRebuilt<D(!new)>(tables: seq<set<Item<D>>>, f: Item<D> -> bool, limit: nat)
    requires limit >= 1 && AllKeyed(tables) && Identified(tables)
    ensures Loaded(tables, f, None, limit, []) == Reverse(Walk(tables, f, None, limit))
    ensures Ascending(Loaded(tables, f, None, limit, []))
  {
    var walk := Walk(tables, f, None, limit);
    WalkDescends(tables, f, None, limit);
    WalkIsReal(tables, f, None, limit);
    assert Ascending(Reverse(walk)) && Reverse(walk) + [] == Reverse(walk);
    forall i, j | 0 <= i < j < |walk| ensures IdOf(walk[i]) != IdOf(walk[j]) {
      assert walk[i] in walk && walk[j] in walk;
      ReturnedOnce(tables, f, None, limit, i, j);
    }
    LoadedIsWalk(tables, f, None, limit, []);
  }
}
