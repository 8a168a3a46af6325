/** One machine's conversation: commits and publications on the server, the event stream
    of a subscription, history pages, and the state that the client keeps. */
module Conversation {
  import opened Common
  import opened Pagination
  import opened Sets

  type Id = string

  type Message = Item<string>

  datatype Event = Saved(message: Message) | Removed(id: Id)
  {
    function About(): Id {
      match this
      case Saved(m) => m.place.id
      case Removed(id) => id
    }
  }

  /** What the socket carries: first the word that the subscription is in place. */
  datatype Frame = Ready | Live(event: Event)

  /** A history request: on its way, or answered with a page. */
  datatype Fetch = Asked | Served(rows: map<Id, Message>, next: Option<Place>)

  /** `loaded` is the cursor below the pages shown, once the first page is there. */
  datatype Client = Client(
    items: map<Id, Message>, loaded: Option<Option<Place>>,
    live: map<Id, Message>, edited: map<Id, Message>, deleted: set<Id>,
    first: Option<Fetch>, older: Option<Fetch>)

  /** `queues` holds, message by message, the events of commits that are not published
      yet. The stream is there while the channel is open: it holds all that the client
      has not read. When the hub closes a full channel, the client still reads what is
      left over, but nothing is added. */
  datatype World = World(table: map<Id, Message>, used: set<Id>, queues: map<Id, seq<Event>>,
                         stream: Option<seq<Frame>>, leftover: seq<Frame>, client: Client)

  /** A commit whose answer is lost, or whose process dies, is not announced. */
  datatype Step =
    | Insert(message: Message, announced: bool)
    | Edit(id: Id, text: string, announced: bool)
    | Remove(id: Id, announced: bool)
    | Publish(id: Id, k: nat)
    | Connect
    | Disconnect
    | Overflow
    | Receive
    | ReceiveLeftover
    | Reload
    | ServeFirst
    | ReceiveFirst
    | FailFirst
    | AskOlder
    | ServeOlder
    | ReceiveOlder
    | FailOlder

  const PAGE := 20

  function Queue(w: World, id: Id): seq<Event> {
    if id in w.queues then w.queues[id] else []
  }

  // ----- pages

  ghost predicate Identified(table: map<Id, Message>) {
    forall id :: id in table ==> table[id].place.id == id
  }

  predicate AtOrAbove(place: Place, low: Option<Place>) {
    low.None? || !Before(place, low.value)
  }

  predicate IsBelow(place: Place, cursor: Option<Place>) {
    cursor.None? || Before(place, cursor.value)
  }

  ghost function Rows(table: map<Id, Message>): set<Message> {
    set id | id in table :: table[id]
  }

  lemma RowsKeyed(table: map<Id, Message>)
    requires Identified(table)
    ensures Keyed(Rows(table))
  {
  }

  ghost function ServedPage(table: map<Id, Message>, cursor: Option<Place>): Fetch
    requires Identified(table)
  {
    RowsKeyed(table);
    var page := PageOf(Rows(table), cursor, PAGE);
    Served(map id | id in table && table[id] in page.items :: table[id], page.next)
  }

  lemma CutPlace(all: seq<Message>, x: Message)
    requires Descending(all) && |all| > PAGE && x in all
    ensures x in all[..PAGE] <==> !Before(x.place, all[PAGE - 1].place)
  {
    var last := all[PAGE - 1].place;
    var i :| 0 <= i < |all| && all[i] == x;
    forall j | 0 <= j < PAGE ensures !Before(all[j].place, last) {
      BeforeOrder(all[j].place, last, last);
    }
    if i < PAGE {
      assert all[..PAGE][i] == x;
    }
  }

  lemma PageMembers(rows: set<Message>, cursor: Option<Place>, x: Message)
    requires Keyed(rows) && x in rows
    ensures var page := PageOf(rows, cursor, PAGE);
      x in page.items <==> IsBelow(x.place, cursor) && AtOrAbove(x.place, page.next)
  {
    var all := Listed(Below(rows, cursor));
    PageSplits(rows, cursor, PAGE);
    ListedMembers(Below(rows, cursor));
    if x in all && |all| > PAGE {
      CutPlace(all, x);
    }
    assert x in Take(all, PAGE) ==> x in all;
  }

  /** A page holds everything between its cursor and the next one. */
  lemma PageInterval(table: map<Id, Message>, cursor: Option<Place>, id: Id)
    requires Identified(table) && id in table
    ensures var page := ServedPage(table, cursor);
      && (id in page.rows <==> IsBelow(table[id].place, cursor) && AtOrAbove(table[id].place, page.next))
      && (id in page.rows ==> page.rows[id] == table[id])
  {
    RowsKeyed(table);
    PageMembers(Rows(table), cursor, table[id]);
  }

  /** A page holds twenty messages, or all there are. */
  lemma PageSize(table: map<Id, Message>, cursor: Option<Place>)
    requires Identified(table)
    ensures var page := ServedPage(table, cursor);
      |page.rows| <= 20 && (page.next.Some? ==> |page.rows| == 20)
  {
    assert PAGE == 20;
    RowsKeyed(table);
    var page, rows := PageOf(Rows(table), cursor, PAGE), ServedPage(table, cursor).rows;
    PageIs(Rows(table), cursor, PAGE);
    var ids := seq(|page.items|, i requires 0 <= i < |page.items| => page.items[i].place.id);
    forall id ensures id in ids <==> id in rows {
      RowListed(table, page.items, ids, id);
    }
    forall i, j | 0 <= i < j < |ids| ensures ids[i] != ids[j] {
      RowOf(table, page.items[i]);
      RowOf(table, page.items[j]);
      BeforeOrder(page.items[i].place, page.items[j].place, page.items[i].place);
    }
    ListOfSet(ids, rows.Keys);
  }

  lemma RowOf(table: map<Id, Message>, x: Message)
    requires Identified(table) && x in Rows(table)
    ensures x.place.id in table && table[x.place.id] == x
  {
  }

  lemma RowListed(table: map<Id, Message>, items: seq<Message>, ids: seq<Id>, id: Id)
    requires Identified(table) && forall x <- items :: x in Rows(table)
    requires |ids| == |items| && forall i :: 0 <= i < |ids| ==> ids[i] == items[i].place.id
    ensures id in ids <==> id in table && table[id] in items
  {
    if id in ids {
      var i :| 0 <= i < |ids| && ids[i] == id;
      RowOf(table, items[i]);
    }
    if id in table && table[id] in items {
      var i :| 0 <= i < |items| && items[i] == table[id];
      assert ids[i] == id;
    }
  }

  // ----- the client's handlers

  function Restarted(c: Client): Client {
    c.(items := map[], loaded := None, first := Some(Asked), older := None)
  }

  function Handle(c: Client, f: Frame): Client {
    match f
    case Ready => Restarted(c.(edited := map[], live := map[]))
    case Live(Saved(m)) =>
      var id := m.place.id;
      c.(live := c.live[id := m], edited := c.edited[id := m], items := c.items[id := m])
    case Live(Removed(id)) =>
      c.(deleted := c.deleted + {id}, live := c.live - {id}, items := c.items - {id})
  }

  /** Merges a page with what is newer, drops what is known to be deleted, and prefers
      what came as an event. */
  function MergedItems(rows: map<Id, Message>, newer: map<Id, Message>, c: Client): map<Id, Message> {
    map id | id in rows.Keys + newer.Keys && id !in c.deleted ::
      if id in c.edited then c.edited[id] else if id in newer then newer[id] else rows[id]
  }

  function ShowFirst(c: Client): Client
    requires c.first.Some? && c.first.value.Served?
  {
    c.(items := MergedItems(c.first.value.rows, c.live, c), loaded := Some(c.first.value.next), first := None)
  }

  function ShowOlder(c: Client): Client
    requires c.older.Some? && c.older.value.Served?
  {
    c.(items := MergedItems(c.older.value.rows, c.items, c), loaded := Some(c.older.value.next), older := None)
  }

  /** The component with its state and its refs. */
  class View {
    var items: map<Id, Message>
    var loaded: Option<Option<Place>>
    var live: map<Id, Message>
    var edited: map<Id, Message>
    var deleted: set<Id>
    var first: Option<Fetch>
    var older: Option<Fetch>

    function Snapshot(): Client
      reads this
    {
      Client(items, loaded, live, edited, deleted, first, older)
    }

    /** The history effect: aborts what is under way and asks for the first page. */
    method Restart()
      modifies this
      ensures Snapshot() == Restarted(old(Snapshot()))
    {
      older := None;
      items, loaded := map[], None;
      first := Some(Asked);
    }

    /** The socket event handler. */
    method OnFrame(f: Frame)
      modifies this
      ensures Snapshot() == Handle(old(Snapshot()), f)
      ensures f.Live? && f.event.Saved? ==>
        var m := f.event.message;
        && items == old(items)[m.place.id := m] && live == old(live)[m.place.id := m]
        && edited == old(edited)[m.place.id := m] && deleted == old(deleted)
      ensures f.Live? && f.event.Removed? ==>
        && items == old(items) - {f.event.id} && live == old(live) - {f.event.id}
        && edited == old(edited) && deleted == old(deleted) + {f.event.id}
      ensures f.Ready? ==>
        && items == live == edited == map[] && deleted == old(deleted) && loaded.None? && first == Some(Asked) && older.None?
    {
      match f {
        case Ready =>
          edited, live := map[], map[];
          Restart();
        case Live(Removed(id)) =>
          deleted := deleted + {id};
          live := live - {id};
          items := items - {id};
        case Live(Saved(m)) =>
          live := live[m.place.id := m];
          edited := edited[m.place.id := m];
          items := items[m.place.id := m];
      }
    }

    /** What an answered page becomes: merge, filter, replace by edits. */
    function Incoming(rows: map<Id, Message>, newer: map<Id, Message>): (r: map<Id, Message>)
      reads this
      ensures r == MergedItems(rows, newer, Snapshot())
    {
      var merged := rows + newer;
      var kept := merged - deleted;
      map id | id in kept :: if id in edited then edited[id] else kept[id]
    }

    /** The first page has arrived. */
    method OnFirstPage()
      requires first.Some? && first.value.Served?
      modifies this
      ensures Snapshot() == ShowFirst(old(Snapshot()))
      ensures items.Keys == (old(first).value.rows.Keys + old(live).Keys) - old(deleted)
      ensures forall id <- items ::
        items[id] == if id in old(edited) then old(edited)[id] else if id in old(live) then old(live)[id] else old(first).value.rows[id]
      ensures loaded == Some(old(first).value.next) && first.None?
    {
      items := Incoming(first.value.rows, live);
      loaded := Some(first.value.next);
      first := None;
    }

    /** An older page has arrived. */
    method OnOlderPage()
      requires older.Some? && older.value.Served?
      modifies this
      ensures Snapshot() == ShowOlder(old(Snapshot()))
      ensures items.Keys == (old(older).value.rows.Keys + old(items).Keys) - old(deleted)
      ensures forall id <- items ::
        items[id] == if id in old(edited) then old(edited)[id] else if id in old(items) then old(items)[id] else old(older).value.rows[id]
      ensures loaded == Some(old(older).value.next) && older.None?
    {
      items := Incoming(older.value.rows, items);
      loaded := Some(older.value.next);
      older := None;
    }
  }

  // ----- the steps

  ghost predicate Enabled(w: World, s: Step) {
    match s
    case Insert(m, _) => m.place.id !in w.used
    case Edit(id, _, _) => id in w.table
    case Remove(id, _) => id in w.table
    case Publish(id, k) => k < |Queue(w, id)|
    case Connect => w.stream.None?
    case Disconnect => true
    case Overflow => w.stream.Some?
    case Receive => w.stream.Some? && w.stream.value != []
    case ReceiveLeftover => w.leftover != []
    case Reload => true
    case ServeFirst => w.client.first == Some(Asked) && Identified(w.table)
    case ReceiveFirst => w.client.first.Some? && w.client.first.value.Served?
    case FailFirst => w.client.first.Some?
    case AskOlder => w.client.loaded.Some? && w.client.loaded.value.Some? && w.client.older.None?
    case ServeOlder => w.client.older == Some(Asked) && w.client.loaded.Some? && Identified(w.table)
    case ReceiveOlder => w.client.older.Some? && w.client.older.value.Served?
    case FailOlder => w.client.older.Some?
  }

  /** A commit, with the event that tells of it. */
  function Commit(w: World, table: map<Id, Message>, used: set<Id>, e: Event, announced: bool): World {
    w.(table := table, used := used,
       queues := if announced then w.queues[e.About() := Queue(w, e.About()) + [e]] else w.queues)
  }

  function Edited(w: World, id: Id, text: string): Message
    requires id in w.table
  {
    Item(Place(w.table[id].place.time, id), text)
  }

  function Without<T>(s: seq<T>, k: nat): seq<T>
    requires k < |s|
  {
    s[..k] + s[k + 1..]
  }

  ghost function Next(w: World, s: Step): World
    requires Enabled(w, s)
  {
    match s
    case Insert(m, announced) =>
      Commit(w, w.table[m.place.id := m], w.used + {m.place.id}, Saved(m), announced)
    case Edit(id, text, announced) =>
      Commit(w, w.table[id := Edited(w, id, text)], w.used, Saved(Edited(w, id, text)), announced)
    case Remove(id, announced) => Commit(w, w.table - {id}, w.used, Removed(id), announced)
    case Publish(id, k) =>
      var e := Queue(w, id)[k];
      w.(queues := w.queues[id := Without(Queue(w, id), k)],
        stream := if w.stream.None? then None else Some(w.stream.value + [Live(e)]))
    case Connect => w.(stream := Some([Ready]), leftover := [])
    case Disconnect => w.(stream := None, leftover := [])
    case Overflow => w.(stream := None, leftover := w.stream.value)
    case Receive => w.(stream := Some(w.stream.value[1..]), client := Handle(w.client, w.stream.value[0]))
    case ReceiveLeftover => w.(leftover := w.leftover[1..], client := Handle(w.client, w.leftover[0]))
    case Reload => w.(client := Restarted(w.client))
    case ServeFirst => w.(client := w.client.(first := Some(ServedPage(w.table, None))))
    case ReceiveFirst => w.(client := ShowFirst(w.client))
    case FailFirst => w.(client := w.client.(first := None, items := map[], loaded := None, older := None))
    case AskOlder => w.(client := w.client.(older := Some(Asked)))
    case ServeOlder => w.(client := w.client.(older := Some(ServedPage(w.table, w.client.loaded.value))))
    case ReceiveOlder => w.(client := ShowOlder(w.client))
    case FailOlder => w.(client := w.client.(older := None))
  }

  /** A commit about the message that nobody is told of. */
  predicate Silent(s: Step, id: Id) {
    match s
    case Insert(m, announced) => !announced && m.place.id == id
    case Edit(about, _, announced) => !announced && about == id
    case Remove(gone, announced) => !announced && gone == id
    case _ => false
  }

  /** Commits are announced, and the events of one message published in the order of their
      commits. The code leaves both to timing. */
  predicate Orderly(s: Step) {
    match s
    case Insert(_, announced) => announced
    case Edit(_, _, announced) => announced
    case Remove(_, announced) => announced
    case Publish(_, k) => k == 0
    case _ => true
  }
}
