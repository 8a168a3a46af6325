/** Why history and events leave no gap. The first part holds for any order of publication
    and for commits that nobody announces: what the client shows is decided by the last
    word it has about a message. */
module ConversationSafety {
  import opened Common
  import opened Pagination
  import opened Sets
  import opened Conversation

  // ----- what is still to come for one message

  /** What one frame says about a message. */
  function Said(f: Frame, id: Id): (r: seq<Event>)
    ensures forall e <- r :: e.About() == id
  {
    if f.Live? && f.event.About() == id then [f.event] else []
  }

  function Upcoming(frames: seq<Frame>, id: Id): (r: seq<Event>)
    ensures forall e <- r :: e.About() == id
  {
    if frames == [] then [] else Said(frames[0], id) + Upcoming(frames[1..], id)
  }

  function ToCome(w: World, id: Id): seq<Event> {
    (if w.stream.Some? then Upcoming(w.stream.value, id) else []) + Queue(w, id)
  }

  lemma AppendedRest(frames: seq<Frame>, f: Frame)
    requires frames != []
    ensures (frames + [f])[0] == frames[0] && (frames + [f])[1..] == frames[1..] + [f]
  {
  }

  lemma {:induction false} UpcomingAppend(frames: seq<Frame>, f: Frame, id: Id)
    ensures Upcoming(frames + [f], id) == Upcoming(frames, id) + Said(f, id)
  {
    if frames == [] {
      assert (frames + [f])[1..] == [];
    } else {
      UpcomingAppend(frames[1..], f, id);
      AppendedRest(frames, f);
    }
  }

  /** The table is as the event says. */
  predicate Reflects(table: map<Id, Message>, e: Event) {
    match e
    case Saved(m) => m.place.id in table && table[m.place.id] == m
    case Removed(id) => id !in table
  }

  // ----- the last word

  /** The last word that the client has about a message since its subscription was in place,
      and whether a commit about it went unannounced since the client last loaded. */
  datatype Tale = Tale(last: Option<Event>, missed: bool)

  function Read(t: Tale, f: Frame, id: Id): Tale {
    match f
    case Ready => Tale(None, false)
    case Live(e) => if e.About() == id then t.(last := Some(e)) else t
  }

  /** A merged page repeats the removals that the client knows. */
  function Merged(t: Tale, c: Client, id: Id): Tale {
    if id in c.deleted then t.(last := Some(Removed(id))) else t
  }

  ghost function Told(t: Tale, w: World, s: Step, id: Id): Tale
    requires Enabled(w, s)
  {
    match s
    case Receive => Read(t, w.stream.value[0], id)
    case ReceiveLeftover => Read(t, w.leftover[0], id)
    case ReceiveFirst => Merged(t, w.client, id)
    case ReceiveOlder => Merged(t, w.client, id)
    case Reload => t.(missed := false)
    case _ => t.(missed := t.missed || Silent(s, id))
  }

  // ----- the invariant, message by message

  /** A message that was removed, or whose removal is on its way, never comes back. */
  ghost predicate Gone(table: map<Id, Message>, used: set<Id>, id: Id) {
    id !in table && id in used
  }

  ghost predicate Sound(w: World, id: Id) {
    && (id in w.table ==> w.table[id].place.id == id && id in w.used)
    && (forall e <- Queue(w, id) :: e.About() == id)
    && (id in w.client.deleted ==> Gone(w.table, w.used, id))
    && (forall e <- ToCome(w, id) + Upcoming(w.leftover, id) :: e.Removed? ==> Gone(w.table, w.used, id))
    && (w.stream.Some? ==> w.leftover == [])
  }

  /** Every container of the client follows the last word. */
  ghost predicate Follows(c: Client, last: Option<Event>, id: Id) {
    match last
    case None => id !in c.live && id !in c.edited && (id in c.items ==> id !in c.deleted)
    case Some(Saved(m)) =>
      && m.place.id == id && id in c.live && c.live[id] == m && id in c.edited && c.edited[id] == m
      && (c.loaded.Some? ==> id in c.items) && (id in c.items ==> c.items[id] == m)
    case Some(Removed(gone)) => gone == id && id in c.deleted && id !in c.items
  }

  /** How far the client has loaded, and what it is loading. */
  ghost predicate Tidy(c: Client) {
    && (c.older.Some? ==> c.loaded.Some? && c.loaded.value.Some? && c.first.None?)
    && (c.first.Some? ==> c.loaded.None?)
  }

  predicate Same(table: map<Id, Message>, copy: map<Id, Message>, id: Id) {
    id in copy ==> id in table && copy[id] == table[id]
  }

  /** What is shown of the message is current, and it is neither missing above the loaded
      pages nor from a page under way. */
  ghost predicate Current(table: map<Id, Message>, c: Client, id: Id) {
    && Same(table, c.items, id)
    && (c.loaded.Some? && id in table && AtOrAbove(table[id].place, c.loaded.value) ==> id in c.items)
    && (c.first.Some? ==> PageCurrent(table, c.first.value, None, id))
    && (c.older.Some? && c.loaded.Some? ==> PageCurrent(table, c.older.value, c.loaded.value, id))
  }

  ghost predicate PageCurrent(table: map<Id, Message>, f: Fetch, cursor: Option<Place>, id: Id) {
    f.Served? ==>
      && Same(table, f.rows, id)
      && (id in table && IsBelow(table[id].place, cursor) && AtOrAbove(table[id].place, f.next) ==> id in f.rows)
  }

  predicate Synced(w: World) {
    w.stream.Some? && Ready !in w.stream.value
  }

  /** Nothing was said of the message, and nothing is still to be said. */
  ghost predicate Unmentioned(w: World, t: Tale, id: Id) {
    Synced(w) && ToCome(w, id) == [] && t.last.None? && !t.missed
  }

  ghost predicate Inv(w: World, t: Tale, id: Id) {
    && Sound(w, id) && Tidy(w.client) && Follows(w.client, t.last, id)
    && (Unmentioned(w, t, id) ==> Current(w.table, w.client, id))
  }

  // ----- what the client does

  lemma FrameFollows(c: Client, t: Tale, f: Frame, id: Id)
    requires Tidy(c) && Follows(c, t.last, id)
    ensures Tidy(Handle(c, f)) && Follows(Handle(c, f), Read(t, f, id).last, id)
  {
  }

  lemma FirstFollows(c: Client, t: Tale, id: Id)
    requires Tidy(c) && Follows(c, t.last, id) && c.first.Some? && c.first.value.Served?
    ensures Tidy(ShowFirst(c)) && Follows(ShowFirst(c), Merged(t, c, id).last, id)
  {
  }

  lemma OlderFollows(c: Client, t: Tale, id: Id)
    requires Tidy(c) && Follows(c, t.last, id) && c.older.Some? && c.older.value.Served?
    ensures Tidy(ShowOlder(c)) && Follows(ShowOlder(c), Merged(t, c, id).last, id)
  {
  }

  /** A frame about another message. */
  lemma FrameCurrent(table: map<Id, Message>, c: Client, f: Frame, id: Id)
    requires f.Live? ==> f.event.About() != id && Current(table, c, id)
    ensures Current(table, Handle(c, f), id)
  {
  }

  lemma FirstCurrent(table: map<Id, Message>, c: Client, id: Id)
    requires Follows(c, None, id) && id !in c.deleted && Current(table, c, id) && c.first.Some? && c.first.value.Served?
    requires c.older.None?
    ensures Current(table, ShowFirst(c), id)
  {
  }

  lemma OlderCurrent(table: map<Id, Message>, c: Client, id: Id)
    requires Tidy(c) && Follows(c, None, id) && id !in c.deleted && Current(table, c, id)
    requires c.older.Some? && c.older.value.Served?
    ensures Current(table, ShowOlder(c), id)
  {
    if id in table {
      BeforeOrder(table[id].place, c.loaded.value.value, table[id].place);
    }
  }

  lemma ServedCurrent(table: map<Id, Message>, cursor: Option<Place>, id: Id)
    requires Identified(table)
    ensures PageCurrent(table, ServedPage(table, cursor), cursor, id)
  {
    if id in table {
      PageInterval(table, cursor, id);
    }
  }

  // ----- commits

  predicate Agree(table: map<Id, Message>, other: map<Id, Message>, used: set<Id>, others: set<Id>, id: Id) {
    && (id in table <==> id in other)
    && (id in table ==> table[id] == other[id])
    && (id in used <==> id in others)
  }

  lemma CommitToCome(w: World, table: map<Id, Message>, used: set<Id>, e: Event, announced: bool, id: Id)
    ensures var v := Commit(w, table, used, e, announced);
      && ToCome(v, id) == ToCome(w, id) + (if announced && id == e.About() then [e] else [])
      && Queue(v, id) == Queue(w, id) + (if announced && id == e.About() then [e] else [])
      && v == w.(table := table, used := used, queues := v.queues)
  {
  }

  /** Another message. */
  lemma OtherCommitKeeps(w: World, t: Tale, table: map<Id, Message>, used: set<Id>, e: Event, announced: bool, id: Id)
    requires Inv(w, t, id) && id != e.About() && Agree(w.table, table, w.used, used, id)
    ensures Inv(Commit(w, table, used, e, announced), t, id)
  {
    CommitToCome(w, table, used, e, announced, id);
  }

  /** A commit about a message that is there, or new. */
  lemma CommitSound(w: World, table: map<Id, Message>, used: set<Id>, e: Event, announced: bool)
    requires Sound(w, e.About()) && (e.About() in w.table || e.About() !in w.used)
    requires Reflects(table, e) && e.About() in used
    ensures Sound(Commit(w, table, used, e, announced), e.About())
  {
    var id := e.About();
    CommitToCome(w, table, used, e, announced, id);
    assert forall x <- ToCome(w, id) + Upcoming(w.leftover, id) :: !x.Removed?;
  }

  lemma OwnCommitKeeps(w: World, t: Tale, table: map<Id, Message>, used: set<Id>, e: Event, announced: bool, missed: bool)
    requires Inv(w, t, e.About()) && (e.About() in w.table || e.About() !in w.used)
    requires Reflects(table, e) && e.About() in used && (announced || missed)
    ensures Inv(Commit(w, table, used, e, announced), t.(missed := missed), e.About())
  {
    CommitSound(w, table, used, e, announced);
    CommitToCome(w, table, used, e, announced, e.About());
  }

  lemma CommitKeeps(w: World, t: Tale, s: Step, id: Id)
    requires Enabled(w, s) && (s.Insert? || s.Edit? || s.Remove?) && Inv(w, t, id)
    ensures Inv(Next(w, s), Told(t, w, s, id), id)
  {
    var missed := t.missed || Silent(s, id);
    match s {
      case Insert(m, announced) => CommitCase(w, t, w.table[m.place.id := m], w.used + {m.place.id}, Saved(m), announced, missed, id);
      case Edit(about, text, announced) =>
        CommitCase(w, t, w.table[about := Edited(w, about, text)], w.used, Saved(Edited(w, about, text)), announced, missed, id);
      case Remove(gone, announced) => CommitCase(w, t, w.table - {gone}, w.used, Removed(gone), announced, missed, id);
    }
  }

  lemma CommitCase(w: World, t: Tale, table: map<Id, Message>, used: set<Id>, e: Event, announced: bool, missed: bool, id: Id)
    requires Inv(w, t, id) && (e.About() in w.table || e.About() !in w.used) && Reflects(table, e)
    requires id == e.About() ==> id in used && (announced || missed)
    requires id != e.About() ==> Agree(w.table, table, w.used, used, id) && missed == t.missed
    ensures Inv(Commit(w, table, used, e, announced), t.(missed := missed), id)
  {
    if id == e.About() {
      OwnCommitKeeps(w, t, table, used, e, announced, missed);
    } else {
      OtherCommitKeeps(w, t, table, used, e, announced, id);
    }
  }

  // ----- publications and the stream

  lemma PublishedUpcoming(frames: seq<Frame>, e: Event, id: Id)
    ensures Upcoming(frames + [Live(e)], id) == if e.About() == id then Upcoming(frames, id) + [e] else Upcoming(frames, id)
    ensures Ready in frames + [Live(e)] <==> Ready in frames
  {
    UpcomingAppend(frames, Live(e), id);
  }

  /** What is to come before and after a publication, up to its order. */
  lemma PublishToCome(w: World, about: Id, k: nat, id: Id)
    requires k < |Queue(w, about)| && Queue(w, about)[k].About() == about
    ensures var v := Next(w, Publish(about, k));
      && v == w.(queues := v.queues, stream := v.stream) && Synced(v) == Synced(w) && v.stream.Some? == w.stream.Some?
      && (forall e <- Queue(v, id) :: e in Queue(w, id))
      && (forall e <- ToCome(v, id) :: e in ToCome(w, id))
      && (w.stream.Some? ==> |ToCome(v, id)| == |ToCome(w, id)|)
  {
    var queue := Queue(w, about);
    if w.stream.Some? {
      PublishedUpcoming(w.stream.value, queue[k], id);
    }
  }

  lemma PublishKeeps(w: World, t: Tale, about: Id, k: nat, id: Id)
    requires Inv(w, t, id) && k < |Queue(w, about)| && Queue(w, about)[k].About() == about
    ensures Inv(Next(w, Publish(about, k)), t, id)
  {
    PublishToCome(w, about, k, id);
  }

  lemma ReceiveToCome(w: World, id: Id)
    requires Enabled(w, Receive)
    ensures var f := w.stream.value[0]; var v := Next(w, Receive);
      && ToCome(w, id) == Said(f, id) + ToCome(v, id)
      && (f.Live? ==> Synced(v) == Synced(w))
      && v == w.(stream := v.stream, client := Handle(w.client, f)) && v.stream.Some?
  {
    assert w.stream.value == [w.stream.value[0]] + w.stream.value[1..];
  }

  /** The removals that the client knows. */
  lemma ReadSound(w: World, f: Frame, id: Id)
    requires Sound(w, id) && forall e <- Said(f, id) :: e.Removed? ==> Gone(w.table, w.used, id)
    ensures id in Handle(w.client, f).deleted ==> Gone(w.table, w.used, id)
  {
  }

  lemma ReceiveKeeps(w: World, t: Tale, id: Id)
    requires Enabled(w, Receive) && Inv(w, t, id)
    ensures Inv(Next(w, Receive), Told(t, w, Receive, id), id)
  {
    var f := w.stream.value[0];
    ReceiveToCome(w, id);
    ReadSound(w, f, id);
    FrameFollows(w.client, t, f, id);
    if f.Ready? || (f.event.About() != id && Current(w.table, w.client, id)) {
      FrameCurrent(w.table, w.client, f, id);
    }
  }

  lemma LeftoverKeeps(w: World, t: Tale, id: Id)
    requires Enabled(w, ReceiveLeftover) && Inv(w, t, id)
    ensures Inv(Next(w, ReceiveLeftover), Told(t, w, ReceiveLeftover, id), id)
  {
    var f, v := w.leftover[0], Next(w, ReceiveLeftover);
    assert ToCome(w, id) == Queue(w, id) == ToCome(v, id);
    ReadSound(w, f, id);
    FrameFollows(w.client, t, f, id);
  }

  lemma ConnectKeeps(w: World, t: Tale, s: Step, id: Id)
    requires Enabled(w, s) && Inv(w, t, id) && (s.Connect? || s.Disconnect? || s.Overflow?)
    ensures Inv(Next(w, s), t, id)
  {
    var v := Next(w, s);
    assert ToCome(v, id) == Queue(w, id) by {
      assert Upcoming([Ready], id) == [];
    }
    assert !Synced(v);
    assert forall e <- Queue(w, id) :: e in ToCome(w, id);
  }

  // ----- pages

  lemma PagingToCome(w: World, c: Client, id: Id)
    ensures var v := w.(client := c);
      ToCome(v, id) == ToCome(w, id) && Synced(v) == Synced(w) && Queue(v, id) == Queue(w, id)
  {
  }

  /** Pages asked for, or failed. */
  lemma PagingKeeps(w: World, t: Tale, s: Step, id: Id)
    requires Enabled(w, s) && Inv(w, t, id) && (s.Reload? || s.FailFirst? || s.AskOlder? || s.FailOlder?)
    ensures Inv(Next(w, s), Told(t, w, s, id), id)
  {
    PagingToCome(w, Next(w, s).client, id);
  }

  lemma ServeKeeps(w: World, t: Tale, s: Step, id: Id)
    requires Enabled(w, s) && Inv(w, t, id) && (s.ServeFirst? || s.ServeOlder?)
    ensures Inv(Next(w, s), Told(t, w, s, id), id)
  {
    var cursor := if s.ServeFirst? then None else w.client.loaded.value;
    ServedCurrent(w.table, cursor, id);
    if s.ServeFirst? {
      FetchKeeps(w, t, w.client.(first := Some(ServedPage(w.table, None))), id);
    } else {
      FetchKeeps(w, t, w.client.(older := Some(ServedPage(w.table, cursor))), id);
    }
  }

  /** A request that is under way is answered with a current page. */
  lemma FetchKeeps(w: World, t: Tale, c: Client, id: Id)
    requires Inv(w, t, id) && c == w.client.(first := c.first, older := c.older)
    requires c.first.Some? == w.client.first.Some? && c.older.Some? == w.client.older.Some?
    requires c.first == w.client.first || PageCurrent(w.table, c.first.value, None, id)
    requires c.older == w.client.older || (c.loaded.Some? && PageCurrent(w.table, c.older.value, c.loaded.value, id))
    ensures Inv(w.(client := c), t, id)
  {
    PagingToCome(w, c, id);
  }

  lemma ShowKeeps(w: World, t: Tale, s: Step, id: Id)
    requires Enabled(w, s) && Inv(w, t, id) && (s.ReceiveFirst? || s.ReceiveOlder?)
    ensures Inv(Next(w, s), Told(t, w, s, id), id)
  {
    PagingToCome(w, Next(w, s).client, id);
    if s.ReceiveFirst? {
      FirstFollows(w.client, t, id);
      if Unmentioned(w, t, id) && id !in w.client.deleted { FirstCurrent(w.table, w.client, id); }
    } else {
      OlderFollows(w.client, t, id);
      if Unmentioned(w, t, id) && id !in w.client.deleted { OlderCurrent(w.table, w.client, id); }
    }
  }

  /** Every step keeps the invariant of a message, in whatever order events are published
      and whether or not commits are announced. */
  lemma StepKeeps(w: World, t: Tale, s: Step, id: Id)
    requires Enabled(w, s) && Inv(w, t, id) && (s.Publish? ==> Queue(w, s.id)[s.k].About() == s.id)
    ensures Inv(Next(w, s), Told(t, w, s, id), id)
  {
    match s {
      case Insert(_, _) => CommitKeeps(w, t, s, id);
      case Edit(_, _, _) => CommitKeeps(w, t, s, id);
      case Remove(_, _) => CommitKeeps(w, t, s, id);
      case Publish(about, k) => PublishKeeps(w, t, about, k, id);
      case Connect => ConnectKeeps(w, t, s, id);
      case Disconnect => ConnectKeeps(w, t, s, id);
      case Overflow => ConnectKeeps(w, t, s, id);
      case Receive => ReceiveKeeps(w, t, id);
      case ReceiveLeftover => LeftoverKeeps(w, t, id);
      case ReceiveFirst => ShowKeeps(w, t, s, id);
      case ReceiveOlder => ShowKeeps(w, t, s, id);
      case ServeFirst => ServeKeeps(w, t, s, id);
      case ServeOlder => ServeKeeps(w, t, s, id);
      case _ => PagingKeeps(w, t, s, id);
    }
  }

  // ----- runs

  /** Any table at all, and a client that has seen nothing. */
  ghost predicate Starts(w: World) {
    && Identified(w.table) && w.table.Keys <= w.used && w.queues == map[] && w.stream.None? && w.leftover == []
    && w.client == Client(map[], None, map[], map[], {}, None, None)
  }

  ghost predicate Runs(worlds: seq<World>, steps: seq<Step>) {
    && |worlds| == |steps| + 1 && Starts(worlds[0])
    && forall i :: 0 <= i < |steps| ==> Enabled(worlds[i], steps[i]) && worlds[i + 1] == Next(worlds[i], steps[i])
  }

  /** The tale of a message up to a moment of a run. */
  ghost function TaleOf(worlds: seq<World>, steps: seq<Step>, i: nat, id: Id): Tale
    requires Runs(worlds, steps) && i <= |steps|
  {
    if i == 0 then Tale(None, false) else Told(TaleOf(worlds, steps, i - 1, id), worlds[i - 1], steps[i - 1], id)
  }

  lemma {:induction false} RunKeeps(worlds: seq<World>, steps: seq<Step>, i: nat, id: Id)
    requires Runs(worlds, steps) && i <= |steps|
    ensures Inv(worlds[i], TaleOf(worlds, steps, i, id), id)
    decreases i
  {
    if i > 0 {
      RunKeeps(worlds, steps, i - 1, id);
      var w, s := worlds[i - 1], steps[i - 1];
      if s.Publish? {
        RunKeeps(worlds, steps, i - 1, s.id);
      }
      StepKeeps(w, TaleOf(worlds, steps, i - 1, id), s, id);
    } else {
      assert ToCome(worlds[0], id) == [];
    }
  }

  /** The client shows the message as the table has it, as far down as it has loaded. */
  ghost predicate Agrees(w: World, id: Id)
    requires w.client.loaded.Some?
  {
    && Same(w.table, w.client.items, id)
    && (id in w.table && AtOrAbove(w.table[id].place, w.client.loaded.value) ==> id in w.client.items)
  }

  /** The last word decides, at every moment of every run, whatever the order of
      publication and whatever went unannounced: once the client has a word about the
      message, it agrees with the table if and only if that word does. Without one it
      agrees, if nothing about the message is still to come or was never announced. */
  lemma LastWord(worlds: seq<World>, steps: seq<Step>, i: nat, id: Id)
    requires Runs(worlds, steps) && i <= |steps| && worlds[i].client.loaded.Some?
    ensures var w, t := worlds[i], TaleOf(worlds, steps, i, id);
      && (t.last.Some? ==> (Agrees(w, id) <==> Reflects(w.table, t.last.value)))
      && (t.last.None? && !t.missed && Synced(w) && ToCome(w, id) == [] ==> Agrees(w, id))
  {
    RunKeeps(worlds, steps, i, id);
  }

  // ----- orderly runs

  /** When commits are announced and published in order, the last word is the latest. */
  ghost predicate Ordered(w: World, t: Tale, id: Id) {
    && !t.missed
    && (ToCome(w, id) != [] ==> Reflects(w.table, ToCome(w, id)[|ToCome(w, id)| - 1]))
    && (Synced(w) && ToCome(w, id) == [] && t.last.Some? ==> Reflects(w.table, t.last.value))
  }

  lemma MoveFront<T>(front: seq<T>, queue: seq<T>)
    requires queue != []
    ensures (front + [queue[0]]) + queue[1..] == front + queue
  {
    assert queue == [queue[0]] + queue[1..];
  }

  lemma FirstToCome(w: World, about: Id, id: Id)
    requires Queue(w, about) != [] && Queue(w, about)[0].About() == about
    ensures ToCome(Next(w, Publish(about, 0)), id)
         == if w.stream.None? && about == id then ToCome(w, id)[1..] else ToCome(w, id)
  {
    var queue, v := Queue(w, about), Next(w, Publish(about, 0));
    assert Queue(v, about) == queue[1..] && (about != id ==> Queue(v, id) == Queue(w, id));
    if w.stream.Some? {
      PublishedUpcoming(w.stream.value, queue[0], id);
      MoveFront(Upcoming(w.stream.value, about), queue);
    } else {
      assert [] + queue == queue && [] + queue[1..] == queue[1..];
    }
  }

  lemma CommitOrderedCase(w: World, t: Tale, table: map<Id, Message>, used: set<Id>, e: Event, id: Id)
    requires Ordered(w, t, id) && Reflects(table, e) && forall x <- ToCome(w, id) :: x.About() == id
    requires id != e.About() ==> Agree(w.table, table, w.used, used, id)
    requires t.last.Some? ==> t.last.value.About() == id
    ensures Ordered(Commit(w, table, used, e, true), t, id)
  {
    CommitToCome(w, table, used, e, true, id);
    if id == e.About() {
      var all := ToCome(w, id) + [e];
      assert all[|all| - 1] == e;
    } else {
      var all := ToCome(w, id);
      assert all + [] == all;
      if all != [] {
        assert all[|all| - 1] in all;
        ReflectsStill(w.table, table, w.used, used, all[|all| - 1]);
      } else if t.last.Some? && Synced(w) {
        ReflectsStill(w.table, table, w.used, used, t.last.value);
      }
    }
  }

  lemma ReflectsStill(table: map<Id, Message>, other: map<Id, Message>, used: set<Id>, others: set<Id>, e: Event)
    requires Agree(table, other, used, others, e.About()) && Reflects(table, e)
    ensures Reflects(other, e)
  {
  }

  lemma CommitOrdered(w: World, t: Tale, s: Step, id: Id)
    requires Enabled(w, s) && Orderly(s) && (s.Insert? || s.Edit? || s.Remove?) && Inv(w, t, id) && Ordered(w, t, id)
    ensures Ordered(Next(w, s), Told(t, w, s, id), id)
  {
    match s {
      case Insert(m, _) => CommitOrderedCase(w, t, w.table[m.place.id := m], w.used + {m.place.id}, Saved(m), id);
      case Edit(about, text, _) =>
        CommitOrderedCase(w, t, w.table[about := Edited(w, about, text)], w.used, Saved(Edited(w, about, text)), id);
      case Remove(gone, _) => CommitOrderedCase(w, t, w.table - {gone}, w.used, Removed(gone), id);
    }
  }

  lemma PublishOrdered(w: World, t: Tale, about: Id, id: Id)
    requires Inv(w, t, id) && Ordered(w, t, id) && Queue(w, about) != [] && Queue(w, about)[0].About() == about
    ensures Ordered(Next(w, Publish(about, 0)), t, id)
  {
    FirstToCome(w, about, id);
    PublishToCome(w, about, 0, id);
  }

  lemma ReceiveOrdered(w: World, t: Tale, id: Id)
    requires Enabled(w, Receive) && Inv(w, t, id) && Ordered(w, t, id)
    ensures Ordered(Next(w, Receive), Told(t, w, Receive, id), id)
  {
    ReceiveToCome(w, id);
    var rest := ToCome(Next(w, Receive), id);
    if rest != [] {
      assert ToCome(w, id)[|ToCome(w, id)| - 1] == rest[|rest| - 1];
    }
  }

  lemma LeftoverOrdered(w: World, t: Tale, id: Id)
    requires Enabled(w, ReceiveLeftover) && Inv(w, t, id) && Ordered(w, t, id)
    ensures Ordered(Next(w, ReceiveLeftover), Told(t, w, ReceiveLeftover, id), id)
  {
    assert ToCome(w, id) == Queue(w, id) == ToCome(Next(w, ReceiveLeftover), id);
  }

  lemma LastOfBoth<T>(front: seq<T>, rest: seq<T>)
    ensures rest != [] ==> (front + rest)[|front + rest| - 1] == rest[|rest| - 1]
  {
  }

  lemma ConnectOrdered(w: World, t: Tale, s: Step, id: Id)
    requires Enabled(w, s) && Ordered(w, t, id) && (s.Connect? || s.Disconnect? || s.Overflow?)
    ensures Ordered(Next(w, s), t, id)
  {
    var v := Next(w, s);
    assert ToCome(v, id) == Queue(w, id) by {
      assert Upcoming([Ready], id) == [];
    }
    LastOfBoth(if w.stream.Some? then Upcoming(w.stream.value, id) else [], Queue(w, id));
  }

  lemma PagingOrdered(w: World, t: Tale, s: Step, id: Id)
    requires Enabled(w, s) && Inv(w, t, id) && Ordered(w, t, id) && Next(w, s) == w.(client := Next(w, s).client)
    requires !s.Insert? && !s.Edit? && !s.Remove? && !s.Receive? && !s.ReceiveLeftover?
    ensures Ordered(Next(w, s), Told(t, w, s, id), id)
  {
    PagingToCome(w, Next(w, s).client, id);
  }

  lemma StepOrdered(w: World, t: Tale, s: Step, id: Id)
    requires Enabled(w, s) && Orderly(s) && Inv(w, t, id) && Ordered(w, t, id)
    requires s.Publish? ==> Queue(w, s.id)[s.k].About() == s.id
    ensures Ordered(Next(w, s), Told(t, w, s, id), id)
  {
    match s {
      case Insert(_, _) => CommitOrdered(w, t, s, id);
      case Edit(_, _, _) => CommitOrdered(w, t, s, id);
      case Remove(_, _) => CommitOrdered(w, t, s, id);
      case Publish(about, _) => PublishOrdered(w, t, about, id);
      case Connect => ConnectOrdered(w, t, s, id);
      case Disconnect => ConnectOrdered(w, t, s, id);
      case Overflow => ConnectOrdered(w, t, s, id);
      case Receive => ReceiveOrdered(w, t, id);
      case ReceiveLeftover => LeftoverOrdered(w, t, id);
      case _ => PagingOrdered(w, t, s, id);
    }
  }

  lemma {:induction false} RunOrdered(worlds: seq<World>, steps: seq<Step>, i: nat, id: Id)
    requires Runs(worlds, steps) && i <= |steps| && forall j :: 0 <= j < i ==> Orderly(steps[j])
    ensures Ordered(worlds[i], TaleOf(worlds, steps, i, id), id)
  {
    if i > 0 {
      RunOrdered(worlds, steps, i - 1, id);
      RunKeeps(worlds, steps, i - 1, id);
      var s := steps[i - 1];
      if s.Publish? {
        RunKeeps(worlds, steps, i - 1, s.id);
      }
      StepOrdered(worlds[i - 1], TaleOf(worlds, steps, i - 1, id), s, id);
    } else {
      assert ToCome(worlds[0], id) == [];
    }
  }

  /** No gap between history and events: on a live subscription every message of the
      table is shown as it is, or something about it is still to come on this very
      subscription or to be published, or it lies below the loaded pages, or the first
      page is still to come. Nothing else is shown. */
  lemma NoGap(worlds: seq<World>, steps: seq<Step>, i: nat, id: Id)
    requires Runs(worlds, steps) && i <= |steps| && forall j :: 0 <= j < i ==> Orderly(steps[j])
    requires Synced(worlds[i])
    ensures var w := worlds[i]; var c := w.client;
      && (id in w.table ==>
            || (id in c.items && c.items[id] == w.table[id])
            || ToCome(w, id) != []
            || c.loaded.None?
            || !AtOrAbove(w.table[id].place, c.loaded.value))
      && (id in c.items ==> ToCome(w, id) != [] || (id in w.table && c.items[id] == w.table[id]))
  {
    RunKeeps(worlds, steps, i, id);
    RunOrdered(worlds, steps, i, id);
  }

  /** A live subscription with nothing to come and every page loaded. */
  ghost predicate Settled(w: World) {
    Synced(w) && (forall id :: ToCome(w, id) == []) && w.client.loaded == Some(None)
  }

  /** When everything has arrived and every page is loaded, the client shows the table. */
  lemma Converges(worlds: seq<World>, steps: seq<Step>, i: nat)
    requires Runs(worlds, steps) && i <= |steps| && forall j :: 0 <= j < i ==> Orderly(steps[j])
    requires Settled(worlds[i])
    ensures worlds[i].client.items == worlds[i].table
  {
    forall id ensures id in worlds[i].client.items <==> id in worlds[i].table {
      NoGap(worlds, steps, i, id);
    }
    forall id | id in worlds[i].table ensures worlds[i].client.items[id] == worlds[i].table[id] {
      NoGap(worlds, steps, i, id);
    }
  }

  /** Connected, and the word that the subscription is in place has been read. */
  ghost function Welcomed(w: World): (r: World)
    requires w.stream.None?
    ensures r.stream == Some([]) && r.table == w.table && r.queues == w.queues && r.client.first == Some(Asked)
  {
    var connected := Next(w, Connect);
    assert connected.stream.value == [Ready] && connected.stream.value[1..] == [];
    Next(connected, Receive)
  }

  /** Then the first page has been served and shown. */
  ghost function Loaded(w: World): (r: World)
    requires w.stream.None? && Identified(w.table)
    ensures r.stream == Some([]) && r.table == w.table && r.queues == w.queues
    ensures r.client.loaded == Some(ServedPage(w.table, None).next)
  {
    Next(Next(Welcomed(w), ServeFirst), ReceiveFirst)
  }

  /** The run goes on with one more step. */
  lemma GoOn(worlds: seq<World>, steps: seq<Step>, s: Step, next: World) returns (more: seq<World>, longer: seq<Step>)
    requires Runs(worlds, steps) && Enabled(worlds[|steps|], s) && next == Next(worlds[|steps|], s)
    ensures Runs(more, longer) && longer == steps + [s] && more == worlds + [next]
  {
    more, longer := worlds + [next], steps + [s];
    forall i | 0 <= i < |longer|
      ensures Enabled(more[i], longer[i]) && more[i + 1] == Next(more[i], longer[i])
    {
      if i < |steps| {
        assert more[i] == worlds[i] && more[i + 1] == worlds[i + 1] && longer[i] == steps[i];
      }
    }
  }

  lemma WelcomedRuns(w: World) returns (worlds: seq<World>, steps: seq<Step>)
    requires Starts(w)
    ensures Runs(worlds, steps) && worlds[0] == w && steps == [Connect, Receive] && worlds[2] == Welcomed(w)
  {
    worlds, steps := GoOn([w], [], Connect, Next(w, Connect));
    worlds, steps := GoOn(worlds, steps, Receive, Welcomed(w));
  }

  lemma LoadedRuns(w: World) returns (worlds: seq<World>, steps: seq<Step>)
    requires Starts(w)
    ensures Runs(worlds, steps) && worlds[0] == w && steps == [Connect, Receive, ServeFirst, ReceiveFirst] && worlds[4] == Loaded(w)
  {
    var welcomed := Welcomed(w);
    worlds, steps := WelcomedRuns(w);
    worlds, steps := GoOn(worlds, steps, ServeFirst, Next(welcomed, ServeFirst));
    worlds, steps := GoOn(worlds, steps, ReceiveFirst, Loaded(w));
  }

  /** A table that fits one page is shown after the first connection. */
  lemma FirstLoad(w: World)
    requires Starts(w) && |w.table| <= PAGE
    ensures exists worlds: seq<World>, steps: seq<Step> ::
      Runs(worlds, steps) && |worlds| == 5 && worlds[0] == w && Settled(worlds[4]) && worlds[4].client.items == w.table
  {
    OnePage(w.table);
    NothingToCome(Loaded(w));
    var worlds, steps := LoadedRuns(w);
    Converges(worlds, steps, 4);
  }

  lemma NothingToCome(w: World)
    requires w.stream == Some([]) && w.queues == map[]
    ensures forall id :: ToCome(w, id) == []
  {
  }

  lemma OnePage(table: map<Id, Message>)
    requires Identified(table) && |table| <= PAGE
    ensures ServedPage(table, None).next == None
  {
    RowsKeyed(table);
    PageSplits(Rows(table), None, PAGE);
    assert Below(Rows(table), None) == Rows(table);
    RowsSize(table);
  }

  lemma {:induction false} RowsSize(table: map<Id, Message>)
    ensures |Rows(table)| <= |table|
    decreases |table|
  {
    if id :| id in table {
      var rest := table - {id};
      RowsSize(rest);
      forall x | x in Rows(table) ensures x in Rows(rest) + {table[id]} {
        var k :| k in table && table[k] == x;
        assert k != id ==> k in rest && rest[k] == x;
      }
      SubsetOfSameSize(Rows(table), Rows(rest) + {table[id]});
      assert table.Keys == rest.Keys + {id};
    }
  }

  // ----- where order and announcement matter

  /** The waiting events in the order of their publication: each time, which of those that
      are left. */
  predicate Picks(queue: seq<Event>, order: seq<nat>)
    decreases |queue|
  {
    if queue == [] then order == []
    else order != [] && order[0] < |queue| && Picks(Without(queue, order[0]), order[1..])
  }

  function InOrder(queue: seq<Event>, order: seq<nat>): (r: seq<Event>)
    requires Picks(queue, order)
    ensures |r| == |queue| && forall e <- r :: e in queue
    decreases |queue|
  {
    if queue == [] then [] else [queue[order[0]]] + InOrder(Without(queue, order[0]), order[1..])
  }

  function Frames(events: seq<Event>): (r: seq<Frame>)
    ensures |r| == |events|
  {
    seq(|events|, i requires 0 <= i < |events| => Live(events[i]))
  }

  /** All waiting events of a message are published. */
  ghost function PublishAll(w: World, id: Id, order: seq<nat>): World
    requires Picks(Queue(w, id), order)
    decreases |order|
  {
    if order == [] then w else PublishAll(Next(w, Publish(id, order[0])), id, order[1..])
  }

  /** All frames of the stream are read. */
  ghost function ReadAll(w: World): World
    requires w.stream.Some?
    decreases |w.stream.value|
  {
    if w.stream.value == [] then w else ReadAll(Next(w, Receive))
  }

  lemma {:induction false} AllPublished(w: World, id: Id, order: seq<nat>)
    requires w.stream.Some? && Picks(Queue(w, id), order)
    ensures var v := PublishAll(w, id, order);
      && v.stream == Some(w.stream.value + Frames(InOrder(Queue(w, id), order)))
      && Queue(v, id) == [] && v.table == w.table && v.client == w.client
    decreases |order|
  {
    var queue := Queue(w, id);
    if queue == [] {
      assert w.stream.value + Frames([]) == w.stream.value;
    } else {
      var x, rest := Next(w, Publish(id, order[0])), Without(queue, order[0]);
      assert Queue(x, id) == rest;
      AllPublished(x, id, order[1..]);
      var e := queue[order[0]];
      assert Frames([e] + InOrder(rest, order[1..])) == [Live(e)] + Frames(InOrder(rest, order[1..]));
      assert x.stream.value + Frames(InOrder(rest, order[1..])) == w.stream.value + Frames(InOrder(queue, order));
    }
  }

  lemma {:induction false} AllRead(w: World, id: Id, events: seq<Event>)
    requires w.stream == Some(Frames(events)) && events != [] && forall e <- events :: e.About() == id
    ensures var v := ReadAll(w);
      && v.stream == Some([]) && v.queues == w.queues && v.table == w.table
      && match events[|events| - 1]
         case Saved(m) => id in v.client.items && v.client.items[id] == m
         case Removed(_) => id !in v.client.items
    decreases |events|
  {
    var x := Next(w, Receive);
    assert x.stream.value == Frames(events[1..]);
    assert w.stream.value[0] == Live(events[0]) && events[0] in events;
    assert ReadAll(w) == ReadAll(x);
    if |events| == 1 {
      assert x.stream.value == [] && ReadAll(x) == x;
    } else {
      AllRead(x, id, events[1..]);
      assert events[1..][|events| - 2] == events[|events| - 1];
    }
  }

  /** Any number of commits of one message wait to be published, the last of them is what the
      table holds, and nothing else is to come. In whatever order they are published and
      read, the client shows the table's state of the message if and only if the last one
      published says what the last commit says. */
  lemma PublicationOrder(w: World, id: Id, order: seq<nat>)
    requires w.stream == Some([]) && Queue(w, id) != [] && Picks(Queue(w, id), order)
    requires forall e <- Queue(w, id) :: e.About() == id
    requires Reflects(w.table, Queue(w, id)[|Queue(w, id)| - 1])
    ensures PublishAll(w, id, order).stream.Some?
    ensures var v, events := ReadAll(PublishAll(w, id, order)), InOrder(Queue(w, id), order);
      && ToCome(v, id) == [] && v.table == w.table
      && ((id in v.client.items <==> id in w.table) && Same(w.table, v.client.items, id)
          <==> events[|events| - 1] == Queue(w, id)[|Queue(w, id)| - 1])
  {
    AllPublished(w, id, order);
    var events := InOrder(Queue(w, id), order);
    assert [] + Frames(events) == Frames(events);
    AllRead(PublishAll(w, id, order), id, events);
    assert events[|events| - 1] in events && Queue(w, id)[|Queue(w, id)| - 1] in Queue(w, id);
    OneReflects(w.table, events[|events| - 1], Queue(w, id)[|Queue(w, id)| - 1]);
  }

  /** A table is as exactly one event about a message says. */
  lemma OneReflects(table: map<Id, Message>, e: Event, latest: Event)
    requires e.About() == latest.About() && Reflects(table, latest)
    ensures Reflects(table, e) <==> e == latest
  {
  }

  /** Two edits are committed one after the other. */
  lemma EditedTwice(w: World, id: Id, first: string, second: string)
    requires id in w.table && Queue(w, id) == []
    ensures var v := Next(Next(w, Edit(id, first, true)), Edit(id, second, true));
      && Queue(v, id) == [Saved(Edited(w, id, first)), Saved(Edited(w, id, second))]
      && v == w.(table := v.table, queues := v.queues) && id in v.table && v.table[id] == Edited(w, id, second)
  {
  }

  /** The second is published first. */
  lemma PublishSwapped(w: World, id: Id, e1: Event, e2: Event)
    requires w.stream == Some([]) && Queue(w, id) == [e1, e2]
    ensures Enabled(w, Publish(id, 1)) && Enabled(Next(w, Publish(id, 1)), Publish(id, 0))
    ensures var x := Next(Next(w, Publish(id, 1)), Publish(id, 0));
      x.stream == Some([Live(e2), Live(e1)]) && Queue(x, id) == [] && x.client == w.client && x.table == w.table
  {
    var y := Next(w, Publish(id, 1));
    assert Queue(y, id) == [e1] && y.stream.value == [Live(e2)];
    var x := Next(y, Publish(id, 0));
    assert Queue(x, id) == [] && x.stream.value == [Live(e2), Live(e1)];
  }

  /** And both events are read. */
  lemma ReadBoth(x: World, id: Id, e1: Event, e2: Event)
    requires x.stream == Some([Live(e1), Live(e2)]) && Queue(x, id) == []
    ensures Enabled(x, Receive) && Enabled(Next(x, Receive), Receive)
    ensures var v := Next(Next(x, Receive), Receive);
      v.stream == Some([]) && ToCome(v, id) == [] && v.table == x.table && v.client == Handle(Handle(x.client, Live(e1)), Live(e2))
  {
    var z := Next(x, Receive);
    assert z.stream.value == [Live(e2)];
    assert Next(z, Receive).stream.value == [];
  }

  /** The client has loaded, and two edits of a message wait to be published. */
  lemma EditsWaiting(w: World, id: Id, older: string, newer: string) returns (worlds: seq<World>, steps: seq<Step>, e1: Event, e2: Event)
    requires Starts(w) && id in w.table
    ensures Runs(worlds, steps) && worlds[0] == w
    ensures steps == [Connect, Receive, ServeFirst, ReceiveFirst, Edit(id, older, true), Edit(id, newer, true)]
    ensures e1.Saved? && e1.message.place.id == id && e1.message.data == older
    ensures e2.Saved? && e2.message.place.id == id && e2.message.data == newer
    ensures var v := worlds[6];
      && v.stream == Some([]) && Queue(v, id) == [e1, e2] && v.client.loaded.Some? && id in v.table && v.table[id] == e2.message
  {
    var l := Loaded(w);
    worlds, steps := LoadedRuns(w);
    assert Queue(l, id) == [];
    EditedTwice(l, id, older, newer);
    e1, e2 := Saved(Edited(l, id, older)), Saved(Edited(l, id, newer));
    var edited := Next(l, Edit(id, older, true));
    worlds, steps := GoOn(worlds, steps, Edit(id, older, true), edited);
    worlds, steps := GoOn(worlds, steps, Edit(id, newer, true), Next(edited, Edit(id, newer, true)));
  }

  lemma SwappedShown(c: Client, e1: Event, e2: Event)
    requires e1.Saved? && e2.Saved? && e1.About() == e2.About()
    ensures var d := Handle(Handle(c, Live(e2)), Live(e1));
      e1.About() in d.items && d.items[e1.About()] == e1.message && d.loaded == c.loaded
  {
  }

  /** A run goes on with the reading of two events. */
  lemma ReadTwo(worlds: seq<World>, steps: seq<Step>, id: Id, e1: Event, e2: Event) returns (more: seq<World>, longer: seq<Step>)
    requires Runs(worlds, steps) && worlds[|steps|].stream == Some([Live(e1), Live(e2)]) && Queue(worlds[|steps|], id) == []
    ensures Runs(more, longer) && longer == steps + [Receive, Receive] && more[0] == worlds[0]
    ensures var x, v := worlds[|steps|], more[|longer|];
      && v.stream == Some([]) && ToCome(v, id) == [] && v.table == x.table
      && v.client == Handle(Handle(x.client, Live(e1)), Live(e2))
  {
    var x := worlds[|steps|];
    ReadBoth(x, id, e1, e2);
    more, longer := GoOn(worlds, steps, Receive, Next(x, Receive));
    more, longer := GoOn(more, longer, Receive, Next(Next(x, Receive), Receive));
  }

  /** It happens: from any start with a message in the table, two edits that are published in
      the wrong order leave a live, loaded client with the older text, and with nothing to
      come. */
  lemma StaleRun(w: World, id: Id, older: string, newer: string) returns (worlds: seq<World>, steps: seq<Step>)
    requires Starts(w) && id in w.table && older != newer
    ensures Runs(worlds, steps) && worlds[0] == w
    ensures steps == [Connect, Receive, ServeFirst, ReceiveFirst, Edit(id, older, true), Edit(id, newer, true),
                      Publish(id, 1), Publish(id, 0), Receive, Receive]
    ensures var v := worlds[10];
      && Synced(v) && ToCome(v, id) == [] && v.client.loaded.Some?
      && id in v.table && v.table[id].data == newer && id in v.client.items && v.client.items[id].data == older
  {
    var e1, e2;
    worlds, steps, e1, e2 := EditsWaiting(w, id, older, newer);
    var w6 := worlds[6];
    PublishSwapped(w6, id, e1, e2);
    SwappedShown(w6.client, e1, e2);
    var w7 := Next(w6, Publish(id, 1));
    var w8 := Next(w7, Publish(id, 0));
    worlds, steps := GoOn(worlds, steps, Publish(id, 1), w7);
    worlds, steps := GoOn(worlds, steps, Publish(id, 0), w8);
    worlds, steps := ReadTwo(worlds, steps, id, e2, e1);
  }

  /** A commit whose answer was lost is not announced. A client that agreed with the table,
      with nothing to come, disagrees after it if and only if the commit put a message
      into the range it has loaded, changed the text of one that it shows, or removed one
      that it shows; and nothing is on its way that would tell it. */
  lemma Unannounced(worlds: seq<World>, steps: seq<Step>, i: nat, s: Step, id: Id)
    requires Runs(worlds, steps) && i <= |steps| && worlds[i].client.loaded.Some?
    requires ToCome(worlds[i], id) == [] && Agrees(worlds[i], id) && Enabled(worlds[i], s) && Silent(s, id)
    ensures var w := worlds[i]; var v := Next(w, s);
      && ToCome(v, id) == [] && v.client == w.client
      && (!Agrees(v, id) <==>
          match s
          case Insert(m, _) => AtOrAbove(m.place, w.client.loaded.value)
          case Edit(_, text, _) => id in w.client.items && text != w.table[id].data
          case Remove(_, _) => id in w.client.items)
  {
    var w := worlds[i];
    RunKeeps(worlds, steps, i, id);
    match s {
      case Insert(m, _) =>
        CommitToCome(w, w.table[id := m], w.used + {id}, Saved(m), false, id);
        assert id !in w.client.items;
      case Edit(_, text, _) =>
        CommitToCome(w, w.table[id := Edited(w, id, text)], w.used, Saved(Edited(w, id, text)), false, id);
        assert Edited(w, id, text).place == w.table[id].place;
        assert Edited(w, id, text) == w.table[id] <==> text == w.table[id].data;
      case Remove(_, _) =>
        CommitToCome(w, w.table - {id}, w.used, Removed(id), false, id);
    }
  }

  /** It happens: a client that shows the whole table goes on without a message whose
      creation was not announced, and with nothing to come. */
  lemma ForgottenRun(w: World, m: Message) returns (worlds: seq<World>, steps: seq<Step>)
    requires Starts(w) && |w.table| <= PAGE && m.place.id !in w.used
    ensures Runs(worlds, steps) && worlds[0] == w
    ensures steps == [Connect, Receive, ServeFirst, ReceiveFirst, Insert(m, false)] && worlds[4].client.items == w.table
    ensures Settled(worlds[5]) && m.place.id in worlds[5].table && m.place.id !in worlds[5].client.items
  {
    var l := Loaded(w);
    worlds, steps := LoadedRuns(w);
    OnePage(w.table);
    NothingToCome(l);
    Converges(worlds, steps, 4);
    worlds, steps := GoOn(worlds, steps, Insert(m, false), Next(l, Insert(m, false)));
    NothingToCome(worlds[5]);
  }
}
