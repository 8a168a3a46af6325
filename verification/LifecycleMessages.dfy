/** What every message keeps: something to read or something to see. */
module LifecycleMessages {
  import opened Common
  import opened Database
  import opened Lifecycle

  ghost predicate Says(db: Db, id: Id) {
    id in db.messages ==>
      !Blank(db.messages[id].text) || exists p :: p in db.photos && db.photos[p].parent == Parent(Message, id)
  }

  lemma AttachSays(before: Db, after: Db, parent: Parent, news: seq<NewPhoto>, offset: int, now: int, id: Id)
    requires Says(before, id) && Attaches(before, after, parent, news, offset, now)
    requires parent != Parent(Message, id) ==> (id in after.messages ==> id in before.messages && after.messages[id] == before.messages[id])
    requires parent == Parent(Message, id) && id in after.messages ==> news != [] || !Blank(after.messages[id].text)
    ensures Says(after, id)
  {
    if parent == Parent(Message, id) && news != [] {
      assert after.photos[news[0].id] == PhotoRow(parent, offset + 1, news[0]);
    }
  }

  lemma CommitSays<B>(w: World<B>, s: CommitStep, id: Id)
    requires Says(w.db, id) && CommitEnabled(w, s)
    ensures Says(CommitNext(w, s).db, id)
  {
    CommitAttaches(w, s);
    AttachSays(w.db, Committed(w, s).value, ParentOf(s), w.uploads[s.pid].news, OffsetOf(w, s), w.clock, id);
  }

  lemma SwapSays<B>(w: World<B>, s: SwapStep, id: Id)
    requires Says(w.db, id) && SwapEnabled(w, s)
    ensures Says(SwapNext(w, s).db, id)
  {
    SwapReplaces(w, s);
    var after := Swapped(w, s).value;
    assert forall p :: p in w.db.photos ==> p in after.photos && after.photos[p].parent == w.db.photos[p].parent;
  }

  lemma DetachSays(before: Db, after: Db, parent: Parent, now: int, id: Id)
    requires Says(before, id) && Detaches(before, after, parent, now)
    requires id in after.messages ==> parent != Parent(Message, id) && id in before.messages && after.messages[id] == before.messages[id]
    ensures Says(after, id)
  {
  }

  lemma RemovalSays<B>(w: World<B>, s: RemovalStep, id: Id)
    requires Says(w.db, id) && RemovalEnabled(w, s)
    ensures Says(RemovalNext(w, s).db, id)
  {
    RemovalDetaches(w, s);
    DetachSays(w.db, Removed(w, s).value, RemovedParent(s), w.clock, id);
  }

  lemma EditSays(db: Db, machine: int, edited: Id, user: Id, text: string, now: int, id: Id)
    requires Says(db, id) && EditMessage(db, machine, edited, user, text, now).Ok?
    ensures Says(EditMessage(db, machine, edited, user, text, now).value, id)
  {
    EditTouches(db, machine, edited, user, text, now);
    if id == edited && Blank(text) {
      var p :| p in PhotosOf(db, Parent(Message, id));
      assert p in EditMessage(db, machine, edited, user, text, now).value.photos;
    }
  }

  lemma OtherSays<B>(w: World<B>, s: OtherStep, id: Id)
    requires Says(w.db, id) && OtherEnabled(w, s)
    ensures Says(OtherNext(w, s).db, id)
  {
    match s
    case EditText(machine, edited, user, text) => EditSays(w.db, machine, edited, user, text, w.clock, id);
    case _ => assert OtherNext(w, s).db.photos == w.db.photos;
  }

  lemma StepSays<B, T>(f: Files<B, T>, w: World<B>, s: Step<B>, id: Id)
    requires Says(w.db, id) && Enabled(f, w, s)
    ensures Says(Next(f, w, s).db, id)
  {
    match s
    case OfRequest(r) => RequestRows(f, w, r);
    case OfCommit(c) => CommitSays(w, c, id);
    case OfSwap(t) => SwapSays(w, t, id);
    case OfRemoval(m) => RemovalSays(w, m, id);
    case OfWorker(k) => WorkerRows(w, k);
    case Other(o) => OtherSays(w, o, id);
  }

  /** In every interleaving of creations, edits, rotations and removals, every message has
      text that is not blank or at least one photo. */
  lemma {:induction false} RunSays<B, T>(f: Files<B, T>, worlds: seq<World<B>>, steps: seq<Step<B>>, i: nat, id: Id)
    requires Runs(f, worlds, steps) && i < |worlds|
    ensures Says(worlds[i].db, id)
  {
    if i > 0 {
      RunSays(f, worlds, steps, i - 1, id);
      StepSays(f, worlds[i - 1], steps[i - 1], id);
    }
  }
}
