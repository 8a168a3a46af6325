/** Keys move only forward, queue inserts never conflict, and when an object can leak. */
module LifecycleLeaks {
  import opened Common
  import opened Turns
  import opened Database
  import opened Lifecycle
  import opened LifecycleSafety

  // ----- the phases of a key

  datatype Phase = Unissued | Reserved | Named | Queued | Claimed | Gone

  function Rank(phase: Phase): nat {
    match phase
    case Unissued => 0
    case Reserved => 1
    case Named => 2
    case Queued => 3
    case Claimed => 4
    case Gone => 5
  }

  function PhaseOf<B>(w: World<B>, key: Key): Phase {
    if key !in w.content then Unissued
    else if key in Attached(w.db) then Named
    else if key !in w.db.deletions then Gone
    else if w.db.deletions[key].claimed then Claimed
    else if key in w.detached then Queued
    else Reserved
  }

  /** A reservation is promoted or claimed, a named key is queued, a queued one is
      claimed, a claimed one goes: nothing else, and nothing back. */
  predicate Forward(a: Phase, b: Phase) {
    || a == b
    || (a.Unissued? && b.Reserved?)
    || (a.Reserved? && (b.Named? || b.Claimed?))
    || (a.Named? && b.Queued?)
    || (a.Queued? && b.Claimed?)
    || (a.Claimed? && b.Gone?)
  }

  lemma ReserveForward<B>(w: World<B>, x: World<B>, keys: seq<Key>, expires: int, k: Key)
    requires KeyInv(w) && Distinct(keys) && forall y <- keys :: Fresh(w, y)
    requires x.db == Reserve(w, keys, expires) && x.content.Keys == w.content.Keys + SetOf(keys) && x.detached == w.detached
    ensures Forward(PhaseOf(w, k), PhaseOf(x, k))
  {
    FreshReserve(w, keys, expires);
    AttachedIssued(w);
    assert Attached(x.db) == Attached(w.db);
  }

  lemma AttachedIssued<B>(w: World<B>)
    requires KeyInv(w)
    ensures forall k <- Attached(w.db) :: k in w.content && k !in w.db.deletions
  {
    forall k <- Attached(w.db) ensures k in w.content && k !in w.db.deletions {
      var p :| p in w.db.photos && w.db.photos[p].key == k;
      assert RowSafe(w, w.db.photos[p].key);
    }
  }

  lemma AttachForward<B>(w: World<B>, pid: nat, db: Db, parent: Parent, offset: int, k: Key)
    requires KeyInv(w) && Ready(w, pid, false)
    requires Attaches(w.db, db, parent, w.uploads[pid].news, offset, w.clock)
    ensures Forward(PhaseOf(w, k), PhaseOf(Attach(w, pid, db), k))
  {
    var u := w.uploads[pid];
    AttachedIssued(w);
    AttachedGrows(w.db, db, parent, u.news, offset, w.clock);
    StillAttached(w.db, db, parent, u.news, offset, w.clock);
    if k in SetOf(KeysOf(u.news)) {
      assert UploadSound(w, u);
      assert Promotable(w.db, k, w.clock);
      NotDetached(w, u, k);
    }
  }

  /** The keys named after an attachment. */
  lemma StillAttached(before: Db, after: Db, parent: Parent, news: seq<NewPhoto>, offset: int, now: int)
    requires Attaches(before, after, parent, news, offset, now)
    ensures Attached(before) <= Attached(after) && SetOf(KeysOf(news)) <= Attached(after)
    ensures forall k <- SetOf(KeysOf(news)) :: Promotable(before, k, now)
  {
    forall k | k in SetOf(KeysOf(news)) ensures k in Attached(after) && Promotable(before, k, now) {
      var i :| 0 <= i < |news| && KeysOf(news)[i] == k;
      assert after.photos[news[i].id].key == k;
    }
    forall k | k in Attached(before) ensures k in Attached(after) {
      var p :| p in before.photos && before.photos[p].key == k;
      assert after.photos[p].key == k;
    }
  }

  lemma NotDetached<B>(w: World<B>, u: Upload<B>, k: Key)
    requires UploadSound(w, u) && k in SetOf(KeysOf(u.news))
    ensures k !in w.detached && k in w.content && k !in Attached(w.db)
  {
    var i :| 0 <= i < |u.news| && KeysOf(u.news)[i] == k;
    assert KeySound(w, u, i);
  }

  lemma RotationForward<B>(w: World<B>, x: World<B>, pid: nat, k: Key)
    requires KeyInv(w) && KeyInv(x) && Ready(w, pid, true)
    requires var u := w.uploads[pid]; var r := u.rotation.value;
      Replaces(w.db, x.db, r.photo, r.original, u.news[0], r.degrees, w.clock)
      && x.detached == w.detached + {r.original.key}
    requires x.content == w.content
    ensures Forward(PhaseOf(w, k), PhaseOf(x, k))
  {
    var u := w.uploads[pid];
    var r := u.rotation.value;
    AttachedIssued(w);
    AttachedIssued(x);
    RotationAttached(w.db, x.db, r.photo, r.original, u.news[0], r.degrees, w.clock);
    StillNamed(w.db, x.db, r.photo, r.original, u.news[0], r.degrees, w.clock);
    assert UploadSound(w, u);
    PromotedIsStored(w, u, 0);
  }

  /** The keys named after a rotation. */
  lemma StillNamed(before: Db, after: Db, photo: Id, original: Photo, updated: NewPhoto, degrees: int, now: int)
    requires Replaces(before, after, photo, original, updated, degrees, now)
    ensures updated.key in Attached(after) && original.key in Attached(before)
    ensures forall k :: k in Attached(before) && k != original.key ==> k in Attached(after)
  {
    assert after.photos[photo].key == updated.key && before.photos[photo].key == original.key;
    forall k | k in Attached(before) && k != original.key ensures k in Attached(after) {
      var p :| p in before.photos && before.photos[p].key == k;
      assert after.photos[p].key == k;
    }
  }

  lemma RemoveForward<B>(w: World<B>, parent: Parent, db: Db, k: Key)
    requires KeyInv(w) && Detaches(w.db, db, parent, w.clock) && KeyInv(Remove(w, parent, db))
    ensures Forward(PhaseOf(w, k), PhaseOf(Remove(w, parent, db), k))
  {
    var x := Remove(w, parent, db);
    AttachedIssued(w);
    AttachedIssued(x);
    assert Attached(x.db) <= Attached(w.db);
    assert KeysUnder(w.db, parent) <= Attached(w.db);
    if k in Attached(w.db) && k !in KeysUnder(w.db, parent) {
      var p :| p in w.db.photos && w.db.photos[p].key == k;
      assert x.db.photos[p].key == k;
    }
  }

  lemma RequestForward<B, T>(f: Files<B, T>, w: World<B>, s: RequestStep<B>, k: Key)
    requires KeyInv(w) && RequestEnabled(f, w, s)
    ensures Forward(PhaseOf(w, k), PhaseOf(RequestNext(f, w, s), k))
  {
    var x := RequestNext(f, w, s);
    match s
    case Begin(pid, news, files, expires, alive) =>
      ContentsFiles(news, files);
      ReserveForward(w, x, KeysOf(news), expires, k);
    case BeginRotation(pid, r, updated, expires, alive) =>
      assert SetOf([updated.key]) == {updated.key};
      ReserveForward(w, x, [updated.key], expires, k);
    case _ => assert Attached(x.db) == Attached(w.db);
  }

  lemma CommitForward<B>(w: World<B>, s: CommitStep, k: Key)
    requires KeyInv(w) && CommitEnabled(w, s)
    ensures Forward(PhaseOf(w, k), PhaseOf(CommitNext(w, s), k))
  {
    CommitAttaches(w, s);
    AttachForward(w, s.pid, Committed(w, s).value, ParentOf(s), OffsetOf(w, s), k);
  }

  lemma SwapForward<B>(w: World<B>, s: SwapStep, k: Key)
    requires KeyInv(w) && SwapEnabled(w, s)
    ensures Forward(PhaseOf(w, k), PhaseOf(SwapNext(w, s), k))
  {
    SwapReplaces(w, s);
    SwapKeeps(w, s);
    RotationForward(w, SwapNext(w, s), s.pid, k);
  }

  lemma RemovalForward<B>(w: World<B>, s: RemovalStep, k: Key)
    requires KeyInv(w) && RemovalEnabled(w, s)
    ensures Forward(PhaseOf(w, k), PhaseOf(RemovalNext(w, s), k))
  {
    RemovalDetaches(w, s);
    RemovalKeeps(w, s);
    RemoveForward(w, RemovedParent(s), Removed(w, s).value, k);
  }

  lemma WorkerForward<B>(w: World<B>, s: WorkerStep, k: Key)
    requires WorkerEnabled(w, s)
    ensures Forward(PhaseOf(w, k), PhaseOf(WorkerNext(w, s), k))
  {
    assert Attached(WorkerNext(w, s).db) == Attached(w.db);
  }

  lemma OtherForward<B>(w: World<B>, s: OtherStep, k: Key)
    requires OtherEnabled(w, s)
    ensures PhaseOf(w, k) == PhaseOf(OtherNext(w, s), k)
  {
    assert Attached(OtherNext(w, s).db) == Attached(w.db);
  }

  lemma StepForward<B, T>(f: Files<B, T>, w: World<B>, s: Step<B>, k: Key)
    requires KeyInv(w) && Enabled(f, w, s)
    ensures Forward(PhaseOf(w, k), PhaseOf(Next(f, w, s), k))
  {
    match s
    case OfRequest(r) => RequestForward(f, w, r, k);
    case OfCommit(c) => CommitForward(w, c, k);
    case OfSwap(t) => SwapForward(w, t, k);
    case OfRemoval(m) => RemovalForward(w, m, k);
    case OfWorker(p) => WorkerForward(w, p, k);
    case Other(o) => OtherForward(w, o, k);
  }

  /** Over any run a key never returns to an earlier phase. */
  lemma {:induction false} KeysMoveForward<B, T>(f: Files<B, T>, worlds: seq<World<B>>, steps: seq<Step<B>>, i: nat, j: nat, k: Key)
    requires Runs(f, worlds, steps) && i <= j < |worlds|
    ensures Rank(PhaseOf(worlds[i], k)) <= Rank(PhaseOf(worlds[j], k))
    ensures i < j ==> Forward(PhaseOf(worlds[j - 1], k), PhaseOf(worlds[j], k))
  {
    if i < j {
      KeysMoveForward(f, worlds, steps, i, j - 1, k);
      RunKeeps(f, worlds, steps, j - 1);
      StepForward(f, worlds[j - 1], steps[j - 1], k);
    }
  }

  // ----- inserts into the queue never conflict

  /** A logbook can be removed exactly when it exists. */
  lemma RemovalNeverConflicts<B>(w: World<B>, id: Id)
    requires KeyInv(w)
    ensures Delete(w.db, id, w.clock).Ok? <==> id in w.db.books
  {
    AttachedIssued(w);
    assert KeysUnder(w.db, Parent(Logbook, id)) <= Attached(w.db);
  }

  /** A message can be removed exactly by its author. */
  lemma MessageRemovalNeverConflicts<B>(w: World<B>, machine: int, id: Id, user: Id)
    requires KeyInv(w)
    ensures DeleteMessage(w.db, machine, id, user, w.clock).Ok? <==>
      && id in w.db.messages && w.db.messages[id].machine == machine && machine in w.db.machines
      && w.db.messages[id].author == user
  {
    AttachedIssued(w);
    assert KeysUnder(w.db, Parent(Message, id)) <= Attached(w.db);
  }

  /** A rotation whose file is stored commits exactly when the angle is legal, the parent is
      there and the photo under it, the user is an admin or the uploader, the photo is the
      one that was read, and the reservation was neither claimed nor has expired. */
  lemma RotationNeverConflicts<B>(w: World<B>, pid: nat, user: Id, admin: bool, machine: int)
    requires KeyInv(w) && Ready(w, pid, true)
    ensures var u := w.uploads[pid]; var r := u.rotation.value; var photos := w.db.photos; var key := u.news[0].key;
      Swapped(w, Swap(pid, user, admin, machine)).Ok? <==>
        && (r.degrees == 90 || r.degrees == 180 || r.degrees == -90)
        && (r.original.parent.kind.Logbook? ==> r.original.parent.id in w.db.books)
        && (r.original.parent.kind.Message? ==>
              && r.original.parent.id in w.db.messages
              && w.db.messages[r.original.parent.id].machine == machine && machine in w.db.machines)
        && r.photo in photos && photos[r.photo].parent == r.original.parent
        && (admin || photos[r.photo].uploader == user)
        && photos[r.photo].sha == r.original.sha && photos[r.photo].key == r.original.key
        && key in w.db.deletions && !w.db.deletions[key].claimed && w.db.deletions[key].notBefore > w.clock
  {
    var u := w.uploads[pid];
    var r := u.rotation.value;
    RotationCommits(w.db, user, admin, machine, r.photo, r.original, u.news[0], r.degrees, w.clock);
    AttachedIssued(w);
    assert UploadSound(w, u) && KeySound(w, u, 0);
    assert forall q :: q in w.db.photos ==> w.db.photos[q].key in Attached(w.db);
  }

  // ----- leaks

  /** Every stored object is named by a photo row or waits in the queue. */
  ghost predicate NoLeak<B>(w: World<B>) {
    forall k :: k in w.store ==> k in Attached(w.db) || k in w.db.deletions
  }

  /** The steps that lose track of an object: a put that lands after its row is gone,
      and the completion of a row whose object was stored again after the erasure. */
  ghost predicate Leaky<B>(w: World<B>, s: Step<B>) {
    match s
    case OfRequest(Put(pid)) =>
      pid in w.uploads && w.uploads[pid].done < |w.uploads[pid].news| && w.uploads[pid].news[w.uploads[pid].done].key !in w.db.deletions
    case OfWorker(CompleteRow(wid)) => Lifecycle.Holds(w, wid) && w.workers[wid].keys[0] in w.store
    case _ => false
  }

  lemma PutLeaks<B, T>(f: Files<B, T>, w: World<B>, s: RequestStep<B>)
    requires KeyInv(w) && NoLeak(w) && s.Put? && RequestEnabled(f, w, s)
    ensures NoLeak(RequestNext(f, w, s)) <==> !Leaky(w, OfRequest(s))
  {
    var u := w.uploads[s.pid];
    var x := RequestNext(f, w, s);
    var key := u.news[u.done].key;
    assert UploadSound(w, u) && KeySound(w, u, u.done);
    assert Attached(x.db) == Attached(w.db);
    assert key in x.store;
  }

  lemma CompleteLeaks<B>(w: World<B>, s: WorkerStep)
    requires KeyInv(w) && NoLeak(w) && s.CompleteRow? && WorkerEnabled(w, s)
    ensures NoLeak(WorkerNext(w, s)) <==> !Leaky(w, Step<B>.OfWorker(s))
  {
    var key := w.workers[s.wid].keys[0];
    var x := WorkerNext(w, s);
    AttachedIssued(w);
    assert key in w.dead && key !in Attached(w.db) by {
      assert key in w.workers[s.wid].keys;
      NeverNamed(w, key);
    }
    assert Attached(x.db) == Attached(w.db);
  }

  lemma NeverNamed<B>(w: World<B>, key: Key)
    requires KeyInv(w) && key in w.dead
    ensures key !in Attached(w.db)
  {
    assert forall p :: p in w.db.photos ==> RowSafe(w, w.db.photos[p].key);
  }

  /** Steps that store nothing new: a key that leaves the rows enters the queue, and
      a key that leaves the queue enters the rows. */
  lemma OthersDoNotLeak<B>(w: World<B>, x: World<B>)
    requires NoLeak(w) && x.store.Keys <= w.store.Keys
    requires forall k :: k in Attached(w.db) || k in w.db.deletions ==> k in Attached(x.db) || k in x.db.deletions
    ensures NoLeak(x)
  {
  }

  /** The phases tell which keys are tracked. */
  lemma TrackedForward<B>(w: World<B>, x: World<B>, k: Key)
    requires KeyInv(w) && KeyInv(x) && Forward(PhaseOf(w, k), PhaseOf(x, k)) && k in x.content
    requires k in Attached(w.db) || k in w.db.deletions
    requires k in w.db.deletions && w.db.deletions[k].claimed ==> k in x.db.deletions
    ensures k in Attached(x.db) || k in x.db.deletions
  {
    AttachedIssued(w);
  }

  predicate Quiet<B>(s: Step<B>) {
    !(s.OfRequest? && s.request.Put?) && !(s.OfWorker? && s.work.CompleteRow?)
  }

  lemma QuietDoesNotLeak<B, T>(f: Files<B, T>, w: World<B>, s: Step<B>)
    requires KeyInv(w) && NoLeak(w) && Enabled(f, w, s) && Quiet(s)
    ensures NoLeak(Next(f, w, s))
  {
    var x := Next(f, w, s);
    StepKeeps(f, w, s);
    NothingStored(f, w, s);
    AttachedIssued(w);
    forall k | k in Attached(w.db) || k in w.db.deletions ensures k in Attached(x.db) || k in x.db.deletions {
      StepForward(f, w, s, k);
      TrackedForward(w, x, k);
    }
    OthersDoNotLeak(w, x);
  }

  /** Nothing is stored, and no claimed row goes. */
  ghost predicate OnlyShrinks<B>(w: World<B>, x: World<B>) {
    && x.store.Keys <= w.store.Keys && w.content.Keys <= x.content.Keys
    && forall k :: k in w.db.deletions && w.db.deletions[k].claimed ==> k in x.db.deletions
  }

  lemma RequestStoresNothing<B, T>(f: Files<B, T>, w: World<B>, s: RequestStep<B>)
    requires KeyInv(w) && RequestEnabled(f, w, s) && !s.Put?
    ensures OnlyShrinks(w, RequestNext(f, w, s))
  {
    match s
    case Begin(pid, news, files, expires, _) =>
      assert forall k <- KeysOf(news) :: Fresh(w, k);
      FreshReserve(w, KeysOf(news), expires);
    case BeginRotation(pid, _, updated, expires, _) => FreshReserve(w, [updated.key], expires);
    case Crash(_) =>
  }

  lemma CommitStoresNothing<B>(w: World<B>, s: CommitStep)
    requires CommitEnabled(w, s)
    ensures OnlyShrinks(w, CommitNext(w, s))
  {
    CommitAttaches(w, s);
    PromotedUnclaimed(w.db, Committed(w, s).value, w.uploads[s.pid].news, w.clock);
  }

  /** What a promotion takes out of the queue was not claimed. */
  lemma PromotedUnclaimed(before: Db, after: Db, news: seq<NewPhoto>, now: int)
    requires forall i :: 0 <= i < |news| ==> Promotable(before, news[i].key, now)
    requires after.deletions == before.deletions - SetOf(KeysOf(news))
    ensures forall k :: k in before.deletions && before.deletions[k].claimed ==> k in after.deletions
  {
  }

  lemma WorkerStoresNothing<B>(w: World<B>, s: WorkerStep)
    requires WorkerEnabled(w, s) && !s.CompleteRow?
    ensures OnlyShrinks(w, WorkerNext(w, s))
  {
  }

  lemma OtherStoresNothing<B>(w: World<B>, s: OtherStep)
    requires OtherEnabled(w, s)
    ensures OnlyShrinks(w, OtherNext(w, s))
  {
  }

  lemma NothingStored<B, T>(f: Files<B, T>, w: World<B>, s: Step<B>)
    requires KeyInv(w) && Enabled(f, w, s) && Quiet(s)
    ensures OnlyShrinks(w, Next(f, w, s))
  {
    match s
    case OfRequest(r) => RequestStoresNothing(f, w, r);
    case OfCommit(c) => CommitStoresNothing(w, c);
    case OfSwap(t) => SwapReplaces(w, t);
    case OfRemoval(m) => RemovalDetaches(w, m);
    case OfWorker(k) => WorkerStoresNothing(w, k);
    case Other(o) => OtherStoresNothing(w, o);
  }

  /** From a world without leaks, a step leaks if and only if it is one of the two. */
  lemma StepLeaks<B, T>(f: Files<B, T>, w: World<B>, s: Step<B>)
    requires KeyInv(w) && NoLeak(w) && Enabled(f, w, s)
    ensures NoLeak(Next(f, w, s)) <==> !Leaky(w, s)
  {
    if Quiet(s) {
      QuietDoesNotLeak(f, w, s);
    } else if s.OfRequest? {
      PutLeaks(f, w, s.request);
    } else {
      CompleteLeaks(w, s.work);
    }
  }

  ghost predicate Tracked<B>(worlds: seq<World<B>>, i: nat)
    requires i < |worlds|
  {
    forall j :: 0 <= j <= i ==> NoLeak(worlds[j])
  }

  ghost predicate Tight<B>(worlds: seq<World<B>>, steps: seq<Step<B>>, i: nat)
    requires i < |worlds| && |worlds| == |steps| + 1
  {
    forall j :: 0 <= j < i ==> !Leaky(worlds[j], steps[j])
  }

  /** A run never loses track of an object if and only if it takes no leaky step. */
  lemma {:induction false} RunLeaks<B, T>(f: Files<B, T>, worlds: seq<World<B>>, steps: seq<Step<B>>, i: nat)
    requires Runs(f, worlds, steps) && i < |worlds|
    ensures Tracked(worlds, i) <==> Tight(worlds, steps, i)
  {
    if i > 0 {
      RunLeaks(f, worlds, steps, i - 1);
      RunKeeps(f, worlds, steps, i - 1);
      if Tracked(worlds, i - 1) {
        assert NoLeak(worlds[i - 1]);
        StepLeaks(f, worlds[i - 1], steps[i - 1]);
        assert NoLeak(worlds[i]) <==> !Leaky(worlds[i - 1], steps[i - 1]);
      } else {
        assert !Tracked(worlds, i);
        assert !Tight(worlds, steps, i - 1);
      }
    }
  }

  /** A put that lands while its reservation is unclaimed. */
  ghost predicate Timely<B>(w: World<B>, s: Step<B>) {
    match s
    case OfRequest(Put(pid)) =>
      pid in w.uploads && w.uploads[pid].done < |w.uploads[pid].news| ==>
        var key := w.uploads[pid].news[w.uploads[pid].done].key;
        key in w.db.deletions && !w.db.deletions[key].claimed
    case _ => true
  }

  /** What a worker has erased stays erased. */
  ghost predicate ErasedStay<B>(w: World<B>) {
    forall wid :: Lifecycle.Holds(w, wid) && w.workers[wid].erased ==> w.workers[wid].keys[0] !in w.store
  }

  lemma RequestErased<B, T>(f: Files<B, T>, w: World<B>, s: RequestStep<B>)
    requires KeyInv(w) && ErasedStay(w) && RequestEnabled(f, w, s) && Timely(w, OfRequest(s))
    requires forall wid :: Lifecycle.Holds(w, wid) && w.workers[wid].erased ==> w.workers[wid].keys[0] in w.dead
    ensures ErasedStay(RequestNext(f, w, s))
  {
    if s.Put? {
      var u := w.uploads[s.pid];
      assert u.news[u.done].key !in w.dead;
    }
  }

  lemma WorkerErased<B>(w: World<B>, s: WorkerStep)
    requires ErasedStay(w) && WorkerEnabled(w, s)
    ensures ErasedStay(WorkerNext(w, s))
  {
    if s.Erase? {
      EraseErased(w, s.wid, s.reported);
    }
  }

  lemma StepErased<B, T>(f: Files<B, T>, w: World<B>, s: Step<B>)
    requires KeyInv(w) && ErasedStay(w) && Enabled(f, w, s) && Timely(w, s)
    requires forall wid :: Lifecycle.Holds(w, wid) && w.workers[wid].erased ==> w.workers[wid].keys[0] in w.dead
    ensures ErasedStay(Next(f, w, s))
  {
    match s
    case OfRequest(r) => RequestErased(f, w, r);
    case OfWorker(k) => WorkerErased(w, k);
    case _ =>
      StoreStays(f, w, s);
      SameErased(w, Next(f, w, s));
  }

  /** Only requests and workers touch the store. */
  lemma StoreStays<B, T>(f: Files<B, T>, w: World<B>, s: Step<B>)
    requires Enabled(f, w, s) && !s.OfRequest? && !s.OfWorker?
    ensures Next(f, w, s).store == w.store && Next(f, w, s).workers == w.workers
  {
    match s
    case OfCommit(c) => CommitFrame(w, c);
    case OfSwap(t) => SwapFrame(w, t);
    case OfRemoval(m) => RemovalFrame(w, m);
    case Other(o) => OtherFrame(w, o);
  }

  lemma SameErased<B>(w: World<B>, x: World<B>)
    requires ErasedStay(w) && x.store == w.store && x.workers == w.workers
    ensures ErasedStay(x)
  {
  }

  lemma EraseErased<B>(w: World<B>, wid: nat, reported: bool)
    requires ErasedStay(w) && Lifecycle.Holds(w, wid)
    ensures var worker := w.workers[wid];
      ErasedStay(w.(store := w.store - {worker.keys[0]}, workers := w.workers[wid := worker.(erased := reported || worker.erased)]))
  {
  }

  /** When every put lands before its reservation is claimed, nothing ever leaks. */
  lemma {:induction false} TimelyPutsNeverLeak<B, T>(f: Files<B, T>, worlds: seq<World<B>>, steps: seq<Step<B>>, i: nat)
    requires Runs(f, worlds, steps) && i < |worlds|
    requires forall j :: 0 <= j < |steps| ==> Timely(worlds[j], steps[j])
    ensures NoLeak(worlds[i]) && ErasedStay(worlds[i])
  {
    if i > 0 {
      TimelyPutsNeverLeak(f, worlds, steps, i - 1);
      RunKeeps(f, worlds, steps, i - 1);
      var w, s := worlds[i - 1], steps[i - 1];
      assert Timely(w, s);
      StepLeaks(f, w, s);
      StepErased(f, w, s);
    }
  }

  // ----- it happens

  /** The run goes on with one more step. */
  lemma GoOn<B, T>(f: Files<B, T>, worlds: seq<World<B>>, steps: seq<Step<B>>, s: Step<B>, next: World<B>)
    returns (more: seq<World<B>>, longer: seq<Step<B>>)
    requires Runs(f, worlds, steps) && Enabled(f, worlds[|steps|], s) && next == Next(f, worlds[|steps|], s)
    ensures Runs(f, more, longer) && longer == steps + [s] && more == worlds + [next]
  {
    more, longer := worlds + [next], steps + [s];
  }

  function OnePhoto<B, T>(f: Files<B, T>, file: B): seq<NewPhoto> {
    [NewPhoto("id", "key", f.kind(file), f.size(file), f.hash(file), "user")]
  }

  /** A request whose one reservation was claimed before its put has landed, and the worker
      that claimed it. */
  ghost predicate Overtaken<B, T>(f: Files<B, T>, file: B, w: World<B>, wid: nat) {
    && w.db.photos == map[] && w.db.deletions.Keys == {"key"} && w.db.deletions["key"].claimed && w.store == map[]
    && w.uploads == map[0 := Upload(OnePhoto(f, file), [file], 0, true, None)]
    && wid in w.workers && w.workers[wid] == Worker(["key"], true)
  }

  lemma ReserveOne<B>(w: World<B>)
    requires w == Empty({}, {}, 0)
    ensures Reserve(w, ["key"], 1) == w.db.(deletions := map["key" := Row(1, false)])
  {
    FreshReserve(w, ["key"], 1);
    assert (map k | k in ["key"] :: Row(1, false)) == map["key" := Row(1, false)];
  }

  lemma BeginOne<B, T>(f: Files<B, T>, file: B, w: World<B>)
    requires w == Empty({}, {}, 0)
    ensures var s := Begin(0, OnePhoto(f, file), [file], 1, true);
      && RequestEnabled(f, w, s)
      && var x := RequestNext(f, w, s);
        && x.db == w.db.(deletions := map["key" := Row(1, false)]) && x.store == map[] && x.clock == 0 && x.workers == map[]
        && x.uploads == map[0 := Upload(OnePhoto(f, file), [file], 0, true, None)]
  {
    assert KeysOf(OnePhoto(f, file)) == ["key"];
    ReserveOne(w);
  }

  /** A request reserves its key, and its put takes longer than the reservation lasts. */
  ghost predicate Waiting<B, T>(f: Files<B, T>, file: B, w: World<B>) {
    && w.db.photos == map[] && w.db.deletions == map["key" := Row(1, false)] && w.store == map[] && w.clock == 1
    && w.uploads == map[0 := Upload(OnePhoto(f, file), [file], 0, true, None)] && w.workers == map[]
  }

  lemma ClaimOne<B, T>(f: Files<B, T>, file: B, w: World<B>)
    requires Waiting(f, file, w)
    ensures WorkerEnabled(w, ClaimRows(0, ["key"])) && WorkerEnabled(WorkerNext(w, ClaimRows(0, ["key"])), Erase(0, true))
    ensures Overtaken(f, file, WorkerNext(WorkerNext(w, ClaimRows(0, ["key"])), Erase(0, true)), 0)
  {
    assert Due(w.db, "key", w.clock);
    assert SetOf(["key"]) == {"key"};
  }

  lemma Beginning<B, T>(f: Files<B, T>, file: B) returns (worlds: seq<World<B>>, steps: seq<Step<B>>)
    ensures Runs(f, worlds, steps) && |steps| == 2 && Waiting(f, file, worlds[2])
  {
    var begin := Begin(0, OnePhoto(f, file), [file], 1, true);
    var w0 := Empty<B>({}, {}, 0);
    BeginOne(f, file, w0);
    var w1 := RequestNext(f, w0, begin);
    worlds, steps := GoOn(f, [w0], [], OfRequest(begin), w1);
    worlds, steps := GoOn(f, worlds, steps, Other(Tick(1)), OtherNext(w1, Tick(1)));
  }

  /** The reservation expires while the put is still under way. */
  lemma Overtaking<B, T>(f: Files<B, T>, file: B) returns (worlds: seq<World<B>>, steps: seq<Step<B>>)
    ensures Runs(f, worlds, steps) && |steps| == 4 && Overtaken(f, file, worlds[4], 0)
  {
    var claim, erase := ClaimRows(0, ["key"]), Erase(0, true);
    worlds, steps := Beginning(f, file);
    var w2 := worlds[2];
    ClaimOne(f, file, w2);
    var w3 := WorkerNext(w2, claim);
    worlds, steps := GoOn(f, worlds, steps, OfWorker(claim), w3);
    worlds, steps := GoOn(f, worlds, steps, OfWorker(erase), WorkerNext(w3, erase));
  }

  /** The put of the request, or the completion of its row. */
  function Late<B>(put: bool): Step<B> {
    if put then OfRequest(Put(0)) else OfWorker(CompleteRow(0))
  }

  lemma LateLeaks<B, T>(f: Files<B, T>, file: B, w: World<B>, putFirst: bool)
    requires Overtaken(f, file, w, 0)
    ensures var first, second := Late<B>(putFirst), Late<B>(!putFirst);
      && Enabled(f, w, first) && Enabled(f, Next(f, w, first), second)
      && Leaky(Next(f, w, first), second) && !NoLeak(Next(f, Next(f, w, first), second))
  {
    assert "key" in Next(f, Next(f, w, Late(putFirst)), Late(!putFirst)).store;
  }

  /** Both leaks happen: whatever the file, a run ends in a put behind the completion of its
      row, and another in a completion behind the put. */
  lemma LeakingRuns<B, T>(f: Files<B, T>, file: B, putFirst: bool) returns (worlds: seq<World<B>>, steps: seq<Step<B>>)
    ensures Runs(f, worlds, steps) && |steps| == 6 && !NoLeak(worlds[6])
    ensures (if putFirst then steps[5].OfWorker? else steps[5].OfRequest?) && Leaky(worlds[5], steps[5])
  {
    worlds, steps := Overtaking(f, file);
    var w, first, second := worlds[4], Late<B>(putFirst), Late<B>(!putFirst);
    LateLeaks(f, file, w, putFirst);
    worlds, steps := GoOn(f, worlds, steps, first, Next(f, w, first));
    worlds, steps := GoOn(f, worlds, steps, second, Next(f, Next(f, w, first), second));
  }
}
