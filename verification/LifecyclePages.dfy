/** Page numbers: under every interleaving the pages of a parent are exactly 1..n. */
module LifecyclePages {
  import opened Common
  import opened Database
  import opened Sets
  import opened Lifecycle
  import LifecycleSafety

  predicate Recorded(db: Db, parent: Parent) {
    match parent.kind
    case Logbook => parent.id in db.books
    case Message => parent.id in db.messages
  }

  predicate SamePlace(a: Photo, b: Photo) {
    a.parent == b.parent && a.page == b.page
  }

  /** The photos of every recorded parent carry different page numbers between 1 and
      their count. */
  ghost predicate PageInv(db: Db) {
    && (forall p :: p in db.photos ==> Recorded(db, db.photos[p].parent) && 1 <= db.photos[p].page <= |PhotosOf(db, db.photos[p].parent)|)
    && (forall p, q :: p in db.photos && q in db.photos && SamePlace(db.photos[p], db.photos[q]) ==> p == q)
  }

  function PagesOf(db: Db, parent: Parent): set<int> {
    set p | p in PhotosOf(db, parent) :: db.photos[p].page
  }

  function OneTo(n: nat): set<int> {
    if n == 0 then {} else OneTo(n - 1) + {n}
  }

  lemma {:induction false} OneToSize(n: nat)
    ensures |OneTo(n)| == n
    ensures forall i :: i in OneTo(n) <==> 1 <= i <= n
  {
    if n > 0 {
      OneToSize(n - 1);
    }
  }

  lemma {:induction false} InjectiveSize(db: Db, ids: set<Id>)
    requires ids <= db.photos.Keys
    requires forall p, q :: p in ids && q in ids && db.photos[p].page == db.photos[q].page ==> p == q
    ensures |set p | p in ids :: db.photos[p].page| == |ids|
  {
    if ids != {} {
      var p :| p in ids;
      InjectiveSize(db, ids - {p});
      var rest := set q | q in ids - {p} :: db.photos[q].page;
      assert (set q | q in ids :: db.photos[q].page) == rest + {db.photos[p].page};
      assert |ids| == |ids - {p}| + 1;
    }
  }

  /** Different numbers between 1 and n, n of them: they are exactly 1..n. */
  lemma PagesAreExact(db: Db, parent: Parent)
    requires PageInv(db)
    ensures PagesOf(db, parent) == OneTo(|PhotosOf(db, parent)|)
  {
    var n := |PhotosOf(db, parent)|;
    InjectiveSize(db, PhotosOf(db, parent));
    OneToSize(n);
    SubsetOfSameSize(PagesOf(db, parent), OneTo(n));
  }

  /** An attachment that starts behind the last page. */
  lemma AttachPages(before: Db, after: Db, parent: Parent, news: seq<NewPhoto>, offset: int, now: int)
    requires PageInv(before) && Attaches(before, after, parent, news, offset, now)
    requires offset == |PhotosOf(before, parent)|
    requires Recorded(after, parent)
    requires before.books.Keys <= after.books.Keys && before.messages.Keys <= after.messages.Keys
    ensures PageInv(after)
    ensures |PhotosOf(after, parent)| == offset + |news|
  {
    GrownParent(before, after, parent, news, offset, now);
    forall p | p in after.photos
      ensures Recorded(after, after.photos[p].parent) && 1 <= after.photos[p].page <= |PhotosOf(after, after.photos[p].parent)|
    {
      if p !in before.photos {
        var i := LifecycleSafety.NewRow(before, after, parent, news, offset, now, p);
      } else if after.photos[p].parent != parent {
        OtherParent(before, after, parent, news, offset, now, after.photos[p].parent);
      }
    }
    PagesStayApart(before, after, parent, news, offset, now);
  }

  /** No two photos of a parent get the same page. */
  lemma PagesStayApart(before: Db, after: Db, parent: Parent, news: seq<NewPhoto>, offset: int, now: int)
    requires PageInv(before) && Attaches(before, after, parent, news, offset, now) && offset == |PhotosOf(before, parent)|
    ensures forall p, q :: p in after.photos && q in after.photos && SamePlace(after.photos[p], after.photos[q]) ==> p == q
  {
    forall p, q | p in after.photos && q in after.photos && SamePlace(after.photos[p], after.photos[q]) ensures p == q {
      if p !in before.photos {
        var i := LifecycleSafety.NewRow(before, after, parent, news, offset, now, p);
        if q !in before.photos {
          var j := LifecycleSafety.NewRow(before, after, parent, news, offset, now, q);
        }
      } else if q !in before.photos {
        var j := LifecycleSafety.NewRow(before, after, parent, news, offset, now, q);
      }
    }
  }

  lemma GrownParent(before: Db, after: Db, parent: Parent, news: seq<NewPhoto>, offset: int, now: int)
    requires Attaches(before, after, parent, news, offset, now)
    ensures |PhotosOf(after, parent)| == |PhotosOf(before, parent)| + |news|
  {
    SizeOfSet(IdsOf(news));
    NewIds(before, after, parent, news, offset, now);
    MorePhotos(before, after, parent, SetOf(IdsOf(news)));
  }

  lemma MorePhotos(before: Db, after: Db, parent: Parent, ids: set<Id>)
    requires after.photos.Keys == before.photos.Keys + ids && before.photos.Keys !! ids
    requires forall p :: p in before.photos ==> after.photos[p] == before.photos[p]
    requires forall p <- ids :: p in PhotosOf(after, parent)
    ensures |PhotosOf(after, parent)| == |PhotosOf(before, parent)| + |ids|
  {
    assert PhotosOf(after, parent) == PhotosOf(before, parent) + ids;
    assert PhotosOf(before, parent) !! ids;
  }

  lemma NewIds(before: Db, after: Db, parent: Parent, news: seq<NewPhoto>, offset: int, now: int)
    requires Attaches(before, after, parent, news, offset, now)
    ensures forall p <- SetOf(IdsOf(news)) :: p in PhotosOf(after, parent) && p !in before.photos
  {
    forall p | p in SetOf(IdsOf(news)) ensures p in PhotosOf(after, parent) && p !in before.photos {
      var i :| 0 <= i < |news| && IdsOf(news)[i] == p;
      assert news[i].id == p;
    }
  }

  lemma OtherParent(before: Db, after: Db, parent: Parent, news: seq<NewPhoto>, offset: int, now: int, other: Parent)
    requires Attaches(before, after, parent, news, offset, now) && other != parent
    ensures PhotosOf(after, other) == PhotosOf(before, other)
  {
    forall p | p in PhotosOf(after, other) ensures p in PhotosOf(before, other) {
      if p !in before.photos {
        var i := LifecycleSafety.NewRow(before, after, parent, news, offset, now, p);
      }
    }
  }

  /** A rotation keeps the id, the parent and the page of every photo. */
  lemma RotationShape(before: Db, after: Db, photo: Id, original: Photo, updated: NewPhoto, degrees: int, now: int)
    requires Replaces(before, after, photo, original, updated, degrees, now)
    ensures after.photos.Keys == before.photos.Keys
    ensures forall p :: p in after.photos ==>
      after.photos[p].page == before.photos[p].page && after.photos[p].parent == before.photos[p].parent
  {
    assert after.photos.Keys == before.photos.Keys + {photo};
  }

  lemma SameShape(before: Db, after: Db)
    requires PageInv(before)
    requires before.books == after.books && before.messages == after.messages
    requires after.photos.Keys == before.photos.Keys
    requires forall p :: p in after.photos ==>
      after.photos[p].page == before.photos[p].page && after.photos[p].parent == before.photos[p].parent
    ensures PageInv(after)
  {
    forall parent ensures PhotosOf(after, parent) == PhotosOf(before, parent) {
      SamePhotosOf(before, after, parent);
    }
  }

  lemma SamePhotosOf(before: Db, after: Db, parent: Parent)
    requires after.photos.Keys == before.photos.Keys
    requires forall p :: p in after.photos ==> after.photos[p].parent == before.photos[p].parent
    ensures PhotosOf(after, parent) == PhotosOf(before, parent)
  {
  }

  lemma RemovePages(before: Db, after: Db, parent: Parent, now: int)
    requires PageInv(before) && Detaches(before, after, parent, now)
    requires forall other :: other != parent && Recorded(before, other) ==> Recorded(after, other)
    ensures PageInv(after)
  {
    assert forall other :: other != parent ==> PhotosOf(after, other) == PhotosOf(before, other);
  }

  lemma NothingYet(db: Db, parent: Parent)
    requires PageInv(db) && !Recorded(db, parent)
    ensures PhotosOf(db, parent) == {}
  {
  }

  lemma CommitPages<B>(w: World<B>, s: CommitStep)
    requires PageInv(w.db) && CommitEnabled(w, s)
    ensures PageInv(CommitNext(w, s).db)
  {
    CommitAttaches(w, s);
    if !s.CommitAppend? {
      NothingYet(w.db, ParentOf(s));
    }
    AttachPages(w.db, Committed(w, s).value, ParentOf(s), w.uploads[s.pid].news, OffsetOf(w, s), w.clock);
  }

  lemma SwapPages<B>(w: World<B>, s: SwapStep)
    requires PageInv(w.db) && SwapEnabled(w, s)
    ensures PageInv(SwapNext(w, s).db)
  {
    var u, db := w.uploads[s.pid], Swapped(w, s).value;
    SwapReplaces(w, s);
    RotationShape(w.db, db, u.rotation.value.photo, u.rotation.value.original, u.news[0], u.rotation.value.degrees, w.clock);
    SameShape(w.db, db);
  }

  lemma RemovalPages<B>(w: World<B>, s: RemovalStep)
    requires PageInv(w.db) && RemovalEnabled(w, s)
    ensures PageInv(RemovalNext(w, s).db)
  {
    RemovalDetaches(w, s);
    RemovePages(w.db, Removed(w, s).value, RemovedParent(s), w.clock);
  }

  lemma OtherPages<B>(w: World<B>, s: OtherStep)
    requires PageInv(w.db) && OtherEnabled(w, s)
    ensures PageInv(OtherNext(w, s).db)
  {
    match s
    case TextMessage(id, row) => TextPages(w.db, OtherNext(w, s).db, id);
    case EditText(machine, id, user, text) =>
      EditTouches(w.db, machine, id, user, text, w.clock);
      EditPages(w.db, OtherNext(w, s).db);
    case _ => SameShape(w.db, OtherNext(w, s).db);
  }

  /** A message without photos. */
  lemma TextPages(before: Db, after: Db, id: Id)
    requires PageInv(before) && id in after.messages && after == before.(messages := before.messages[id := after.messages[id]])
    ensures PageInv(after)
  {
    assert forall parent :: PhotosOf(after, parent) == PhotosOf(before, parent);
  }

  /** The queue does not matter. */
  lemma QueuePages(before: Db, after: Db)
    requires PageInv(before) && after == before.(deletions := after.deletions)
    ensures PageInv(after)
  {
    assert forall parent :: PhotosOf(after, parent) == PhotosOf(before, parent);
  }

  lemma StepPages<B, T>(f: Files<B, T>, w: World<B>, s: Step<B>)
    requires PageInv(w.db) && Enabled(f, w, s)
    ensures PageInv(Next(f, w, s).db)
  {
    match s
    case OfRequest(r) =>
      RequestRows(f, w, r);
      QueuePages(w.db, RequestNext(f, w, r).db);
    case OfCommit(c) => CommitPages(w, c);
    case OfSwap(t) => SwapPages(w, t);
    case OfRemoval(m) => RemovalPages(w, m);
    case OfWorker(k) =>
      WorkerRows(w, k);
      QueuePages(w.db, WorkerNext(w, k).db);
    case Other(o) => OtherPages(w, o);
  }

  lemma EditPages(before: Db, after: Db)
    requires PageInv(before) && after == before.(messages := after.messages) && after.messages.Keys == before.messages.Keys
    ensures PageInv(after)
  {
    assert forall parent :: PhotosOf(after, parent) == PhotosOf(before, parent);
    assert forall id :: id in after.messages <==> id in before.messages;
  }

  /** The limits that the service passes on: a new logbook and an append obey `limit`. */
  ghost predicate WithinLimit<B>(w: World<B>, s: Step<B>, limit: nat) {
    s.OfCommit? ==>
      && (s.commit.CommitBook? && s.commit.pid in w.uploads ==> |w.uploads[s.commit.pid].news| <= limit)
      && (s.commit.CommitAppend? ==> s.commit.maxPhotos == limit)
  }

  ghost predicate Limited(db: Db, limit: nat) {
    forall id :: id in db.books ==> |PhotosOf(db, Parent(Logbook, id))| <= limit
  }

  /** Under every interleaving of creations, appends, rotations and removals, the
      pages of every parent are 1..n. */
  lemma {:induction false} RunPages<B, T>(f: Files<B, T>, worlds: seq<World<B>>, steps: seq<Step<B>>, i: nat)
    requires Runs(f, worlds, steps) && i < |worlds|
    ensures PageInv(worlds[i].db)
    ensures forall parent :: PagesOf(worlds[i].db, parent) == OneTo(|PhotosOf(worlds[i].db, parent)|)
  {
    if i > 0 {
      RunPages(f, worlds, steps, i - 1);
      StepPages(f, worlds[i - 1], steps[i - 1]);
    }
    forall parent ensures PagesOf(worlds[i].db, parent) == OneTo(|PhotosOf(worlds[i].db, parent)|) {
      PagesAreExact(worlds[i].db, parent);
    }
  }

  /** An attachment to `parent` changes the size of no other parent. */
  lemma AttachLimited(before: Db, after: Db, parent: Parent, news: seq<NewPhoto>, offset: int, now: int, limit: nat)
    requires Attaches(before, after, parent, news, offset, now) && Limited(before, limit)
    requires forall id :: id in after.books && Parent(Logbook, id) != parent ==> id in before.books
    requires parent.kind.Logbook? ==> |PhotosOf(before, parent)| + |news| <= limit
    ensures Limited(after, limit)
  {
    GrownParent(before, after, parent, news, offset, now);
    forall id | id in after.books ensures |PhotosOf(after, Parent(Logbook, id))| <= limit {
      if Parent(Logbook, id) != parent {
        OtherParent(before, after, parent, news, offset, now, Parent(Logbook, id));
      }
    }
  }

  lemma CommitLimited<B>(w: World<B>, s: CommitStep, limit: nat)
    requires PageInv(w.db) && Limited(w.db, limit) && CommitEnabled(w, s) && WithinLimit(w, Step<B>.OfCommit(s), limit)
    ensures Limited(CommitNext(w, s).db, limit)
  {
    CommitAttaches(w, s);
    if s.CommitBook? {
      NothingYet(w.db, ParentOf(s));
    }
    AttachLimited(w.db, Committed(w, s).value, ParentOf(s), w.uploads[s.pid].news, OffsetOf(w, s), w.clock, limit);
  }

  /** Fewer rows or the same rows. */
  lemma ShrinkLimited(before: Db, after: Db, limit: nat)
    requires Limited(before, limit) && after.books.Keys <= before.books.Keys
    requires forall p :: p in after.photos ==> p in before.photos && after.photos[p].parent == before.photos[p].parent
    ensures Limited(after, limit)
  {
    forall id | id in after.books ensures |PhotosOf(after, Parent(Logbook, id))| <= limit {
      SubsetOfSameSize(PhotosOf(after, Parent(Logbook, id)), PhotosOf(before, Parent(Logbook, id)));
    }
  }

  lemma OtherStepsShrink<B, T>(f: Files<B, T>, w: World<B>, s: Step<B>)
    requires Enabled(f, w, s) && !s.OfCommit?
    ensures var x := Next(f, w, s).db;
      && x.books.Keys <= w.db.books.Keys
      && forall p :: p in x.photos ==> p in w.db.photos && x.photos[p].parent == w.db.photos[p].parent
  {
    match s
    case OfRequest(r) => RequestRows(f, w, r);
    case OfSwap(t) => SwapReplaces(w, t);
    case OfRemoval(m) => RemovalDetaches(w, m);
    case OfWorker(k) => WorkerRows(w, k);
    case Other(o) => OtherRows(w, o);
  }

  lemma OtherRows<B>(w: World<B>, s: OtherStep)
    requires OtherEnabled(w, s)
    ensures var x := OtherNext(w, s).db; x.photos == w.db.photos && x.books == w.db.books
  {
  }

  /** No logbook ever holds more photos than the limit that creations and appends
      were given. */
  lemma {:induction false} RunLimited<B, T>(f: Files<B, T>, worlds: seq<World<B>>, steps: seq<Step<B>>, limit: nat, i: nat)
    requires Runs(f, worlds, steps) && i < |worlds|
    requires forall j :: 0 <= j < |steps| ==> WithinLimit(worlds[j], steps[j], limit)
    ensures Limited(worlds[i].db, limit)
  {
    if i > 0 {
      RunLimited(f, worlds, steps, limit, i - 1);
      RunPages(f, worlds, steps, i - 1);
      var w, s := worlds[i - 1], steps[i - 1];
      if s.OfCommit? {
        CommitLimited(w, s.commit, limit);
      } else {
        OtherStepsShrink(f, w, s);
        ShrinkLimited(w.db, worlds[i].db, limit);
      }
    }
  }
}
