/** A photo keeps its place: its parent and its page never change, and no other photo
    ever takes its id. */
module LifecyclePlaces {
  import opened Common
  import opened Database
  import opened Lifecycle
  import opened LifecycleRotation
  import opened LifecyclePages

  /** No request can insert the photo again. */
  ghost predicate Spent<B>(w: World<B>, p: Id) {
    && p in w.used
    && forall pid :: pid in w.uploads && w.uploads[pid].rotation.None? ==> p !in SetOf(IdsOf(w.uploads[pid].news))
  }

  /** A spent id is not used again, and a photo that is still there is where it was. */
  ghost predicate Holds<B>(w: World<B>, x: World<B>, p: Id) {
    && Spent(x, p)
    && (p in x.db.photos ==> p in w.db.photos && SamePlace(x.db.photos[p], w.db.photos[p]))
  }

  lemma RowsAreSpent<B>(w: World<B>, p: Id)
    requires IdsPending(w) && p in w.db.photos
    ensures Spent(w, p)
  {
    forall pid | pid in w.uploads && w.uploads[pid].rotation.None? ensures p !in SetOf(IdsOf(w.uploads[pid].news)) {
      assert IdsNew(w, w.uploads[pid].news);
    }
  }

  lemma RequestHolds<B, T>(f: Files<B, T>, w: World<B>, s: RequestStep<B>, p: Id)
    requires Spent(w, p) && RequestEnabled(f, w, s)
    ensures Holds(w, RequestNext(f, w, s), p)
  {
    RequestRows(f, w, s);
    if s.Begin? {
      NewIdsAreNew(w, s.news);
    }
  }

  lemma CommitHolds<B>(w: World<B>, s: CommitStep, p: Id)
    requires Spent(w, p) && CommitEnabled(w, s)
    ensures Holds(w, CommitNext(w, s), p)
  {
    CommitAttaches(w, s);
  }

  lemma SwapHolds<B>(w: World<B>, s: SwapStep, p: Id)
    requires Spent(w, p) && SwapEnabled(w, s)
    ensures Holds(w, SwapNext(w, s), p)
  {
    var u := w.uploads[s.pid];
    SwapReplaces(w, s);
    RotationShape(w.db, Swapped(w, s).value, u.rotation.value.photo, u.rotation.value.original, u.news[0],
      u.rotation.value.degrees, w.clock);
  }

  lemma RemovalHolds<B>(w: World<B>, s: RemovalStep, p: Id)
    requires Spent(w, p) && RemovalEnabled(w, s)
    ensures Holds(w, RemovalNext(w, s), p)
  {
    RemovalDetaches(w, s);
  }

  lemma WorkerHolds<B>(w: World<B>, s: WorkerStep, p: Id)
    requires Spent(w, p) && WorkerEnabled(w, s)
    ensures Holds(w, WorkerNext(w, s), p)
  {
    WorkerRows(w, s);
  }

  lemma OtherHolds<B>(w: World<B>, s: OtherStep, p: Id)
    requires Spent(w, p) && OtherEnabled(w, s)
    ensures Holds(w, OtherNext(w, s), p)
  {
    OtherRows(w, s);
  }

  lemma StepHolds<B, T>(f: Files<B, T>, w: World<B>, s: Step<B>, p: Id)
    requires Spent(w, p) && Enabled(f, w, s)
    ensures Holds(w, Next(f, w, s), p)
  {
    match s
    case OfRequest(r) => RequestHolds(f, w, r, p);
    case OfCommit(c) => CommitHolds(w, c, p);
    case OfSwap(t) => SwapHolds(w, t, p);
    case OfRemoval(m) => RemovalHolds(w, m, p);
    case OfWorker(k) => WorkerHolds(w, k, p);
    case Other(o) => OtherHolds(w, o, p);
  }

  /** Over any run, with whatever rotations: a photo that is still there has the parent and
      the page that it had, and one that is gone stays gone. */
  lemma {:induction false} PhotosKeepTheirPlaces<B, T>(f: Files<B, T>, worlds: seq<World<B>>, steps: seq<Step<B>>, i: nat, j: nat, p: Id)
    requires Runs(f, worlds, steps) && i <= j < |worlds| && p in worlds[i].db.photos
    ensures Spent(worlds[j], p)
    ensures p in worlds[j].db.photos ==> SamePlace(worlds[j].db.photos[p], worlds[i].db.photos[p])
    ensures forall k :: i <= k <= j && p in worlds[j].db.photos ==> p in worlds[k].db.photos
  {
    if i == j {
      RunTraces(f, worlds, steps, i);
      RowsAreSpent(worlds[i], p);
    } else {
      PhotosKeepTheirPlaces(f, worlds, steps, i, j - 1, p);
      StepHolds(f, worlds[j - 1], steps[j - 1], p);
    }
  }
}
