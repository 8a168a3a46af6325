/** What the photos show after any run of racing rotations. */
module LifecycleImages {
  import opened Common
  import opened Turns
  import opened Pixels
  import opened Database
  import opened Lifecycle
  import opened LifecycleSafety
  import opened LifecycleRotation
  import opened Sequences
  import Formats

  ghost predicate Lossless<B(!new), T>(f: Files<B, T>, format: iset<B>) {
    Formats.Lossless(f.view, f.rotate, format)
  }

  /** `now` shows `first` with the angles applied in order, and is still in the format. */
  ghost predicate ShowsAngles<B, T>(f: Files<B, T>, format: iset<B>, first: B, now: B, angles: seq<int>) {
    && now in format && f.view(first).Valid() && AllQuarters(angles)
    && f.view(now) == OneByOne(f.view(first), angles)
  }

  /** A photo whose first file is in the format. Other photos are in whatever format. */
  ghost predicate Shown<B, T>(f: Files<B, T>, format: iset<B>, w: World<B>, p: Id) {
    && Traced(w, p)
    && (w.origins[p].first in format ==>
      ShowsAngles(f, format, w.origins[p].first, w.content[w.db.photos[p].key], w.origins[p].angles))
  }

  ghost predicate PhotosShown<B, T>(f: Files<B, T>, format: iset<B>, w: World<B>) {
    forall p :: p in w.db.photos ==> Shown(f, format, w, p)
  }

  /** The file of a photo and its history stay. */
  ghost predicate Stays<B>(w: World<B>, x: World<B>, p: Id) {
    && Traced(w, p) && p in x.db.photos && p in x.origins && x.db.photos[p].key == w.db.photos[p].key
    && x.origins[p] == w.origins[p]
    && x.db.photos[p].key in x.content && x.content[x.db.photos[p].key] == w.content[w.db.photos[p].key]
  }

  lemma StaysShown<B, T>(f: Files<B, T>, format: iset<B>, w: World<B>, x: World<B>, p: Id)
    requires Stays(w, x, p) && Shown(f, format, w, p)
    ensures Shown(f, format, x, p)
  {
  }

  lemma AllStay<B, T>(f: Files<B, T>, format: iset<B>, w: World<B>, x: World<B>)
    requires PhotosShown(f, format, w) && forall p :: p in x.db.photos ==> p in w.db.photos && Stays(w, x, p)
    ensures PhotosShown(f, format, x)
  {
    forall p | p in x.db.photos ensures Shown(f, format, x, p) {
      StaysShown(f, format, w, x, p);
    }
  }

  /** A new photo shows its first file. */
  lemma FirstShown<B(!new), T>(f: Files<B, T>, format: iset<B>, x: World<B>, p: Id)
    requires Lossless(f, format) && p in x.db.photos && p in x.origins && x.db.photos[p].key in x.content
    requires x.origins[p] == Origin(x.content[x.db.photos[p].key], [])
    ensures Shown(f, format, x, p)
  {
  }

  lemma CommitShown<B(!new), T>(f: Files<B, T>, format: iset<B>, w: World<B>, s: CommitStep)
    requires Lossless(f, format) && KeyInv(w) && PhotosTraced(w) && PhotosShown(f, format, w) && CommitEnabled(w, s)
    ensures PhotosShown(f, format, CommitNext(w, s))
  {
    CommitAttaches(w, s);
    var x := CommitNext(w, s);
    forall p | p in x.db.photos ensures Shown(f, format, x, p) {
      AttachOrigins(w, s.pid, x.db, ParentOf(s), OffsetOf(w, s), p);
      if p in w.origins {
        assert Shown(f, format, w, p);
        StaysShown(f, format, w, x, p);
      } else {
        FirstShown(f, format, x, p);
      }
    }
  }

  lemma OneMoreTurn<B(!new), T>(f: Files<B, T>, format: iset<B>, first: B, now: B, angles: seq<int>, degrees: int)
    requires Lossless(f, format) && ShowsAngles(f, format, first, now, angles) && Legal(degrees) && f.rotate(now, degrees).Some?
    ensures ShowsAngles(f, format, first, f.rotate(now, degrees).value, angles + [degrees])
  {
    assert Formats.TurnsTrue(f.view, f.rotate, format, now, degrees);
    assert (angles + [degrees])[..|angles|] == angles;
  }

  /** The photo that a rotation turns. */
  lemma TurnedShown<B(!new), T>(f: Files<B, T>, format: iset<B>, w: World<B>, x: World<B>, p: Id, degrees: int)
    requires Lossless(f, format) && Shown(f, format, w, p) && Traced(x, p) && Legal(degrees)
    requires x.origins[p] == w.origins[p].(angles := w.origins[p].angles + [degrees])
    requires f.rotate(w.content[w.db.photos[p].key], degrees) == Some(x.content[x.db.photos[p].key])
    ensures Shown(f, format, x, p)
  {
    if w.origins[p].first in format {
      OneMoreTurn(f, format, w.origins[p].first, w.content[w.db.photos[p].key], w.origins[p].angles, degrees);
    }
  }

  /** What a rotation makes of a photo, its own or another. */
  ghost predicate Swaps<B, T>(f: Files<B, T>, w: World<B>, x: World<B>, r: Rotation, p: Id) {
    && Traced(w, p) && Traced(x, p) && x.content == w.content && Legal(r.degrees)
    && (p != r.photo ==> x.db.photos[p] == w.db.photos[p] && x.origins[p] == w.origins[p])
    && (p == r.photo ==>
      && x.origins[p] == w.origins[p].(angles := w.origins[p].angles + [r.degrees])
      && f.rotate(w.content[w.db.photos[p].key], r.degrees) == Some(x.content[x.db.photos[p].key]))
  }

  lemma SwapsShown<B(!new), T>(f: Files<B, T>, format: iset<B>, w: World<B>, x: World<B>, r: Rotation, p: Id)
    requires Lossless(f, format) && Shown(f, format, w, p) && Swaps(f, w, x, r, p)
    ensures Shown(f, format, x, p)
  {
    if p == r.photo {
      TurnedShown(f, format, w, x, p, r.degrees);
    } else {
      StaysShown(f, format, w, x, p);
    }
  }

  lemma SwapSwaps<B, T>(f: Files<B, T>, w: World<B>, s: SwapStep, p: Id)
    requires KeyInv(w) && Described(f, w) && Traces(w) && SwapEnabled(w, s) && p in SwapNext(w, s).db.photos
    ensures Swaps(f, w, SwapNext(w, s), w.uploads[s.pid].rotation.value, p)
  {
    SwapReplaces(w, s);
    SwappedFile(f, w, s.pid);
    SwapTraces(w, s);
    assert p in w.db.photos;
    assert Traced(w, p) && Traced(SwapNext(w, s), p);
  }

  lemma SwapShown<B(!new), T>(f: Files<B, T>, format: iset<B>, w: World<B>, s: SwapStep)
    requires Lossless(f, format) && KeyInv(w) && Described(f, w) && Traces(w) && PhotosShown(f, format, w) && SwapEnabled(w, s)
    ensures PhotosShown(f, format, SwapNext(w, s))
  {
    forall p | p in SwapNext(w, s).db.photos ensures Shown(f, format, SwapNext(w, s), p) {
      SwapSwaps(f, w, s, p);
      SwapsShown(f, format, w, SwapNext(w, s), w.uploads[s.pid].rotation.value, p);
    }
  }

  lemma RequestShown<B, T>(f: Files<B, T>, format: iset<B>, w: World<B>, s: RequestStep<B>)
    requires PhotosTraced(w) && PhotosShown(f, format, w) && RequestEnabled(f, w, s)
    ensures PhotosShown(f, format, RequestNext(f, w, s))
  {
    var x := RequestNext(f, w, s);
    RequestRows(f, w, s);
    if s.Begin? {
      ContentsAdded(w.content, s.news, s.files);
    }
    forall p | p in x.db.photos ensures Stays(w, x, p) {
      assert Traced(w, p);
    }
    AllStay(f, format, w, x);
  }

  lemma RemovalShown<B, T>(f: Files<B, T>, format: iset<B>, w: World<B>, s: RemovalStep)
    requires PhotosTraced(w) && PhotosShown(f, format, w) && RemovalEnabled(w, s)
    ensures PhotosShown(f, format, RemovalNext(w, s))
  {
    RemovalDetaches(w, s);
    forall p | p in RemovalNext(w, s).db.photos ensures Stays(w, RemovalNext(w, s), p) {
      assert Traced(w, p);
    }
    AllStay(f, format, w, RemovalNext(w, s));
  }

  lemma SameShown<B, T>(f: Files<B, T>, format: iset<B>, w: World<B>, x: World<B>)
    requires PhotosTraced(w) && PhotosShown(f, format, w)
    requires x.db.photos == w.db.photos && x.origins == w.origins && x.content == w.content
    ensures PhotosShown(f, format, x)
  {
    forall p | p in x.db.photos ensures Stays(w, x, p) {
      assert Traced(w, p);
    }
    AllStay(f, format, w, x);
  }

  lemma OtherSameFiles<B>(w: World<B>, s: OtherStep)
    requires OtherEnabled(w, s)
    ensures var x := OtherNext(w, s); x.db.photos == w.db.photos && x.origins == w.origins && x.content == w.content
  {
  }

  lemma StepShown<B(!new), T>(f: Files<B, T>, format: iset<B>, w: World<B>, s: Step<B>)
    requires Lossless(f, format) && KeyInv(w) && Described(f, w) && Traces(w) && PhotosShown(f, format, w) && Enabled(f, w, s)
    ensures PhotosShown(f, format, Next(f, w, s))
  {
    match s
    case OfRequest(r) => RequestShown(f, format, w, r);
    case OfCommit(c) => CommitShown(f, format, w, c);
    case OfSwap(t) => SwapShown(f, format, w, t);
    case OfRemoval(m) => RemovalShown(f, format, w, m);
    case OfWorker(k) =>
      WorkerSame(w, k);
      SameShown(f, format, w, WorkerNext(w, k));
    case Other(o) =>
      OtherSameFiles(w, o);
      SameShown(f, format, w, OtherNext(w, o));
  }

  /** After any run, whoever raced with whom and whatever the other photos hold: a photo
      whose first file is in a lossless format is still in it, and its stored image is
      the first one with the committed angles applied in order. */
  lemma {:induction false} RunShown<B(!new), T>(f: Files<B, T>, format: iset<B>, worlds: seq<World<B>>, steps: seq<Step<B>>, i: nat)
    requires Lossless(f, format) && Runs(f, worlds, steps) && i < |worlds|
    ensures PhotosShown(f, format, worlds[i])
    ensures var w := worlds[i];
      forall p :: p in w.db.photos && w.origins[p].first in format ==>
        var key := w.db.photos[p].key;
        key in w.store && ShowsAngles(f, format, w.origins[p].first, w.store[key], w.origins[p].angles)
  {
    if i > 0 {
      RunShown(f, format, worlds, steps, i - 1);
      RunKeeps(f, worlds, steps, i - 1);
      RunDescribed(f, worlds, steps, i - 1);
      RunTraces(f, worlds, steps, i - 1);
      StepShown(f, format, worlds[i - 1], steps[i - 1]);
    }
    StoredShown(f, format, worlds, steps, i);
  }

  /** What the store holds is what was chosen for the key. */
  lemma StoredShown<B(!new), T>(f: Files<B, T>, format: iset<B>, worlds: seq<World<B>>, steps: seq<Step<B>>, i: nat)
    requires Runs(f, worlds, steps) && i < |worlds| && PhotosShown(f, format, worlds[i])
    ensures var w := worlds[i];
      forall p :: p in w.db.photos && w.origins[p].first in format ==>
        var key := w.db.photos[p].key;
        key in w.store && ShowsAngles(f, format, w.origins[p].first, w.store[key], w.origins[p].angles)
  {
    var w := worlds[i];
    RunKeeps(f, worlds, steps, i);
    forall p | p in w.db.photos
      ensures p in w.origins && w.db.photos[p].key in w.store && w.store[w.db.photos[p].key] == w.content[w.db.photos[p].key]
    {
      assert Shown(f, format, w, p) && RowSafe(w, w.db.photos[p].key);
    }
  }
}
