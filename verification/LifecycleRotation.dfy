/** Racing rotations: what the rows, the pixels and the markers say after any run. */
module LifecycleRotation {
  import opened Common
  import opened Turns
  import opened Pixels
  import opened Markers
  import opened Database
  import opened Lifecycle
  import opened LifecycleSafety
  import opened Sequences

  // ----- rows describe their files

  ghost predicate RowsDescribed<B, T>(f: Files<B, T>, w: World<B>) {
    forall p :: p in w.db.photos ==>
      && w.db.photos[p].key in w.content
      && Describes(f, w.db.photos[p].contentType, w.db.photos[p].size, w.db.photos[p].sha, w.content[w.db.photos[p].key])
  }

  /** A rotation request holds the turn of the file it read. */
  ghost predicate RequestDescribed<B, T>(f: Files<B, T>, w: World<B>, u: Upload<B>) {
    && |u.files| == |u.news|
    && (forall i :: 0 <= i < |u.news| ==> Describes(f, u.news[i].contentType, u.news[i].size, u.news[i].sha, u.files[i]))
    && (u.rotation.Some? ==>
      var r := u.rotation.value;
      && |u.news| == 1 && Legal(r.degrees)
      && r.original.key in w.content
      && f.rotate(w.content[r.original.key], r.degrees) == Some(u.files[0]))
  }

  ghost predicate RequestsDescribed<B, T>(f: Files<B, T>, w: World<B>) {
    forall pid :: pid in w.uploads ==> RequestDescribed(f, w, w.uploads[pid])
  }

  ghost predicate Described<B, T>(f: Files<B, T>, w: World<B>) {
    RowsDescribed(f, w) && RequestsDescribed(f, w)
  }

  ghost predicate SameTask<B>(a: Upload<B>, b: Upload<B>) {
    a.news == b.news && a.files == b.files && a.rotation == b.rotation
  }

  /** Steps that add no row and lose no content. */
  lemma DescribedFrame<B, T>(f: Files<B, T>, w: World<B>, x: World<B>)
    requires Described(f, w)
    requires forall k :: k in w.content ==> k in x.content && x.content[k] == w.content[k]
    requires forall p :: p in x.db.photos ==> p in w.db.photos && x.db.photos[p] == w.db.photos[p]
    requires forall pid :: pid in x.uploads ==>
      (pid in w.uploads && SameTask(x.uploads[pid], w.uploads[pid])) || RequestDescribed(f, x, x.uploads[pid])
    ensures Described(f, x)
  {
    forall pid | pid in x.uploads ensures RequestDescribed(f, x, x.uploads[pid]) {
      if pid in w.uploads {
        assert RequestDescribed(f, w, w.uploads[pid]);
      }
    }
  }

  lemma AttachDescribed<B, T>(f: Files<B, T>, w: World<B>, pid: nat, db: Db, parent: Parent, offset: int)
    requires KeyInv(w) && Described(f, w) && pid in w.uploads
    requires Attaches(w.db, db, parent, w.uploads[pid].news, offset, w.clock)
    ensures Described(f, Attach(w, pid, db))
  {
    var u := w.uploads[pid];
    forall p | p in db.photos
      ensures db.photos[p].key in w.content && Describes(f, db.photos[p].contentType, db.photos[p].size, db.photos[p].sha, w.content[db.photos[p].key])
    {
      if p !in w.db.photos {
        var i := NewRow(w.db, db, parent, u.news, offset, w.clock, p);
        assert UploadSound(w, u) && KeySound(w, u, i);
        assert RequestDescribed(f, w, u);
      }
    }
    forall qid | qid in w.uploads ensures RequestDescribed(f, w, w.uploads[qid]) {
    }
  }

  lemma RotationDescribed<B, T>(f: Files<B, T>, w: World<B>, x: World<B>, pid: nat)
    requires KeyInv(w) && Described(f, w) && Ready(w, pid, true)
    requires var u := w.uploads[pid]; var r := u.rotation.value;
      Replaces(w.db, x.db, r.photo, r.original, u.news[0], r.degrees, w.clock)
    requires x.content == w.content && x.uploads == w.uploads - {pid}
    ensures Described(f, x)
  {
    var u := w.uploads[pid];
    assert UploadSound(w, u) && KeySound(w, u, 0);
    assert RequestDescribed(f, w, u);
    assert x.db.photos.Keys == w.db.photos.Keys + {u.rotation.value.photo};
    forall qid | qid in x.uploads ensures RequestDescribed(f, x, x.uploads[qid]) {
      assert RequestDescribed(f, w, w.uploads[qid]);
    }
  }

  lemma NewRequestDescribed<B, T>(f: Files<B, T>, x: World<B>, u: Upload<B>)
    requires |u.files| == |u.news| && u.rotation.None?
    requires forall i :: 0 <= i < |u.news| ==> Describes(f, u.news[i].contentType, u.news[i].size, u.news[i].sha, u.files[i])
    ensures RequestDescribed(f, x, u)
  {
  }

  lemma BegunDescribed<B, T>(f: Files<B, T>, w: World<B>, pid: nat, news: seq<NewPhoto>, files: seq<B>, expires: int, alive: bool)
    requires Described(f, w) && |news| == |files| && Distinct(KeysOf(news))
    requires forall i :: 0 <= i < |news| ==> Fresh(w, news[i].key) && Describes(f, news[i].contentType, news[i].size, news[i].sha, files[i])
    ensures Described(f, Begun(w, pid, news, files, expires, alive))
  {
    var x := Begun(w, pid, news, files, expires, alive);
    ContentsAdded(w.content, news, files);
    assert x.db.photos == w.db.photos;
    NewRequestDescribed(f, x, x.uploads[pid]);
    DescribedFrame(f, w, x);
  }

  lemma RequestStepDescribed<B, T>(f: Files<B, T>, w: World<B>, s: RequestStep<B>)
    requires Described(f, w) && RequestEnabled(f, w, s)
    ensures Described(f, RequestNext(f, w, s))
  {
    RequestRows(f, w, s);
    match s
    case Begin(pid, news, files, expires, alive) => BegunDescribed(f, w, pid, news, files, expires, alive);
    case _ => DescribedFrame(f, w, RequestNext(f, w, s));
  }

  lemma CommitDescribed<B, T>(f: Files<B, T>, w: World<B>, s: CommitStep)
    requires KeyInv(w) && Described(f, w) && CommitEnabled(w, s)
    ensures Described(f, CommitNext(w, s))
  {
    CommitAttaches(w, s);
    AttachDescribed(f, w, s.pid, Committed(w, s).value, ParentOf(s), OffsetOf(w, s));
  }

  lemma SwapDescribed<B, T>(f: Files<B, T>, w: World<B>, s: SwapStep)
    requires KeyInv(w) && Described(f, w) && SwapEnabled(w, s)
    ensures Described(f, SwapNext(w, s))
  {
    SwapReplaces(w, s);
    RotationDescribed(f, w, SwapNext(w, s), s.pid);
  }

  lemma RemovalDescribed<B, T>(f: Files<B, T>, w: World<B>, s: RemovalStep)
    requires Described(f, w) && RemovalEnabled(w, s)
    ensures Described(f, RemovalNext(w, s))
  {
    RemovalDetaches(w, s);
    DescribedFrame(f, w, RemovalNext(w, s));
  }

  lemma WorkerDescribed<B, T>(f: Files<B, T>, w: World<B>, s: WorkerStep)
    requires Described(f, w) && WorkerEnabled(w, s)
    ensures Described(f, WorkerNext(w, s))
  {
    WorkerSame(w, s);
    SameDescribed(f, w, WorkerNext(w, s));
  }

  lemma StepDescribed<B, T>(f: Files<B, T>, w: World<B>, s: Step<B>)
    requires KeyInv(w) && Described(f, w) && Enabled(f, w, s)
    ensures Described(f, Next(f, w, s))
  {
    match s
    case OfRequest(r) => RequestStepDescribed(f, w, r);
    case OfCommit(c) => CommitDescribed(f, w, c);
    case OfSwap(t) => SwapDescribed(f, w, t);
    case OfRemoval(m) => RemovalDescribed(f, w, m);
    case OfWorker(k) => WorkerDescribed(f, w, k);
    case Other(o) => OtherDescribed(f, w, o);
  }

  lemma OtherDescribed<B, T>(f: Files<B, T>, w: World<B>, s: OtherStep)
    requires Described(f, w) && OtherEnabled(w, s)
    ensures Described(f, OtherNext(w, s))
  {
    if s.AddMarker? {
      DescribedFrame(f, w, OtherNext(w, s));
    } else {
      OtherSameStory(w, s);
      SameDescribed(f, w, OtherNext(w, s));
    }
  }

  lemma SameDescribed<B, T>(f: Files<B, T>, w: World<B>, x: World<B>)
    requires Described(f, w) && SameStory(w, x)
    ensures Described(f, x)
  {
    DescribedFrame(f, w, x);
  }

  /** After any run the content type, the size and the hash of a row are those of the
      stored file. */
  lemma {:induction false} RunDescribed<B, T>(f: Files<B, T>, worlds: seq<World<B>>, steps: seq<Step<B>>, i: nat)
    requires Runs(f, worlds, steps) && i < |worlds|
    ensures Described(f, worlds[i])
    ensures forall p :: p in worlds[i].db.photos ==>
      var row := worlds[i].db.photos[p];
      row.key in worlds[i].store && Describes(f, row.contentType, row.size, row.sha, worlds[i].store[row.key])
  {
    if i > 0 {
      RunDescribed(f, worlds, steps, i - 1);
      RunKeeps(f, worlds, steps, i - 1);
      StepDescribed(f, worlds[i - 1], steps[i - 1]);
    }
    RunKeeps(f, worlds, steps, i);
    assert forall p :: p in worlds[i].db.photos ==> RowSafe(worlds[i], worlds[i].db.photos[p].key);
  }

  // ----- of the rotations that read one key, at most one commits

  ghost predicate Linear<B>(w: World<B>) {
    && (forall i :: 0 <= i < |w.commits| ==> w.commits[i].from in w.detached)
    && (forall i, j :: 0 <= i < j < |w.commits| ==> w.commits[i].from != w.commits[j].from)
  }

  lemma StepLinear<B, T>(f: Files<B, T>, w: World<B>, s: Step<B>)
    requires KeyInv(w) && Linear(w) && Enabled(f, w, s)
    ensures Linear(Next(f, w, s))
  {
    if s.OfSwap? {
      SwapReplaces(w, s.swap);
      assert RowSafe(w, w.db.photos[w.uploads[s.swap.pid].rotation.value.photo].key);
    } else {
      OnlyRotationsCommit(f, w, s);
    }
  }

  lemma OnlyRotationsCommit<B, T>(f: Files<B, T>, w: World<B>, s: Step<B>)
    requires Enabled(f, w, s) && !s.OfSwap?
    ensures Next(f, w, s).commits == w.commits && w.detached <= Next(f, w, s).detached
  {
    match s
    case OfRequest(r) => RequestFrame(f, w, r);
    case OfCommit(c) => CommitFrame(w, c);
    case OfRemoval(m) => RemovalFrame(w, m);
    case OfWorker(k) => WorkerFrame(w, k);
    case Other(o) => OtherFrame(w, o);
  }

  /** No two committed rotations of any run started from the same stored object. */
  lemma {:induction false} RotationsAreLinear<B, T>(f: Files<B, T>, worlds: seq<World<B>>, steps: seq<Step<B>>, i: nat)
    requires Runs(f, worlds, steps) && i < |worlds|
    ensures Linear(worlds[i])
  {
    if i > 0 {
      RotationsAreLinear(f, worlds, steps, i - 1);
      RunKeeps(f, worlds, steps, i - 1);
      StepLinear(f, worlds[i - 1], steps[i - 1]);
    }
  }

  // ----- pixels and markers

  /** The ids of photos still to be inserted belong to no row and no marker. */
  ghost predicate IdsPending<B>(w: World<B>) {
    && w.db.photos.Keys <= w.used
    && (forall m :: m in w.db.markers ==> w.db.markers[m].photo in w.used)
    && (forall pid :: pid in w.uploads && w.uploads[pid].rotation.None? ==> IdsNew(w, w.uploads[pid].news))
    && (forall pid, qid :: pid in w.uploads && qid in w.uploads && pid != qid && w.uploads[pid].rotation.None? && w.uploads[qid].rotation.None? ==>
      SetOf(IdsOf(w.uploads[pid].news)) !! SetOf(IdsOf(w.uploads[qid].news)))
  }

  ghost predicate IdsNew<B>(w: World<B>, news: seq<NewPhoto>) {
    Distinct(IdsOf(news)) && forall id :: id in SetOf(IdsOf(news)) ==> id in w.used && id !in w.db.photos && NoMarkers(w.db, id)
  }

  ghost predicate NoMarkers(db: Db, photo: Id) {
    forall m :: m in db.markers ==> db.markers[m].photo != photo
  }

  /** A photo has an origin, and quarter turns committed since. */
  ghost predicate Traced<B>(w: World<B>, p: Id) {
    && p in w.db.photos && p in w.origins && w.db.photos[p].key in w.content
    && AllQuarters(w.origins[p].angles)
  }

  ghost predicate PhotosTraced<B>(w: World<B>) {
    && w.origins.Keys == w.db.photos.Keys
    && forall p :: p in w.db.photos ==> Traced(w, p)
  }

  /** A marker is where the rotations since its placement have taken it. */
  ghost predicate MarkerTraced<B>(w: World<B>, m: Id) {
    && m in w.db.markers && m in w.marks && w.marks[m].at.InUnitSquare()
    && (w.db.markers[m].photo in w.origins ==>
      var angles := w.origins[w.db.markers[m].photo].angles;
      && w.marks[m].since <= |angles|
      && AllQuarters(angles[w.marks[m].since..])
      && w.db.markers[m].at == PointOneByOne(w.marks[m].at, angles[w.marks[m].since..]))
  }

  ghost predicate MarkersTraced<B>(w: World<B>) {
    forall m :: m in w.db.markers ==> MarkerTraced(w, m)
  }

  ghost predicate Traces<B>(w: World<B>) {
    IdsPending(w) && PhotosTraced(w) && MarkersTraced(w)
  }

  // -- new photos

  lemma AttachIds<B>(w: World<B>, pid: nat, db: Db, parent: Parent, offset: int)
    requires IdsPending(w) && Ready(w, pid, false)
    requires Attaches(w.db, db, parent, w.uploads[pid].news, offset, w.clock)
    ensures IdsPending(Attach(w, pid, db))
  {
    var news := w.uploads[pid].news;
    assert IdsNew(w, news);
    var x := Attach(w, pid, db);
    forall qid | qid in x.uploads && x.uploads[qid].rotation.None? ensures IdsNew(x, x.uploads[qid].news) {
      assert IdsNew(w, w.uploads[qid].news);
      assert SetOf(IdsOf(w.uploads[qid].news)) !! SetOf(IdsOf(news));
      forall id | id in SetOf(IdsOf(w.uploads[qid].news)) ensures id in x.used && id !in x.db.photos && NoMarkers(x.db, id) {
        assert NoMarkers(w.db, id);
      }
    }
  }

  /** Where the origins of the photos are after an attachment. */
  lemma AttachOrigins<B>(w: World<B>, pid: nat, db: Db, parent: Parent, offset: int, p: Id)
    requires KeyInv(w) && PhotosTraced(w) && Ready(w, pid, false)
    requires Attaches(w.db, db, parent, w.uploads[pid].news, offset, w.clock) && p in db.photos
    ensures var x := Attach(w, pid, db);
      && db.photos[p].key in w.content && p in x.origins
      && (p in w.origins ==> p in w.db.photos && db.photos[p] == w.db.photos[p] && x.origins[p] == w.origins[p])
      && (p !in w.origins ==> x.origins[p] == Origin(w.content[db.photos[p].key], []) && p in SetOf(IdsOf(w.uploads[pid].news)))
  {
    if p in w.db.photos {
      assert Traced(w, p);
    } else {
      var i := NewRow(w.db, db, parent, w.uploads[pid].news, offset, w.clock, p);
      assert UploadSound(w, w.uploads[pid]) && KeySound(w, w.uploads[pid], i);
    }
  }

  lemma AttachTraced<B>(w: World<B>, pid: nat, db: Db, parent: Parent, offset: int)
    requires KeyInv(w) && PhotosTraced(w) && Ready(w, pid, false)
    requires Attaches(w.db, db, parent, w.uploads[pid].news, offset, w.clock)
    ensures PhotosTraced(Attach(w, pid, db))
  {
    var x := Attach(w, pid, db);
    forall p | p in db.photos ensures Traced(x, p) && p in x.origins {
      AttachOrigins(w, pid, db, parent, offset, p);
      if p in w.origins {
        assert Traced(w, p);
      }
    }
  }

  lemma AttachMarkers<B>(w: World<B>, pid: nat, db: Db, parent: Parent, offset: int)
    requires KeyInv(w) && Traces(w) && Ready(w, pid, false)
    requires Attaches(w.db, db, parent, w.uploads[pid].news, offset, w.clock)
    ensures Traces(Attach(w, pid, db))
  {
    AttachIds(w, pid, db, parent, offset);
    AttachTraced(w, pid, db, parent, offset);
    var x := Attach(w, pid, db);
    assert IdsNew(w, w.uploads[pid].news);
    forall m | m in x.db.markers ensures MarkerTraced(x, m) {
      assert MarkerTraced(w, m);
      var photo := w.db.markers[m].photo;
      if photo in x.origins {
        AttachOrigins(w, pid, db, parent, offset, photo);
      }
    }
  }

  // -- rotations

  lemma OneMoreAngle(p: Point, angles: seq<int>, since: nat, degrees: int)
    requires Legal(degrees) && since <= |angles| && AllQuarters(angles[since..])
    ensures var more := angles + [degrees];
      && AllQuarters(more[since..])
      && PointOneByOne(p, more[since..]) == Update(PointOneByOne(p, angles[since..]), degrees)
  {
    var tail := (angles + [degrees])[since..];
    assert tail == angles[since..] + [degrees];
    assert tail[..|tail| - 1] == angles[since..];
    UpdateIsTurn(PointOneByOne(p, angles[since..]), degrees);
  }

  /** The file that a rotation swaps in is the old one turned. */
  lemma SwappedFile<B, T>(f: Files<B, T>, w: World<B>, pid: nat)
    requires KeyInv(w) && Described(f, w) && Ready(w, pid, true)
    ensures var u := w.uploads[pid]; var r := u.rotation.value;
      && Legal(r.degrees) && u.news[0].key in w.content && r.original.key in w.content
      && f.rotate(w.content[r.original.key], r.degrees) == Some(w.content[u.news[0].key])
  {
    var u := w.uploads[pid];
    assert RequestDescribed(f, w, u);
    assert UploadSound(w, u) && KeySound(w, u, 0);
  }

  lemma RotationTraced<B>(w: World<B>, x: World<B>, pid: nat)
    requires KeyInv(w) && PhotosTraced(w) && Ready(w, pid, true)
    requires var u := w.uploads[pid]; var r := u.rotation.value;
      && Replaces(w.db, x.db, r.photo, r.original, u.news[0], r.degrees, w.clock)
      && r.photo in w.origins
      && x.origins == w.origins[r.photo := w.origins[r.photo].(angles := w.origins[r.photo].angles + [r.degrees])]
    requires x.content == w.content
    ensures PhotosTraced(x)
  {
    var u := w.uploads[pid];
    var r := u.rotation.value;
    assert UploadSound(w, u) && KeySound(w, u, 0);
    assert x.db.photos.Keys == w.db.photos.Keys + {r.photo} && x.origins.Keys == w.origins.Keys + {r.photo};
    assert Traced(w, r.photo);
    OthersTraced(w, x, r.photo);
  }

  /** The photos that a rotation leaves alone. */
  lemma OthersTraced<B>(w: World<B>, x: World<B>, photo: Id)
    requires PhotosTraced(w) && x.content == w.content && Traced(x, photo)
    requires x.db.photos.Keys == w.db.photos.Keys && x.origins.Keys == w.origins.Keys
    requires forall p :: p in w.db.photos && p in w.origins && p != photo ==>
      x.db.photos[p] == w.db.photos[p] && x.origins[p] == w.origins[p]
    ensures PhotosTraced(x)
  {
    forall p | p in x.db.photos ensures Traced(x, p) {
      assert Traced(w, p);
    }
  }

  lemma RotationMarkers<B>(w: World<B>, x: World<B>, photo: Id, degrees: int)
    requires PhotosTraced(w) && MarkersTraced(w) && Legal(degrees) && photo in w.origins
    requires x.db.markers.Keys == w.db.markers.Keys && x.marks == w.marks
    requires forall m :: m in w.db.markers ==> x.db.markers[m] == MovedMarker(w.db.markers[m], photo, degrees)
    requires x.origins == w.origins[photo := w.origins[photo].(angles := w.origins[photo].angles + [degrees])]
    ensures MarkersTraced(x)
  {
    assert Traced(w, photo);
    forall m | m in x.db.markers ensures MarkerTraced(x, m) {
      assert MarkerTraced(w, m);
      if w.db.markers[m].photo == photo {
        OneMoreAngle(w.marks[m].at, w.origins[photo].angles, w.marks[m].since, degrees);
      }
    }
  }

  /** Rows, markers and pending requests are about the same photos as before. */
  lemma RotationIds<B>(w: World<B>, x: World<B>, pid: nat)
    requires IdsPending(w) && x.uploads == w.uploads - {pid} && x.used == w.used
    requires x.db.photos.Keys == w.db.photos.Keys && x.db.markers.Keys == w.db.markers.Keys
    requires forall m :: m in w.db.markers ==> x.db.markers[m].photo == w.db.markers[m].photo
    ensures IdsPending(x)
  {
    forall qid | qid in x.uploads && x.uploads[qid].rotation.None? ensures IdsNew(x, x.uploads[qid].news) {
      assert IdsNew(w, w.uploads[qid].news);
      forall id | id in SetOf(IdsOf(w.uploads[qid].news)) ensures id in x.used && id !in x.db.photos && NoMarkers(x.db, id) {
        assert NoMarkers(w.db, id);
      }
    }
  }

  lemma RotationTracesAll<B>(w: World<B>, x: World<B>, pid: nat)
    requires KeyInv(w) && Traces(w) && Ready(w, pid, true)
    requires var u := w.uploads[pid]; var r := u.rotation.value;
      && Replaces(w.db, x.db, r.photo, r.original, u.news[0], r.degrees, w.clock)
      && (r.photo in w.origins ==>
        x.origins == w.origins[r.photo := w.origins[r.photo].(angles := w.origins[r.photo].angles + [r.degrees])])
    requires x.content == w.content && x.marks == w.marks && x.uploads == w.uploads - {pid} && x.used == w.used
    ensures Traces(x)
  {
    var r := w.uploads[pid].rotation.value;
    assert r.photo in w.origins;
    ReplacesShape(w.db, x.db, r.photo, r.original, w.uploads[pid].news[0], r.degrees, w.clock);
    RotationTraced(w, x, pid);
    RotationMarkers(w, x, r.photo, r.degrees);
    RotationIds(w, x, pid);
  }

  lemma ReplacesShape(before: Db, after: Db, photo: Id, original: Photo, updated: NewPhoto, degrees: int, now: int)
    requires Replaces(before, after, photo, original, updated, degrees, now)
    ensures after.photos.Keys == before.photos.Keys
    ensures forall m :: m in before.markers ==> after.markers[m].photo == before.markers[m].photo
  {
    assert after.photos.Keys == before.photos.Keys + {photo};
  }

  lemma SwapTraces<B>(w: World<B>, s: SwapStep)
    requires KeyInv(w) && Traces(w) && SwapEnabled(w, s)
    ensures Traces(SwapNext(w, s))
  {
    SwapReplaces(w, s);
    RotationTracesAll(w, SwapNext(w, s), s.pid);
  }

  // -- the other steps

  /** Fewer photos; the same markers, or fewer. */
  lemma FewerTraces<B>(w: World<B>, x: World<B>)
    requires Traces(w)
    requires x.content == w.content && x.used == w.used
    requires forall p :: p in x.db.photos ==> p in w.db.photos && x.db.photos[p] == w.db.photos[p]
    requires x.origins == map p | p in w.origins && p in x.db.photos :: w.origins[p]
    requires forall m :: m in x.db.markers ==> m in w.db.markers && x.db.markers[m] == w.db.markers[m]
    requires forall m :: m in x.db.markers && m in w.marks ==> m in x.marks && x.marks[m] == w.marks[m]
    requires forall pid :: pid in x.uploads ==> pid in w.uploads && SameTask(x.uploads[pid], w.uploads[pid])
    ensures Traces(x)
  {
    forall p | p in x.db.photos ensures Traced(x, p) {
      assert Traced(w, p);
    }
    forall m | m in x.db.markers ensures MarkerTraced(x, m) {
      assert MarkerTraced(w, m);
    }
    forall pid | pid in x.uploads && x.uploads[pid].rotation.None? ensures IdsNew(x, x.uploads[pid].news) {
      assert IdsNew(w, w.uploads[pid].news);
      forall id | id in SetOf(IdsOf(w.uploads[pid].news)) ensures NoMarkers(x.db, id) {
        assert NoMarkers(w.db, id);
      }
    }
  }

  /** A new request brings new keys and new ids, and leaves everything else alone. */
  ghost predicate Brings<B>(w: World<B>, x: World<B>, pid: nat) {
    && pid in x.uploads
    && (forall k :: k in w.content ==> k in x.content && x.content[k] == w.content[k])
    && x.db.photos == w.db.photos && x.db.markers == w.db.markers && x.origins == w.origins && x.marks == w.marks
    && w.used <= x.used
    && (forall qid :: qid in x.uploads && qid != pid ==> qid in w.uploads && x.uploads[qid] == w.uploads[qid])
    && (x.uploads[pid].rotation.None? ==>
          Distinct(IdsOf(x.uploads[pid].news)) && SetOf(IdsOf(x.uploads[pid].news)) <= x.used - w.used)
  }

  lemma BeginTraces<B>(w: World<B>, x: World<B>, pid: nat)
    requires Traces(w) && Brings(w, x, pid)
    ensures Traces(x)
  {
    forall p | p in x.db.photos ensures Traced(x, p) {
      assert Traced(w, p);
    }
    forall m | m in x.db.markers ensures MarkerTraced(x, m) {
      assert MarkerTraced(w, m);
    }
    forall qid | qid in x.uploads && x.uploads[qid].rotation.None? ensures IdsNew(x, x.uploads[qid].news) {
      if qid != pid {
        assert IdsNew(w, w.uploads[qid].news);
        forall id | id in SetOf(IdsOf(w.uploads[qid].news)) ensures NoMarkers(x.db, id) {
          assert NoMarkers(w.db, id);
        }
      }
    }
    forall q | q in x.uploads && q != pid && x.uploads[q].rotation.None?
      ensures SetOf(IdsOf(x.uploads[q].news)) <= w.used
    {
      assert IdsNew(w, w.uploads[q].news);
    }
  }

  lemma AddMarkerTraces<B>(w: World<B>, s: OtherStep)
    requires Traces(w) && s.AddMarker? && OtherEnabled(w, s)
    ensures Traces(OtherNext(w, s))
  {
    var x := OtherNext(w, s);
    forall p | p in x.db.photos ensures Traced(x, p) {
      assert Traced(w, p);
    }
    forall m | m in x.db.markers ensures MarkerTraced(x, m) {
      if m != s.marker {
        assert MarkerTraced(w, m);
      }
    }
    forall pid | pid in x.uploads && x.uploads[pid].rotation.None? ensures IdsNew(x, x.uploads[pid].news) {
      assert IdsNew(w, w.uploads[pid].news);
      forall id | id in SetOf(IdsOf(w.uploads[pid].news)) ensures NoMarkers(x.db, id) {
        assert NoMarkers(w.db, id);
      }
    }
  }

  lemma BegunBrings<B>(w: World<B>, pid: nat, news: seq<NewPhoto>, files: seq<B>, expires: int, alive: bool)
    requires |news| == |files| && Distinct(KeysOf(news)) && Distinct(IdsOf(news))
    requires forall i :: 0 <= i < |news| ==> Fresh(w, news[i].key) && news[i].id !in w.used
    ensures Brings(w, Begun(w, pid, news, files, expires, alive), pid)
  {
    NewIdsAreNew(w, news);
    ContentsAdded(w.content, news, files);
  }

  lemma NewIdsAreNew<B>(w: World<B>, news: seq<NewPhoto>)
    requires forall i :: 0 <= i < |news| ==> news[i].id !in w.used
    ensures SetOf(IdsOf(news)) <= (w.used + SetOf(IdsOf(news))) - w.used
  {
    forall id | id in SetOf(IdsOf(news)) ensures id !in w.used {
      var i :| 0 <= i < |news| && IdsOf(news)[i] == id;
    }
  }

  lemma RemovalTraces<B>(w: World<B>, s: RemovalStep)
    requires Traces(w) && RemovalEnabled(w, s)
    ensures Traces(RemovalNext(w, s))
  {
    RemovalDetaches(w, s);
    FewerTraces(w, RemovalNext(w, s));
  }

  /** The same photos, origins and tasks; the same markers, or fewer. */
  ghost predicate SameStory<B>(w: World<B>, x: World<B>) {
    && x.content == w.content && x.used == w.used && x.origins == w.origins && x.db.photos == w.db.photos
    && (forall m :: m in x.db.markers ==> m in w.db.markers && x.db.markers[m] == w.db.markers[m])
    && (forall m :: m in x.db.markers && m in w.marks ==> m in x.marks && x.marks[m] == w.marks[m])
    && (forall pid :: pid in x.uploads ==> pid in w.uploads && SameTask(x.uploads[pid], w.uploads[pid]))
  }

  lemma SameTraces<B>(w: World<B>, x: World<B>)
    requires Traces(w) && SameStory(w, x)
    ensures Traces(x)
  {
    assert w.origins == map p | p in w.origins && p in x.db.photos :: w.origins[p];
    FewerTraces(w, x);
  }

  lemma WorkerSame<B>(w: World<B>, s: WorkerStep)
    requires WorkerEnabled(w, s)
    ensures SameStory(w, WorkerNext(w, s))
  {
  }

  lemma OtherSameStory<B>(w: World<B>, s: OtherStep)
    requires OtherEnabled(w, s) && !s.AddMarker?
    ensures SameStory(w, OtherNext(w, s))
  {
  }

  lemma RequestTraces<B, T>(f: Files<B, T>, w: World<B>, s: RequestStep<B>)
    requires Traces(w) && RequestEnabled(f, w, s)
    ensures Traces(RequestNext(f, w, s))
  {
    var x := RequestNext(f, w, s);
    match s
    case Begin(pid, news, files, expires, alive) =>
      BegunBrings(w, pid, news, files, expires, alive);
      BeginTraces(w, x, pid);
    case BeginRotation(pid, _, _, _, _) =>
      BeginRotationBrings(f, w, s);
      BeginTraces(w, x, pid);
    case _ =>
      assert SameStory(w, x);
      SameTraces(w, x);
  }

  lemma BeginRotationBrings<B, T>(f: Files<B, T>, w: World<B>, s: RequestStep<B>)
    requires s.BeginRotation? && RequestEnabled(f, w, s)
    ensures Brings(w, RequestNext(f, w, s), s.pid)
  {
  }

  lemma StepTraces<B, T>(f: Files<B, T>, w: World<B>, s: Step<B>)
    requires KeyInv(w) && Traces(w) && Enabled(f, w, s)
    ensures Traces(Next(f, w, s))
  {
    match s
    case OfRequest(r) => RequestTraces(f, w, r);
    case OfCommit(c) =>
      CommitAttaches(w, c);
      AttachMarkers(w, c.pid, Committed(w, c).value, ParentOf(c), OffsetOf(w, c));
    case OfSwap(t) => SwapTraces(w, t);
    case OfRemoval(m) => RemovalTraces(w, m);
    case OfWorker(k) =>
      WorkerSame(w, k);
      SameTraces(w, WorkerNext(w, k));
    case Other(o) =>
      if o.AddMarker? {
        AddMarkerTraces(w, o);
      } else {
        OtherSameStory(w, o);
        SameTraces(w, OtherNext(w, o));
      }
  }

  /** After any run, whoever raced with whom and whatever the formats: a marker is where
      the angles committed since its placement have taken it. */
  lemma {:induction false} RunTraces<B, T>(f: Files<B, T>, worlds: seq<World<B>>, steps: seq<Step<B>>, i: nat)
    requires Runs(f, worlds, steps) && i < |worlds|
    ensures Traces(worlds[i])
  {
    if i > 0 {
      RunTraces(f, worlds, steps, i - 1);
      RunKeeps(f, worlds, steps, i - 1);
      StepTraces(f, worlds[i - 1], steps[i - 1]);
    }
  }

  lemma {:induction false} RotationsKeepUnitSquare(p: Point, angles: seq<int>)
    requires AllQuarters(angles)
    ensures PointOneByOne(p, angles).InUnitSquare() <==> p.InUnitSquare()
  {
    if angles != [] {
      var before := angles[..|angles| - 1];
      RotationsKeepUnitSquare(p, before);
      TurnKeepsUnitSquare(PointOneByOne(p, before), Quarters(angles[|angles| - 1]));
    }
  }

  /** So the check constraint on the coordinates is never violated by a rotation. */
  lemma MarkersStayOnThePhoto<B, T>(f: Files<B, T>, worlds: seq<World<B>>, steps: seq<Step<B>>, i: nat)
    requires Runs(f, worlds, steps) && i < |worlds|
    ensures var db := worlds[i].db;
      forall m :: m in db.markers && db.markers[m].photo in db.photos ==> db.markers[m].at.InUnitSquare()
  {
    RunTraces(f, worlds, steps, i);
    var w := worlds[i];
    forall m | m in w.db.markers && w.db.markers[m].photo in w.db.photos ensures w.db.markers[m].at.InUnitSquare() {
      assert MarkerTraced(w, m);
      RotationsKeepUnitSquare(w.marks[m].at, w.origins[w.db.markers[m].photo].angles[w.marks[m].since..]);
    }
  }
}
