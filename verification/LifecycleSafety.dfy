/** What every run of the object life cycle keeps: an object named by a photo row is
    in the store and no worker can ever remove it. */
module LifecycleSafety {
  import opened Common
  import opened Turns
  import opened Database
  import opened Lifecycle

  // ----- the invariant on keys

  /** The key of a photo row is stored, and lies in no set that leads to removal. */
  ghost predicate RowSafe<B>(w: World<B>, key: Key) {
    && key in w.store && key in w.content
    && key !in w.db.deletions && key !in w.dead && key !in w.detached
  }

  ghost predicate PhotosSafe<B>(w: World<B>) {
    && (forall p :: p in w.db.photos ==> RowSafe(w, w.db.photos[p].key))
    && (forall p, q :: p in w.db.photos && q in w.db.photos && w.db.photos[p].key == w.db.photos[q].key ==> p == q)
  }

  /** A claimed row is one whose key was ever claimed. */
  ghost predicate QueueSound<B>(w: World<B>) {
    forall k :: k in w.db.deletions ==> k in w.content && (w.db.deletions[k].claimed <==> k in w.dead)
  }

  /** Whatever list a worker holds, however old, its keys were claimed. */
  ghost predicate WorkersSound<B>(w: World<B>) {
    forall wid, k :: wid in w.workers && k in w.workers[wid].keys ==> k in w.dead
  }

  ghost predicate HistorySound<B>(w: World<B>) {
    && w.dead <= w.content.Keys
    && w.detached <= w.content.Keys
    && forall k :: k in w.store ==> k in w.content && w.store[k] == w.content[k]
  }

  /** The i-th key of a request: never attached, and stored once its put has landed. */
  ghost predicate KeySound<B>(w: World<B>, u: Upload<B>, i: nat)
    requires i < |u.news| && |u.files| == |u.news|
  {
    var key := u.news[i].key;
    && key in w.content && w.content[key] == u.files[i]
    && key !in w.detached && key !in Attached(w.db)
    && (i < u.done ==> key in w.store || key in w.dead)
  }

  ghost predicate UploadSound<B>(w: World<B>, u: Upload<B>) {
    && |u.files| == |u.news| && u.done <= |u.news| && Distinct(KeysOf(u.news))
    && forall i :: 0 <= i < |u.news| ==> KeySound(w, u, i)
  }

  ghost predicate UploadsSound<B>(w: World<B>) {
    && (forall pid :: pid in w.uploads ==> UploadSound(w, w.uploads[pid]))
    && (forall pid, qid :: pid in w.uploads && qid in w.uploads && pid != qid ==>
      SetOf(KeysOf(w.uploads[pid].news)) !! SetOf(KeysOf(w.uploads[qid].news)))
  }

  ghost predicate KeyInv<B>(w: World<B>) {
    PhotosSafe(w) && QueueSound(w) && WorkersSound(w) && HistorySound(w) && UploadsSound(w)
  }

  // ----- requests

  lemma UploadFrame<B>(w: World<B>, x: World<B>, u: Upload<B>)
    requires UploadSound(w, u)
    requires forall k :: k in w.content ==> k in x.content && x.content[k] == w.content[k]
    requires forall k :: k in SetOf(KeysOf(u.news)) ==> (k in x.detached ==> k in w.detached) && (k in Attached(x.db) ==> k in Attached(w.db))
    requires forall k :: k in w.store || k in w.dead ==> k in x.store || k in x.dead
    ensures UploadSound(x, u)
  {
    forall i | 0 <= i < |u.news| ensures KeySound(x, u, i) {
      assert KeySound(w, u, i);
      assert u.news[i].key == KeysOf(u.news)[i];
    }
  }

  /** Fresh keys can always be reserved. */
  lemma FreshReserve<B>(w: World<B>, keys: seq<Key>, expires: int)
    requires QueueSound(w) && Distinct(keys) && forall k <- keys :: Fresh(w, k)
    ensures ReserveUploads(w.db, keys, expires).Ok?
    ensures Reserve(w, keys, expires) == w.db.(deletions := w.db.deletions + map k | k in keys :: Row(expires, false))
  {
  }

  /** Starting any request whose keys are fresh. */
  lemma BeginKeeps<B>(w: World<B>, x: World<B>, pid: nat, u: Upload<B>, expires: int)
    requires KeyInv(w) && pid !in w.uploads
    requires |u.files| == |u.news| && u.done == 0 && Distinct(KeysOf(u.news))
    requires forall i :: 0 <= i < |u.news| ==> Fresh(w, u.news[i].key)
    requires x.content.Keys == w.content.Keys + SetOf(KeysOf(u.news))
    requires forall k :: k in w.content ==> x.content[k] == w.content[k]
    requires forall i :: 0 <= i < |u.news| ==> u.news[i].key in x.content && x.content[u.news[i].key] == u.files[i]
    requires x == w.(db := Reserve(w, KeysOf(u.news), expires), content := x.content, used := x.used, uploads := w.uploads[pid := u])
    ensures KeyInv(x)
  {
    var keys := KeysOf(u.news);
    assert forall k <- keys :: Fresh(w, k);
    FreshReserve(w, keys, expires);
    assert PhotosSafe(x) by {
      assert forall p :: p in w.db.photos ==> RowSafe(w, w.db.photos[p].key);
    }
    BeginUploads(w, x, pid, u);
  }

  /** The requests, when one more begins. */
  lemma BeginUploads<B>(w: World<B>, x: World<B>, pid: nat, u: Upload<B>)
    requires KeyInv(w) && pid !in w.uploads
    requires |u.files| == |u.news| && u.done == 0 && Distinct(KeysOf(u.news))
    requires forall i :: 0 <= i < |u.news| ==> Fresh(w, u.news[i].key)
    requires forall k :: k in w.content ==> k in x.content && x.content[k] == w.content[k]
    requires forall i :: 0 <= i < |u.news| ==> u.news[i].key in x.content && x.content[u.news[i].key] == u.files[i]
    requires x.db.photos == w.db.photos && x.uploads == w.uploads[pid := u]
    requires x.detached == w.detached && x.store == w.store && x.dead == w.dead
    ensures UploadsSound(x)
  {
    var keys := KeysOf(u.news);
    assert forall k <- keys :: Fresh(w, k);
    assert SetOf(keys) !! w.content.Keys;
    assert Attached(x.db) == Attached(w.db);
    NewUploadSound(w, x, u);
    forall qid | qid in w.uploads
      ensures UploadSound(x, w.uploads[qid]) && SetOf(keys) !! SetOf(KeysOf(w.uploads[qid].news))
    {
      UploadFrame(w, x, w.uploads[qid]);
      UploadKeysIssued(w, w.uploads[qid]);
    }
  }

  lemma NewUploadSound<B>(w: World<B>, x: World<B>, u: Upload<B>)
    requires PhotosSafe(w) && HistorySound(w)
    requires |u.files| == |u.news| && u.done == 0 && Distinct(KeysOf(u.news))
    requires forall i :: 0 <= i < |u.news| ==> Fresh(w, u.news[i].key)
    requires forall i :: 0 <= i < |u.news| ==> u.news[i].key in x.content && x.content[u.news[i].key] == u.files[i]
    requires x.db.photos == w.db.photos && x.detached == w.detached
    ensures UploadSound(x, u)
  {
    forall i | 0 <= i < |u.news| ensures KeySound(x, u, i) {
      assert forall p :: p in w.db.photos ==> RowSafe(w, w.db.photos[p].key);
    }
  }

  lemma UploadKeysIssued<B>(w: World<B>, u: Upload<B>)
    requires UploadSound(w, u)
    ensures SetOf(KeysOf(u.news)) <= w.content.Keys
  {
    forall k | k in SetOf(KeysOf(u.news)) ensures k in w.content {
      var i :| 0 <= i < |u.news| && KeysOf(u.news)[i] == k;
      assert KeySound(w, u, i);
    }
  }

  function PutOne<B>(w: World<B>, pid: nat): World<B>
    requires pid in w.uploads && w.uploads[pid].done < |w.uploads[pid].news| == |w.uploads[pid].files|
  {
    var u := w.uploads[pid];
    w.(store := w.store[u.news[u.done].key := u.files[u.done]], uploads := w.uploads[pid := u.(done := u.done + 1)])
  }

  /** One more put has landed. */
  lemma PutSound<B>(x: World<B>, u: Upload<B>)
    requires UploadSound(x, u) && u.done < |u.news| && u.news[u.done].key in x.store
    ensures UploadSound(x, u.(done := u.done + 1))
  {
    var more := u.(done := u.done + 1);
    forall i | 0 <= i < |u.news| ensures KeySound(x, more, i) {
      assert KeySound(x, u, i);
    }
  }

  lemma PutUploads<B>(w: World<B>, pid: nat)
    requires UploadsSound(w) && pid in w.uploads && w.uploads[pid].done < |w.uploads[pid].news| == |w.uploads[pid].files|
    ensures UploadsSound(PutOne(w, pid))
  {
    var x := PutOne(w, pid);
    forall qid | qid in x.uploads ensures UploadSound(x, x.uploads[qid]) {
      UploadFrame(w, x, w.uploads[qid]);
      if qid == pid {
        PutSound(x, w.uploads[pid]);
      }
    }
  }

  lemma PutKeeps<B>(w: World<B>, pid: nat)
    requires KeyInv(w) && pid in w.uploads && w.uploads[pid].done < |w.uploads[pid].news|
    ensures |w.uploads[pid].files| == |w.uploads[pid].news| && KeyInv(PutOne(w, pid))
  {
    var u := w.uploads[pid];
    assert UploadSound(w, u) && KeySound(w, u, u.done);
    PutUploads(w, pid);
    assert forall p :: p in w.db.photos ==> RowSafe(w, w.db.photos[p].key);
  }

  /** Requests that are not touched, when only `dead` or the store of dead keys changes. */
  lemma OthersKeep<B>(w: World<B>, x: World<B>)
    requires UploadsSound(w)
    requires x.content == w.content && x.detached == w.detached && x.db.photos == w.db.photos
    requires forall pid :: pid in x.uploads ==> pid in w.uploads && SameRequest(x.uploads[pid], w.uploads[pid])
    requires forall k :: k in w.store || k in w.dead ==> k in x.store || k in x.dead
    ensures UploadsSound(x)
  {
    assert Attached(x.db) == Attached(w.db);
    forall pid | pid in x.uploads ensures UploadSound(x, x.uploads[pid]) {
      UploadFrame(w, x, w.uploads[pid]);
      SameRequestSound(x, x.uploads[pid], w.uploads[pid]);
    }
  }

  ghost predicate SameRequest<B>(a: Upload<B>, b: Upload<B>) {
    a.news == b.news && a.files == b.files && a.done == b.done
  }

  lemma SameRequestSound<B>(w: World<B>, a: Upload<B>, b: Upload<B>)
    requires SameRequest(a, b) && UploadSound(w, b)
    ensures UploadSound(w, a)
  {
    forall i | 0 <= i < |a.news| ensures KeySound(w, a, i) {
      assert KeySound(w, b, i);
    }
  }

  // ----- commits

  /** A promoted key is not dead, so a completed request has it in the store. */
  lemma PromotedIsStored<B>(w: World<B>, u: Upload<B>, i: nat)
    requires QueueSound(w) && UploadSound(w, u) && i < |u.news| && i < u.done
    requires Promotable(w.db, u.news[i].key, w.clock)
    ensures u.news[i].key in w.store && u.news[i].key !in w.dead && u.news[i].key !in w.detached
    ensures u.news[i].key in w.content && u.news[i].key !in Attached(w.db)
  {
    assert KeySound(w, u, i);
  }

  /** A photo row after an attachment is an old one or comes from the request. */
  lemma NewRow(before: Db, after: Db, parent: Parent, news: seq<NewPhoto>, offset: int, now: int, p: Id) returns (i: int)
    requires Attaches(before, after, parent, news, offset, now) && p in after.photos && p !in before.photos
    ensures 0 <= i < |news| && news[i].id == p && after.photos[p] == PhotoRow(parent, offset + i + 1, news[i])
    ensures news[i].key in SetOf(KeysOf(news))
  {
    assert p in SetOf(IdsOf(news));
    i :| 0 <= i < |news| && IdsOf(news)[i] == p;
    assert news[i].id == p;
    assert KeysOf(news)[i] in SetOf(KeysOf(news));
  }

  lemma AttachRowsSafe<B>(w: World<B>, x: World<B>, pid: nat, parent: Parent, offset: int, p: Id)
    requires KeyInv(w) && pid in w.uploads && w.uploads[pid].done == |w.uploads[pid].news|
    requires Attaches(w.db, x.db, parent, w.uploads[pid].news, offset, w.clock)
    requires x.store == w.store && x.content == w.content && x.dead == w.dead && x.detached == w.detached
    requires p in x.db.photos
    ensures RowSafe(x, x.db.photos[p].key)
  {
    var u := w.uploads[pid];
    if p in w.db.photos {
      assert RowSafe(w, w.db.photos[p].key);
    } else {
      var i := NewRow(w.db, x.db, parent, u.news, offset, w.clock, p);
      PromotedIsStored(w, u, i);
    }
  }

  lemma AttachInjective(before: Db, after: Db, parent: Parent, news: seq<NewPhoto>, offset: int, now: int, p: Id, q: Id)
    requires Attaches(before, after, parent, news, offset, now)
    requires forall k <- Attached(before) :: k !in SetOf(KeysOf(news))
    requires forall a, b :: a in before.photos && b in before.photos && before.photos[a].key == before.photos[b].key ==> a == b
    requires p in after.photos && q in after.photos && after.photos[p].key == after.photos[q].key
    ensures p == q
  {
    assert forall a :: a in before.photos ==> before.photos[a].key in Attached(before);
    if p !in before.photos {
      var i := NewRow(before, after, parent, news, offset, now, p);
      if q !in before.photos {
        var j := NewRow(before, after, parent, news, offset, now, q);
        assert KeysOf(news)[i] == KeysOf(news)[j];
      }
    } else if q !in before.photos {
      var j := NewRow(before, after, parent, news, offset, now, q);
    }
  }

  lemma AttachSafe<B>(w: World<B>, x: World<B>, pid: nat, parent: Parent, offset: int)
    requires KeyInv(w) && pid in w.uploads && w.uploads[pid].done == |w.uploads[pid].news|
    requires Attaches(w.db, x.db, parent, w.uploads[pid].news, offset, w.clock)
    requires x.store == w.store && x.content == w.content && x.dead == w.dead && x.detached == w.detached
    ensures PhotosSafe(x)
  {
    forall p | p in x.db.photos ensures RowSafe(x, x.db.photos[p].key) {
      AttachRowsSafe(w, x, pid, parent, offset, p);
    }
    NewKeysAreNew(w, w.uploads[pid]);
    forall p, q | p in x.db.photos && q in x.db.photos && x.db.photos[p].key == x.db.photos[q].key ensures p == q {
      AttachInjective(w.db, x.db, parent, w.uploads[pid].news, offset, w.clock, p, q);
    }
  }

  /** The keys of a request that has not committed are not attached. */
  lemma NewKeysAreNew<B>(w: World<B>, u: Upload<B>)
    requires UploadSound(w, u)
    ensures forall k <- Attached(w.db) :: k !in SetOf(KeysOf(u.news))
  {
    forall k | k in SetOf(KeysOf(u.news)) ensures k !in Attached(w.db) {
      var i :| 0 <= i < |u.news| && KeysOf(u.news)[i] == k;
      assert KeySound(w, u, i);
    }
  }

  /** Requests other than the one that committed. */
  lemma OthersAfterCommit<B>(w: World<B>, x: World<B>, pid: nat)
    requires UploadsSound(w) && pid in w.uploads
    requires x.uploads == w.uploads - {pid} && x.content == w.content && x.store == w.store && x.dead == w.dead
    requires forall k :: k in Attached(x.db) ==> k in Attached(w.db) || k in SetOf(KeysOf(w.uploads[pid].news))
    requires forall k :: k in x.detached ==> k in w.detached || k in Attached(w.db)
    ensures UploadsSound(x)
  {
    forall qid | qid in x.uploads ensures UploadSound(x, x.uploads[qid]) {
      var u := w.uploads[qid];
      assert SetOf(KeysOf(u.news)) !! SetOf(KeysOf(w.uploads[pid].news));
      NewKeysAreNew(w, u);
      UploadFrame(w, x, u);
    }
  }

  lemma AttachKeeps<B>(w: World<B>, pid: nat, db: Db, parent: Parent, offset: int)
    requires KeyInv(w) && Ready(w, pid, false)
    requires Attaches(w.db, db, parent, w.uploads[pid].news, offset, w.clock)
    ensures KeyInv(Attach(w, pid, db))
  {
    var x := Attach(w, pid, db);
    AttachSafe(w, x, pid, parent, offset);
    AttachedGrows(w.db, db, parent, w.uploads[pid].news, offset, w.clock);
    OthersAfterCommit(w, x, pid);
  }

  lemma AttachedGrows(before: Db, after: Db, parent: Parent, news: seq<NewPhoto>, offset: int, now: int)
    requires Attaches(before, after, parent, news, offset, now)
    ensures forall k :: k in Attached(after) ==> k in Attached(before) || k in SetOf(KeysOf(news))
  {
    forall k | k in Attached(after) ensures k in Attached(before) || k in SetOf(KeysOf(news)) {
      var p :| p in after.photos && after.photos[p].key == k;
      if p !in before.photos {
        var i := NewRow(before, after, parent, news, offset, now, p);
      }
    }
  }

  /** A committed rotation changes one key: the new one comes from the request, the
      old one is queued. */
  lemma RotationSafe<B>(w: World<B>, x: World<B>, pid: nat)
    requires KeyInv(w) && Ready(w, pid, true)
    requires var u := w.uploads[pid]; var r := u.rotation.value;
      Replaces(w.db, x.db, r.photo, r.original, u.news[0], r.degrees, w.clock)
      && x.detached == w.detached + {r.original.key}
    requires x.store == w.store && x.content == w.content && x.dead == w.dead
    ensures PhotosSafe(x)
  {
    var u := w.uploads[pid];
    var photo := u.rotation.value.photo;
    PromotedIsStored(w, u, 0);
    forall p | p in x.db.photos ensures RowSafe(x, x.db.photos[p].key) {
      if p != photo {
        assert RowSafe(w, w.db.photos[p].key);
        assert w.db.photos[p].key in Attached(w.db);
      }
    }
    forall p, q | p in x.db.photos && q in x.db.photos && x.db.photos[p].key == x.db.photos[q].key ensures p == q {
      assert w.db.photos[p].key in Attached(w.db) && w.db.photos[q].key in Attached(w.db);
    }
  }

  lemma RotationQueueSound<B>(w: World<B>, x: World<B>, pid: nat)
    requires KeyInv(w) && Ready(w, pid, true)
    requires var u := w.uploads[pid]; var r := u.rotation.value;
      Replaces(w.db, x.db, r.photo, r.original, u.news[0], r.degrees, w.clock)
    requires x.content == w.content && x.dead == w.dead
    ensures QueueSound(x) && w.uploads[pid].rotation.value.original.key in Attached(w.db)
    ensures w.uploads[pid].rotation.value.original.key in w.content
  {
    var r := w.uploads[pid].rotation.value;
    assert RowSafe(w, w.db.photos[r.photo].key);
  }

  lemma RotationAttached(before: Db, after: Db, photo: Id, original: Photo, updated: NewPhoto, degrees: int, now: int)
    requires Replaces(before, after, photo, original, updated, degrees, now)
    ensures forall k :: k in Attached(after) ==> k in Attached(before) || k == updated.key
  {
    forall k | k in Attached(after) ensures k in Attached(before) || k == updated.key {
      var p :| p in after.photos && after.photos[p].key == k;
      if p != photo {
        assert before.photos[p].key == k;
      }
    }
  }

  lemma RotationKeeps<B>(w: World<B>, x: World<B>, pid: nat)
    requires KeyInv(w) && Ready(w, pid, true)
    requires var u := w.uploads[pid]; var r := u.rotation.value;
      Replaces(w.db, x.db, r.photo, r.original, u.news[0], r.degrees, w.clock)
      && x.detached == w.detached + {r.original.key}
    requires x.store == w.store && x.content == w.content && x.dead == w.dead && x.workers == w.workers
    requires x.uploads == w.uploads - {pid}
    ensures KeyInv(x)
  {
    var u := w.uploads[pid];
    var r := u.rotation.value;
    RotationSafe(w, x, pid);
    RotationQueueSound(w, x, pid);
    RotationAttached(w.db, x.db, r.photo, r.original, u.news[0], r.degrees, w.clock);
    assert KeysOf(u.news)[0] in SetOf(KeysOf(u.news));
    OthersAfterCommit(w, x, pid);
  }

  // ----- removals

  lemma RemoveKeeps<B>(w: World<B>, parent: Parent, db: Db)
    requires KeyInv(w) && Detaches(w.db, db, parent, w.clock)
    ensures KeyInv(Remove(w, parent, db))
  {
    var x := Remove(w, parent, db);
    forall p | p in x.db.photos ensures RowSafe(x, x.db.photos[p].key) {
      assert RowSafe(w, w.db.photos[p].key);
      OnlyOneParent(w, parent, p);
    }
    forall k | k in KeysUnder(w.db, parent) ensures k in w.content && k !in w.dead && k in Attached(w.db) {
      var p :| p in PhotosOf(w.db, parent) && w.db.photos[p].key == k;
      assert RowSafe(w, w.db.photos[p].key);
    }
    assert Attached(x.db) <= Attached(w.db);
    forall pid | pid in x.uploads ensures UploadSound(x, x.uploads[pid]) {
      NewKeysAreNew(w, w.uploads[pid]);
      UploadFrame(w, x, w.uploads[pid]);
    }
  }

  lemma OnlyOneParent<B>(w: World<B>, parent: Parent, p: Id)
    requires PhotosSafe(w) && p in w.db.photos && w.db.photos[p].parent != parent
    ensures w.db.photos[p].key !in KeysUnder(w.db, parent)
  {
  }

  // ----- cleanup workers

  lemma ClaimKeeps<B>(w: World<B>, wid: nat, keys: seq<Key>)
    requires KeyInv(w) && forall k <- keys :: k in w.db.deletions
    ensures KeyInv(w.(db := Claim(w.db, SetOf(keys)), workers := w.workers[wid := Worker(keys, false)], dead := w.dead + SetOf(keys)))
  {
    var x := w.(db := Claim(w.db, SetOf(keys)), workers := w.workers[wid := Worker(keys, false)], dead := w.dead + SetOf(keys));
    assert forall p :: p in w.db.photos ==> RowSafe(w, w.db.photos[p].key);
    OthersKeep(w, x);
  }

  lemma EraseKeeps<B>(w: World<B>, wid: nat, reported: bool)
    requires KeyInv(w) && Lifecycle.Holds(w, wid)
    ensures var worker := w.workers[wid];
      KeyInv(w.(store := w.store - {worker.keys[0]}, workers := w.workers[wid := worker.(erased := reported || worker.erased)]))
  {
    var worker := w.workers[wid];
    var x := w.(store := w.store - {worker.keys[0]}, workers := w.workers[wid := worker.(erased := reported || worker.erased)]);
    assert worker.keys[0] in w.dead;
    assert forall p :: p in w.db.photos ==> RowSafe(w, w.db.photos[p].key);
    OthersKeep(w, x);
  }

  lemma PopKeeps<B>(w: World<B>, wid: nat)
    requires KeyInv(w) && Lifecycle.Holds(w, wid)
    ensures KeyInv(Pop(w, wid))
  {
    var x := Pop(w, wid);
    assert forall p :: p in w.db.photos ==> RowSafe(w, w.db.photos[p].key);
    OthersKeep(w, x);
  }

  lemma CompleteKeeps<B>(w: World<B>, key: Key)
    requires KeyInv(w)
    ensures KeyInv(w.(db := CompleteDeletion(w.db, key)))
  {
    var x := w.(db := CompleteDeletion(w.db, key));
    assert forall p :: p in w.db.photos ==> RowSafe(w, w.db.photos[p].key);
    OthersKeep(w, x);
  }

  /** A step that touches neither keys, nor requests, nor workers. */
  ghost predicate SameKeys<B>(w: World<B>, x: World<B>) {
    && x.db.photos == w.db.photos && x.db.deletions == w.db.deletions && x.store == w.store && x.content == w.content
    && x.dead == w.dead && x.detached == w.detached
    && (forall wid :: wid in x.workers ==> wid in w.workers && x.workers[wid] == w.workers[wid])
    && (forall pid :: pid in x.uploads ==> pid in w.uploads && SameRequest(x.uploads[pid], w.uploads[pid]))
  }

  lemma SameKeysKeep<B>(w: World<B>, x: World<B>)
    requires KeyInv(w) && SameKeys(w, x)
    ensures KeyInv(x)
  {
    assert forall p :: p in w.db.photos ==> RowSafe(w, w.db.photos[p].key);
    OthersKeep(w, x);
  }

  // ----- every step, every run

  lemma BegunKeeps<B>(w: World<B>, pid: nat, news: seq<NewPhoto>, files: seq<B>, expires: int, alive: bool)
    requires KeyInv(w) && pid !in w.uploads && |news| == |files| && Distinct(KeysOf(news))
    requires forall i :: 0 <= i < |news| ==> Fresh(w, news[i].key)
    ensures KeyInv(Begun(w, pid, news, files, expires, alive))
  {
    ContentsAdded(w.content, news, files);
    BeginKeeps(w, Begun(w, pid, news, files, expires, alive), pid, Upload(news, files, 0, alive, None), expires);
  }

  lemma BeginRotationKeeps<B, T>(f: Files<B, T>, w: World<B>, s: RequestStep<B>)
    requires KeyInv(w) && RequestEnabled(f, w, s) && s.BeginRotation?
    ensures KeyInv(RequestNext(f, w, s))
  {
    var file := f.rotate(w.content[s.rotation.original.key], s.rotation.degrees).value;
    assert KeysOf([s.updated]) == [s.updated.key];
    BeginKeeps(w, RequestNext(f, w, s), s.pid, Upload([s.updated], [file], 0, s.alive, Some(s.rotation)), s.expires);
  }

  lemma RequestKeeps<B, T>(f: Files<B, T>, w: World<B>, s: RequestStep<B>)
    requires KeyInv(w) && RequestEnabled(f, w, s)
    ensures KeyInv(RequestNext(f, w, s))
  {
    if s.BeginRotation? {
      BeginRotationKeeps(f, w, s);
    } else {
      OtherRequestKeeps(f, w, s);
    }
  }

  lemma OtherRequestKeeps<B, T>(f: Files<B, T>, w: World<B>, s: RequestStep<B>)
    requires KeyInv(w) && RequestEnabled(f, w, s) && !s.BeginRotation?
    ensures KeyInv(RequestNext(f, w, s))
  {
    match s
    case Begin(pid, news, files, expires, alive) => BegunKeeps(w, pid, news, files, expires, alive);
    case Put(pid) => PutKeeps(w, pid);
    case Crash(pid) => CrashKeeps(w, pid);
  }

  lemma CrashKeeps<B>(w: World<B>, pid: nat)
    requires KeyInv(w) && pid in w.uploads
    ensures KeyInv(w.(uploads := w.uploads[pid := w.uploads[pid].(alive := false)]))
  {
    SameKeysKeep(w, w.(uploads := w.uploads[pid := w.uploads[pid].(alive := false)]));
  }

  lemma CommitKeeps<B>(w: World<B>, s: CommitStep)
    requires KeyInv(w) && CommitEnabled(w, s)
    ensures KeyInv(CommitNext(w, s))
  {
    CommitAttaches(w, s);
    AttachKeeps(w, s.pid, Committed(w, s).value, ParentOf(s), OffsetOf(w, s));
  }

  lemma SwapKeeps<B>(w: World<B>, s: SwapStep)
    requires KeyInv(w) && SwapEnabled(w, s)
    ensures KeyInv(SwapNext(w, s))
  {
    SwapReplaces(w, s);
    RotationKeeps(w, SwapNext(w, s), s.pid);
  }

  lemma RemovalKeeps<B>(w: World<B>, s: RemovalStep)
    requires KeyInv(w) && RemovalEnabled(w, s)
    ensures KeyInv(RemovalNext(w, s))
  {
    RemovalDetaches(w, s);
    RemoveKeeps(w, RemovedParent(s), Removed(w, s).value);
  }

  lemma WorkerKeeps<B>(w: World<B>, s: WorkerStep)
    requires KeyInv(w) && WorkerEnabled(w, s)
    ensures KeyInv(WorkerNext(w, s))
  {
    match s
    case ClaimRows(wid, keys) => ClaimKeeps(w, wid, keys);
    case Erase(wid, reported) => EraseKeeps(w, wid, reported);
    case CompleteRow(wid) =>
      CompleteKeeps(w, w.workers[wid].keys[0]);
      PopKeeps(w.(db := CompleteDeletion(w.db, w.workers[wid].keys[0])), wid);
    case Skip(wid) => PopKeeps(w, wid);
    case Lose(wid) => SameKeysKeep(w, WorkerNext(w, s));
  }

  lemma OtherSame<B>(w: World<B>, s: OtherStep)
    requires OtherEnabled(w, s)
    ensures SameKeys(w, OtherNext(w, s))
  {
  }

  lemma StepKeeps<B, T>(f: Files<B, T>, w: World<B>, s: Step<B>)
    requires KeyInv(w) && Enabled(f, w, s)
    ensures KeyInv(Next(f, w, s))
  {
    match s
    case OfRequest(r) => RequestKeeps(f, w, r);
    case OfCommit(c) => CommitKeeps(w, c);
    case OfSwap(t) => SwapKeeps(w, t);
    case OfRemoval(m) => RemovalKeeps(w, m);
    case OfWorker(k) => WorkerKeeps(w, k);
    case Other(o) =>
      OtherSame(w, o);
      SameKeysKeep(w, OtherNext(w, o));
  }

  lemma {:induction false} RunKeeps<B, T>(f: Files<B, T>, worlds: seq<World<B>>, steps: seq<Step<B>>, i: nat)
    requires Runs(f, worlds, steps) && i < |worlds|
    ensures KeyInv(worlds[i])
  {
    if i > 0 {
      RunKeeps(f, worlds, steps, i - 1);
      StepKeeps(f, worlds[i - 1], steps[i - 1]);
    }
  }

  /** In every interleaving, every photo row names an object that is in the store, and
      no key that any worker holds is named by a photo row. */
  lemma NamedObjectsAreStored<B, T>(f: Files<B, T>, worlds: seq<World<B>>, steps: seq<Step<B>>, i: nat)
    requires Runs(f, worlds, steps) && i < |worlds|
    ensures forall p :: p in worlds[i].db.photos ==> worlds[i].db.photos[p].key in worlds[i].store
    ensures forall p, wid :: p in worlds[i].db.photos && wid in worlds[i].workers ==>
      worlds[i].db.photos[p].key !in worlds[i].workers[wid].keys
  {
    RunKeeps(f, worlds, steps, i);
    assert forall p :: p in worlds[i].db.photos ==> RowSafe(worlds[i], worlds[i].db.photos[p].key);
  }
}
