/** A request whose files are stored and whose reservations stand always commits. */
module LifecycleCommits {
  import opened Common
  import opened Database
  import opened Lifecycle
  import opened LifecycleSafety
  import opened LifecyclePages
  import opened LifecycleRotation

  /** New rows that collide with nothing, in rows that already obey the constraints. */
  lemma {:induction false} InsertRowsSucceed(photos: map<Id, Photo>, parent: Parent, news: seq<NewPhoto>, offset: int)
    requires Distinct(IdsOf(news)) && Distinct(KeysOf(news))
    requires forall i :: 0 <= i < |news| ==> news[i].id !in photos
    requires forall i, p :: 0 <= i < |news| && p in photos ==> photos[p].key != news[i].key
    requires forall p :: p in photos && photos[p].parent == parent ==> photos[p].page <= offset
    ensures InsertRows(photos, parent, news, offset).Ok?
  {
    if news != [] {
      var n := |news| - 1;
      assert IdsOf(news[..n]) == IdsOf(news)[..n] && KeysOf(news[..n]) == KeysOf(news)[..n];
      InsertRowsSucceed(photos, parent, news[..n], offset);
      LastRowFits(photos, parent, news, offset);
    }
  }

  lemma LastRowFits(photos: map<Id, Photo>, parent: Parent, news: seq<NewPhoto>, offset: int)
    requires news != [] && Distinct(IdsOf(news)) && Distinct(KeysOf(news))
    requires forall i :: 0 <= i < |news| ==> news[i].id !in photos
    requires forall i, p :: 0 <= i < |news| && p in photos ==> photos[p].key != news[i].key
    requires forall p :: p in photos && photos[p].parent == parent ==> photos[p].page <= offset
    requires InsertRows(photos, parent, news[..|news| - 1], offset).Ok?
    ensures InsertRows(photos, parent, news, offset).Ok?
  {
    var n := |news| - 1;
    var m := InsertRows(photos, parent, news[..n], offset).value;
    var row := PhotoRow(parent, offset + n + 1, news[n]);
    InsertRowsKeys(photos, parent, news[..n], offset);
    assert forall i :: 0 <= i < n ==> IdsOf(news)[i] != IdsOf(news)[n] && KeysOf(news)[i] != KeysOf(news)[n];
    forall q | q in m ensures !Collides(m[q], row) {
      if q in photos {
        InsertRowsOld(photos, parent, news[..n], offset, q);
      } else {
        var i :| 0 <= i < n && IdsOf(news[..n])[i] == q;
        InsertRowsNew(photos, parent, news[..n], offset, i);
      }
    }
  }

  /** The batch of a request that is ready collides with no row. */
  lemma ReadyInserts<B>(w: World<B>, pid: nat, photos: map<Id, Photo>, parent: Parent, offset: int)
    requires KeyInv(w) && IdsPending(w) && PageInv(w.db) && Ready(w, pid, false)
    requires photos == w.db.photos && offset == |PhotosOf(w.db, parent)|
    ensures InsertRows(photos, parent, w.uploads[pid].news, offset).Ok?
  {
    var news := w.uploads[pid].news;
    assert IdsNew(w, news);
    assert UploadSound(w, w.uploads[pid]);
    NewKeysAreNew(w, w.uploads[pid]);
    forall i | 0 <= i < |news| ensures news[i].id !in photos {
      assert IdsOf(news)[i] in SetOf(IdsOf(news));
    }
    forall i, p | 0 <= i < |news| && p in photos ensures photos[p].key != news[i].key {
      assert KeysOf(news)[i] in SetOf(KeysOf(news));
      assert photos[p].key in Attached(w.db);
    }
    InsertRowsSucceed(photos, parent, news, offset);
  }

  ghost predicate Standing<B>(w: World<B>, pid: nat)
    requires pid in w.uploads
  {
    forall k <- KeysOf(w.uploads[pid].news) :: Promotable(w.db, k, w.clock)
  }

  lemma InsertCommits<B>(w: World<B>, pid: nat, db: Db, parent: Parent)
    requires KeyInv(w) && IdsPending(w) && PageInv(w.db) && Ready(w, pid, false)
    requires db.deletions == w.db.deletions && db.photos == w.db.photos
    ensures InsertPhotos(db, parent, w.uploads[pid].news, |PhotosOf(w.db, parent)|, w.clock).Ok? <==> Standing(w, pid)
  {
    var keys := KeysOf(w.uploads[pid].news);
    assert UploadSound(w, w.uploads[pid]);
    PromoteIff(db, keys, w.clock);
    assert forall k <- keys :: Promotable(db, k, w.clock) == Promotable(w.db, k, w.clock);
    ReadyInserts(w, pid, w.db.photos, parent, |PhotosOf(w.db, parent)|);
  }

  /** A new logbook commits exactly when its references are active, its slot is free
      and every reservation stands. */
  lemma CreateCommits<B>(w: World<B>, pid: nat, id: Id, slot: Slot)
    requires KeyInv(w) && IdsPending(w) && PageInv(w.db) && Ready(w, pid, false)
    ensures Create(w.db, id, slot, w.uploads[pid].news, w.clock).Ok? <==>
      slot.machine in w.db.machines && slot.shift in w.db.shifts && id !in w.db.books && slot !in w.db.books.Values && Standing(w, pid)
  {
    var parent := Parent(Logbook, id);
    InsertCommits(w, pid, w.db.(books := w.db.books[id := slot]), parent);
    if id !in w.db.books {
      NothingYet(w.db, parent);
    }
  }

  /** An append commits exactly when the logbook exists and has room, and every
      reservation stands. */
  lemma AppendCommits<B>(w: World<B>, pid: nat, id: Id, maxPhotos: int)
    requires KeyInv(w) && IdsPending(w) && PageInv(w.db) && Ready(w, pid, false)
    ensures AppendPhotos(w.db, id, w.uploads[pid].news, maxPhotos, w.clock).Ok? <==>
      id in w.db.books && |PhotosOf(w.db, Parent(Logbook, id))| + |w.uploads[pid].news| <= maxPhotos && Standing(w, pid)
  {
    InsertCommits(w, pid, w.db, Parent(Logbook, id));
  }

  /** A message commits exactly when its machine is active, its id is new and every
      reservation stands. */
  lemma MessageCommits<B>(w: World<B>, pid: nat, id: Id, row: MessageRow)
    requires KeyInv(w) && IdsPending(w) && PageInv(w.db) && Ready(w, pid, false)
    ensures CreateMessage(w.db, id, row, w.uploads[pid].news, w.clock).Ok? <==>
      row.machine in w.db.machines && id !in w.db.messages && Standing(w, pid)
  {
    InsertCommits(w, pid, w.db.(messages := w.db.messages[id := row]), Parent(Message, id));
    if id !in w.db.messages {
      NothingYet(w.db, Parent(Message, id));
    }
  }
}
